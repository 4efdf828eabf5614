/**
 Event listeners of a page: the lists they are kept in, handlers set by attribute, listeners that go
 with an abort signal, and a log of what was removed and what was called.
 */
module EventStore {
  import opened Options

  /** Anything events can be sent to; abort signals are targets as well. */
  type Target = nat

  type Key = (Target, string)

  datatype Listener = Listener(target: Target, kind: string, callback: nat, capture: bool, once: bool, passive: bool,
    handler: bool, signal: Option<Target>, removed: bool)

  datatype Phase = NoPhase | Capturing | AtTarget | Bubbling

  datatype Flags = Flags(stop: bool, stopImmediate: bool, canceled: bool, passive: bool, dispatch: bool, threw: bool)

  datatype Event = Event(kind: string, bubbles: bool, cancelable: bool, flags: Flags, target: Option<Target>,
    current: Option<Target>, phase: Phase)

  datatype Entry = Called(l: nat, event: nat, current: Target, phase: Phase) | Removed(l: nat)

  /** Listeners and events are numbered in the order they were made; `handlers` has a record for every attribute
      that was looked at, with its listener while it is set. */
  datatype Page = Page(
    objs: seq<Listener>,
    lists: map<Key, seq<nat>>,
    handlers: map<Key, Option<nat>>,
    algos: map<Target, seq<nat>>,
    aborted: set<Target>,
    events: seq<Event>,
    log: seq<Entry>)

  function KeyOf(l: Listener): Key {
    (l.target, l.kind)
  }

  function ListOf(p: Page, k: Key): seq<nat> {
    if k in p.lists then p.lists[k] else []
  }

  function AlgosOf(p: Page, s: Target): seq<nat> {
    if s in p.algos then p.algos[s] else []
  }

  // ----- operations

  function Without(list: seq<nat>, id: nat): seq<nat> {
    if list == [] then [] else if list[0] == id then list[1..] else [list[0]] + Without(list[1..], id)
  }

  /** Makes a listener and puts it last, or first, in its list. */
  function Insert(p: Page, l: Listener, front: bool): Page {
    var id, list := |p.objs|, ListOf(p, KeyOf(l));
    p.(objs := p.objs + [l], lists := p.lists[KeyOf(l) := if front then [id] + list else list + [id]])
  }

  function RemoveObj(p: Page, id: nat): Page
    requires id < |p.objs|
  {
    var l := p.objs[id];
    p.(objs := p.objs[id := l.(removed := true)],
       lists := if KeyOf(l) in p.lists then p.lists[KeyOf(l) := Without(p.lists[KeyOf(l)], id)] else p.lists,
       log := if l.removed then p.log else p.log + [Removed(id)])
  }

  predicate Matches(p: Page, id: nat, callback: nat, capture: bool) {
    id < |p.objs| && !p.objs[id].handler && p.objs[id].callback == callback && p.objs[id].capture == capture
  }

  function FirstMatch(p: Page, list: seq<nat>, callback: nat, capture: bool): (r: Option<nat>)
    ensures r.Some? ==> r.value in list && Matches(p, r.value, callback, capture)
    ensures r.None? ==> forall id :: id in list ==> !Matches(p, id, callback, capture)
  {
    if list == [] then None
    else if Matches(p, list[0], callback, capture) then Some(list[0])
    else FirstMatch(p, list[1..], callback, capture)
  }

  /** `addEventListener`: no second listener with the same callback, and none for a signal already aborted. */
  function AddListener(p: Page, l: Listener): Page {
    if l.signal.Some? && l.signal.value in p.aborted then p
    else if FirstMatch(p, ListOf(p, KeyOf(l)), l.callback, l.capture).Some? then p
    else
      var p' := Insert(p, l, false);
      if l.signal.None? then p' else WithAlgo(p', l.signal.value, |p.objs|)
  }

  function RemoveListener(p: Page, k: Key, callback: nat, capture: bool): Page {
    var m := FirstMatch(p, ListOf(p, k), callback, capture);
    if m.None? then p else RemoveObj(p, m.value)
  }

  function HandlerListener(k: Key): Listener {
    Listener(k.0, k.1, 0, false, false, false, true, None, false)
  }

  /** Makes the listener of a handler unless it has one. */
  function Activate(p: Page, k: Key, front: bool): Page {
    if k in p.handlers && p.handlers[k].Some? then p
    else Insert(p, HandlerListener(k), front).(handlers := p.handlers[k := Some(|p.objs|)])
  }

  function Deactivate(p: Page, k: Key): Page {
    if k in p.handlers && p.handlers[k].Some? && p.handlers[k].value < |p.objs|
    then RemoveObj(p, p.handlers[k].value).(handlers := p.handlers[k := None])
    else p.(handlers := p.handlers[k := None])
  }

  function RemoveAll(p: Page, ids: seq<nat>): Page
    decreases |ids|
  {
    if ids == [] then p
    else RemoveAll(if ids[0] < |p.objs| then RemoveObj(p, ids[0]) else p, ids[1..])
  }

  /** Marks a signal aborted and removes the listeners that go with it. */
  function AbortListeners(p: Page, s: Target): Page {
    RemoveAll(p.(aborted := p.aborted + {s}, algos := p.algos - {s}), AlgosOf(p, s))
  }

  // ----- what always holds

  ghost predicate NoDup(s: seq<nat>) {
    forall i, j :: 0 <= i < j < |s| ==> s[i] != s[j]
  }

  ghost predicate Listed(p: Page, id: nat) {
    id < |p.objs| && !p.objs[id].removed
  }

  /** A listener is in the list of its target and type just when it has not been removed. */
  ghost predicate ListsOk(p: Page) {
    && (forall k: Key, id: nat :: id in ListOf(p, k) <==> Listed(p, id) && KeyOf(p.objs[id]) == k)
    && (forall k: Key :: NoDup(ListOf(p, k)))
  }

  ghost predicate SameListener(l: Listener, m: Listener) {
    !l.handler && !m.handler && KeyOf(l) == KeyOf(m) && l.callback == m.callback && l.capture == m.capture
  }

  /** No two listeners for the same callback in the same phase. */
  ghost predicate Single(p: Page) {
    forall a: nat, b: nat :: Listed(p, a) && Listed(p, b) && a != b ==> !SameListener(p.objs[a], p.objs[b])
  }

  /** Handlers have no options. */
  predicate IsPlain(l: Listener) {
    !l.capture && !l.once && !l.passive && l.signal == None
  }

  ghost predicate HandlersOk(p: Page) {
    && (forall k :: k in p.handlers && p.handlers[k].Some? ==>
      Listed(p, p.handlers[k].value) && p.objs[p.handlers[k].value].handler && KeyOf(p.objs[p.handlers[k].value]) == k)
    && (forall id: nat :: Listed(p, id) && p.objs[id].handler ==>
      IsPlain(p.objs[id]) && KeyOf(p.objs[id]) in p.handlers && p.handlers[KeyOf(p.objs[id])] == Some(id))
  }

  /** Listener `id` is removed when signal `s` is aborted. */
  ghost predicate Goes(p: Page, s: Target, id: nat) {
    id in AlgosOf(p, s)
  }

  ghost predicate Owned(p: Page, s: Target, id: nat) {
    id < |p.objs| && p.objs[id].signal == Some(s) && !p.objs[id].handler
  }

  /** A listener that goes with a signal, this one aside, will go when it is aborted, which it has not been. */
  ghost predicate Waiting(p: Page, aside: Option<Target>) {
    forall id: nat :: Listed(p, id) && p.objs[id].signal.Some? && p.objs[id].signal != aside ==>
      p.objs[id].signal.value !in p.aborted && Goes(p, p.objs[id].signal.value, id)
  }

  ghost predicate Pointing(p: Page) {
    forall s: Target, id: nat :: Goes(p, s, id) ==> Owned(p, s, id)
  }

  ghost predicate SignalsOk(p: Page) {
    Waiting(p, None) && Pointing(p)
  }

  ghost predicate CallOf(e: Entry, id: nat) {
    e.Called? && e.l == id
  }

  /** No listener is called after it was removed, but one that is called only once is removed right before. */
  ghost predicate NoneAfterRemoval(p: Page) {
    forall i, j :: 0 <= i < j < |p.log| && p.log[i].Removed? && CallOf(p.log[j], p.log[i].l) ==>
      j == i + 1 && p.log[i].l < |p.objs| && p.objs[p.log[i].l].once
  }

  /** A listener that is called only once is called at most once. */
  ghost predicate OnceOnly(p: Page) {
    forall i, j :: 0 <= i < j < |p.log| && p.log[i].Called? && CallOf(p.log[j], p.log[i].l) ==>
      p.log[i].l < |p.objs| && !p.objs[p.log[i].l].once
  }

  ghost predicate LogOk(p: Page) {
    RemovalsLogged(p) && OnceGone(p) && NoneAfterRemoval(p) && OnceOnly(p)
  }

  ghost predicate RemovalsLogged(p: Page) {
    && (forall id :: 0 <= id < |p.objs| ==> (p.objs[id].removed <==> Removed(id) in p.log))
    && forall i :: 0 <= i < |p.log| ==> p.log[i].l < |p.objs|
  }

  ghost predicate OnceGone(p: Page) {
    forall i :: 0 <= i < |p.log| && p.log[i].Called? ==>
      p.log[i].l < |p.objs| && (p.objs[p.log[i].l].once ==> p.objs[p.log[i].l].removed)
  }

  ghost predicate Valid(p: Page) {
    ListsOk(p) && Single(p) && HandlersOk(p) && SignalsOk(p) && LogOk(p)
  }

  /** What any operation leaves of what was there: listeners keep what they were made with and stay removed,
      the log grows. */
  ghost predicate Grows(p: Page, p': Page) {
    && |p.objs| <= |p'.objs| && p.log <= p'.log && p.aborted <= p'.aborted
    && (forall id :: 0 <= id < |p.objs| ==> p'.objs[id] == p.objs[id].(removed := p'.objs[id].removed))
    && (forall id :: 0 <= id < |p.objs| && p.objs[id].removed ==> p'.objs[id].removed)
  }

  // ----- what the operations keep

  lemma {:induction false} WithoutIs(s: seq<nat>, id: nat)
    requires NoDup(s)
    ensures NoDup(Without(s, id)) && forall x :: x in Without(s, id) <==> x in s && x != id
  {
    if s != [] {
      assert forall x :: x in s <==> x == s[0] || x in s[1..];
      assert s[0] !in s[1..];
      WithoutIs(s[1..], id);
    }
  }

  lemma {:induction false} InList(p: Page, k: Key, id: nat)
    requires ListsOk(p)
    ensures id in ListOf(p, k) <==> Listed(p, id) && KeyOf(p.objs[id]) == k
  {
  }

  lemma {:induction false} InsertLists(p: Page, l: Listener, front: bool)
    requires ListsOk(p) && !l.removed
    ensures ListsOk(Insert(p, l, front))
  {
    var p', id := Insert(p, l, front), |p.objs|;
    forall x: nat ensures Listed(p', x) <==> Listed(p, x) || x == id {}
    InList(p, KeyOf(l), id);
    forall k: Key, x: nat ensures x in ListOf(p', k) <==> Listed(p', x) && KeyOf(p'.objs[x]) == k {
      InList(p, k, x);
      assert x in ListOf(p', k) <==> x in ListOf(p, k) || (x == id && k == KeyOf(l));
    }
    forall k: Key ensures NoDup(ListOf(p', k)) { assert k != KeyOf(l) ==> ListOf(p', k) == ListOf(p, k); }
  }

  lemma {:induction false} InsertLog(p: Page, l: Listener, front: bool)
    requires LogOk(p) && !l.removed
    ensures LogOk(Insert(p, l, front))
  {
  }

  lemma {:induction false} RemoveLists(p: Page, id: nat)
    requires ListsOk(p) && id < |p.objs|
    ensures ListsOk(RemoveObj(p, id))
  {
    var p', key := RemoveObj(p, id), KeyOf(p.objs[id]);
    WithoutIs(ListOf(p, key), id);
    forall x: nat ensures Listed(p', x) <==> Listed(p, x) && x != id {}
    forall k: Key, x: nat ensures x in ListOf(p', k) <==> Listed(p', x) && KeyOf(p'.objs[x]) == k {
      InList(p, k, x);
      assert ListOf(p', k) == if k == key then Without(ListOf(p, k), id) else ListOf(p, k);
    }
    forall k: Key ensures NoDup(ListOf(p', k)) { assert k != key ==> ListOf(p', k) == ListOf(p, k); }
  }

  lemma {:induction false} RemoveLog(p: Page, id: nat)
    requires LogOk(p) && id < |p.objs|
    ensures LogOk(RemoveObj(p, id))
  {
    var p' := RemoveObj(p, id);
    forall x | 0 <= x < |p'.objs| ensures p'.objs[x].removed <==> Removed(x) in p'.log {
      assert x != id ==> p'.objs[x] == p.objs[x];
    }
    forall i | 0 <= i < |p'.log| ensures p'.log[i].l < |p'.objs| { assert i < |p.log| ==> p'.log[i] == p.log[i]; }
    RemoveOrder(p, id);
  }

  lemma {:induction false} RemoveOrder(p: Page, id: nat)
    requires OnceGone(p) && NoneAfterRemoval(p) && OnceOnly(p) && id < |p.objs|
    ensures OnceGone(RemoveObj(p, id)) && NoneAfterRemoval(RemoveObj(p, id)) && OnceOnly(RemoveObj(p, id))
  {
    var p' := RemoveObj(p, id);
    assert forall i :: 0 <= i < |p'.log| && p'.log[i].Called? ==> i < |p.log| && p'.log[i] == p.log[i];
    assert forall x :: 0 <= x < |p.objs| ==> p'.objs[x] == p.objs[x].(removed := p'.objs[x].removed);
    assert forall i :: 0 <= i < |p.log| ==> p'.log[i] == p.log[i];
  }

  /** Which listeners are left, and that they are what they were. */
  lemma {:induction false} RemoveLeaves(p: Page, id: nat)
    requires id < |p.objs|
    ensures Grows(p, RemoveObj(p, id)) && |RemoveObj(p, id).objs| == |p.objs|
    ensures forall x: nat :: Listed(RemoveObj(p, id), x) <==> Listed(p, x) && x != id
    ensures forall s: Target, x: nat :: Goes(RemoveObj(p, id), s, x) == Goes(p, s, x)
    ensures forall s: Target, x: nat :: Owned(RemoveObj(p, id), s, x) == Owned(p, s, x)
  {
  }

  lemma {:induction false} RemoveRest(p: Page, id: nat, aside: Option<Target>)
    requires Single(p) && Waiting(p, aside) && Pointing(p) && id < |p.objs|
    ensures Single(RemoveObj(p, id)) && Waiting(RemoveObj(p, id), aside) && Pointing(RemoveObj(p, id))
  {
    RemoveLeaves(p, id);
  }

  lemma {:induction false} GrowsFurther(p: Page, q: Page, r: Page)
    requires Grows(p, q) && Grows(q, r)
    ensures Grows(p, r)
  {
    assert forall id :: 0 <= id < |p.objs| ==> r.objs[id] == q.objs[id].(removed := r.objs[id].removed);
  }

  /** Removing a listener that is not a handler's. */
  lemma {:induction false} RemoveKeeps(p: Page, id: nat)
    requires Valid(p) && id < |p.objs| && !p.objs[id].handler
    ensures Valid(RemoveObj(p, id)) && Grows(p, RemoveObj(p, id))
  {
    RemoveLists(p, id);
    RemoveLog(p, id);
    RemoveRest(p, id, None);
    RemoveHandlers(p, id);
    RemoveLeaves(p, id);
  }

  lemma {:induction false} RemoveHandlers(p: Page, id: nat)
    requires HandlersOk(p) && id < |p.objs| && !p.objs[id].handler
    ensures HandlersOk(RemoveObj(p, id))
  {
    RemoveLeaves(p, id);
  }

  lemma {:induction false} RemoveListenerKeeps(p: Page, k: Key, callback: nat, capture: bool)
    requires Valid(p)
    ensures Valid(RemoveListener(p, k, callback, capture)) && Grows(p, RemoveListener(p, k, callback, capture))
  {
    var m := FirstMatch(p, ListOf(p, k), callback, capture);
    if m.Some? { RemoveKeeps(p, m.value); }
  }

  /** Afterwards no listener of that callback is left in the list. */
  lemma {:induction false} RemoveListenerRemoves(p: Page, k: Key, callback: nat, capture: bool, id: nat)
    requires Valid(p) && Listed(p, id) && KeyOf(p.objs[id]) == k
    ensures Listed(RemoveListener(p, k, callback, capture), id) <==> !Matches(p, id, callback, capture)
  {
    var m := FirstMatch(p, ListOf(p, k), callback, capture);
    InList(p, k, id);
    if m.Some? {
      InList(p, k, m.value);
      assert m.value == id || SameListener(p.objs[id], p.objs[m.value]) || !Matches(p, id, callback, capture);
      RemoveLeaves(p, m.value);
    }
  }

  lemma {:induction false} InsertRest(p: Page, l: Listener, front: bool)
    requires HandlersOk(p) && !l.removed && !l.handler
    ensures HandlersOk(Insert(p, l, front)) && Grows(p, Insert(p, l, front))
  {
    var p' := Insert(p, l, front);
    forall x: nat ensures Listed(p', x) <==> Listed(p, x) || x == |p.objs| {}
    assert forall x :: 0 <= x < |p.objs| ==> p'.objs[x] == p.objs[x];
  }

  function WithAlgo(p: Page, s: Target, id: nat): Page {
    p.(algos := p.algos[s := AlgosOf(p, s) + [id]])
  }

  lemma {:induction false} AddSignals(p: Page, l: Listener)
    requires SignalsOk(p) && !l.removed && !l.handler && (l.signal.Some? ==> l.signal.value !in p.aborted)
    ensures var p' := Insert(p, l, false);
      SignalsOk(if l.signal.None? then p' else WithAlgo(p', l.signal.value, |p.objs|))
  {
    var p', id := Insert(p, l, false), |p.objs|;
    var q := if l.signal.None? then p' else WithAlgo(p', l.signal.value, id);
    forall x: nat ensures Listed(q, x) <==> Listed(p, x) || x == id {}
    assert forall x :: 0 <= x < |p.objs| ==> q.objs[x] == p.objs[x];
    assert q.objs[id] == l;
    forall s: Target, x: nat ensures Goes(q, s, x) <==> Goes(p, s, x) || (x == id && l.signal == Some(s)) {
      assert AlgosOf(q, s) == if l.signal == Some(s) then AlgosOf(p, s) + [id] else AlgosOf(p, s);
    }
    forall s: Target, x: nat | Owned(p, s, x) ensures Owned(q, s, x) {}
  }

  lemma {:induction false} AddSingle(p: Page, l: Listener)
    requires Single(p) && ListsOk(p) && !l.removed && !l.handler
    requires forall id :: id in ListOf(p, KeyOf(l)) ==> !Matches(p, id, l.callback, l.capture)
    ensures Single(Insert(p, l, false))
  {
    var p' := Insert(p, l, false);
    forall x: nat ensures Listed(p', x) <==> Listed(p, x) || x == |p.objs| {}
    assert forall x :: 0 <= x < |p.objs| ==> p'.objs[x] == p.objs[x];
    forall x: nat | Listed(p, x) ensures !SameListener(p.objs[x], l) { InList(p, KeyOf(l), x); }
  }

  lemma {:induction false} AddKeeps(p: Page, l: Listener)
    requires Valid(p) && !l.removed && !l.handler
    ensures Valid(AddListener(p, l)) && Grows(p, AddListener(p, l))
  {
    var m := FirstMatch(p, ListOf(p, KeyOf(l)), l.callback, l.capture);
    if !(l.signal.Some? && l.signal.value in p.aborted) && m.None? {
      InsertLists(p, l, false);
      InsertLog(p, l, false);
      InsertRest(p, l, false);
      AddSignals(p, l);
      AddSingle(p, l);
      var p', q := Insert(p, l, false), AddListener(p, l);
      assert q == p'.(algos := q.algos);
      OnlyAlgos(p', q);
    }
  }

  /** Unless the signal has been aborted, a listener for that callback is in the list afterwards: the one
      that was there, or a new one in the last place. All others stay, in their order. */
  lemma {:induction false} AddedIsThere(p: Page, l: Listener, k: Key)
    requires Valid(p) && !l.removed && !l.handler
    ensures Valid(AddListener(p, l)) && Grows(p, AddListener(p, l))
    ensures Refused(p, l) || There(p, l) <==> AddListener(p, l) == p
    ensures !Refused(p, l) ==> There(AddListener(p, l), l)
    ensures ListOf(AddListener(p, l), k) ==
      ListOf(p, k) + if Refused(p, l) || There(p, l) || k != KeyOf(l) then [] else [|p.objs|]
  {
    var q, list := AddListener(p, l), ListOf(p, KeyOf(l));
    var m := FirstMatch(p, list, l.callback, l.capture);
    AddKeeps(p, l);
    if m.Some? {
      InList(p, KeyOf(l), m.value);
      assert Listed(p, m.value) && SameListener(p.objs[m.value], l);
    } else {
      forall x: nat | Listed(p, x) ensures !SameListener(p.objs[x], l) { InList(p, KeyOf(l), x); }
      if !Refused(p, l) {
        assert q.objs == p.objs + [l] && ListOf(q, KeyOf(l)) == list + [|p.objs|];
        assert Listed(q, |p.objs|) && SameListener(q.objs[|p.objs|], l);
      }
    }
  }

  ghost predicate Refused(p: Page, l: Listener) {
    l.signal.Some? && l.signal.value in p.aborted
  }

  /** There is a live listener for that callback in that phase. */
  ghost predicate There(p: Page, l: Listener) {
    exists x: nat :: Listed(p, x) && SameListener(p.objs[x], l)
  }

  /** What the lists of the signals do not touch. */
  lemma {:induction false} OnlyAlgos(p: Page, q: Page)
    requires ListsOk(p) && Single(p) && HandlersOk(p) && LogOk(p) && SignalsOk(q) && q == p.(algos := q.algos)
    ensures Valid(q)
  {
    forall x: nat ensures Listed(q, x) == Listed(p, x) {}
    forall k: Key ensures ListOf(q, k) == ListOf(p, k) {}
  }

  lemma {:induction false} ActivateKeeps(p: Page, k: Key, front: bool)
    requires Valid(p)
    ensures Valid(Activate(p, k, front)) && Grows(p, Activate(p, k, front))
  {
    if !(k in p.handlers && p.handlers[k].Some?) {
      var l := HandlerListener(k);
      InsertLists(p, l, front);
      InsertLog(p, l, front);
      ActivateRest(p, k, front);
      var p', q := Insert(p, l, front), Activate(p, k, front);
      forall x: nat ensures Listed(q, x) == Listed(p', x) {}
      forall k': Key ensures ListOf(q, k') == ListOf(p', k') {}
    }
  }

  lemma {:induction false} ActivateRest(p: Page, k: Key, front: bool)
    requires Valid(p) && !(k in p.handlers && p.handlers[k].Some?)
    ensures var q := Activate(p, k, front); Single(q) && HandlersOk(q) && SignalsOk(q) && Grows(p, q)
  {
    var q := Activate(p, k, front);
    forall x: nat ensures Listed(q, x) <==> Listed(p, x) || x == |p.objs| {}
    assert forall x :: 0 <= x < |p.objs| ==> q.objs[x] == p.objs[x];
    forall s: Target, x: nat ensures Goes(q, s, x) == Goes(p, s, x) {}
    forall s: Target, x: nat | Owned(p, s, x) ensures Owned(q, s, x) {}
  }

  /** Afterwards the handler has a live listener in its list: the one it had, or a new one in the place
      asked for. All others stay, in their order. */
  lemma {:induction false} ActivatedIsThere(p: Page, k: Key, front: bool, k': Key)
    requires Valid(p)
    ensures Valid(Activate(p, k, front)) && Grows(p, Activate(p, k, front))
    ensures var q, id := Activate(p, k, front), |p.objs|;
      var active := k in p.handlers && p.handlers[k].Some?;
      && (active ==> q == p)
      && k in q.handlers && q.handlers[k] == (if active then p.handlers[k] else Some(id))
      && q.handlers[k].value in ListOf(q, k) && Listed(q, q.handlers[k].value) && q.objs[q.handlers[k].value].handler
      && ListOf(q, k') ==
        (if active || k' != k then ListOf(p, k') else if front then [id] + ListOf(p, k) else ListOf(p, k) + [id])
  {
    var q := Activate(p, k, front);
    ActivateKeeps(p, k, front);
    InList(q, k, q.handlers[k].value);
  }

  /** Pages that differ in their records of handlers only. */
  lemma {:induction false} OnlyHandlers(p: Page, q: Page)
    requires ListsOk(p) && Single(p) && SignalsOk(p) && LogOk(p) && HandlersOk(q) && q == p.(handlers := q.handlers)
    ensures Valid(q)
  {
    forall x: nat ensures Listed(q, x) == Listed(p, x) {}
    forall k: Key ensures ListOf(q, k) == ListOf(p, k) {}
    forall s: Target, x: nat ensures Goes(q, s, x) == Goes(p, s, x) && Owned(q, s, x) == Owned(p, s, x) {}
  }

  lemma {:induction false} DeactivateHandlers(p: Page, k: Key)
    requires HandlersOk(p)
    ensures HandlersOk(Deactivate(p, k))
  {
    var q := Deactivate(p, k);
    if k in p.handlers && p.handlers[k].Some? {
      RemoveLeaves(p, p.handlers[k].value);
      forall x: nat ensures Listed(q, x) <==> Listed(p, x) && x != p.handlers[k].value {}
    } else {
      forall x: nat ensures Listed(q, x) <==> Listed(p, x) {}
    }
  }

  lemma {:induction false} DeactivateKeeps(p: Page, k: Key)
    requires Valid(p)
    ensures Valid(Deactivate(p, k)) && Grows(p, Deactivate(p, k))
  {
    DeactivateHandlers(p, k);
    if k in p.handlers && p.handlers[k].Some? {
      var id := p.handlers[k].value;
      RemoveLists(p, id);
      RemoveLog(p, id);
      RemoveRest(p, id, None);
      RemoveLeaves(p, id);
      OnlyHandlers(RemoveObj(p, id), Deactivate(p, k));
    } else {
      OnlyHandlers(p, Deactivate(p, k));
    }
  }

  /** Afterwards the handler has no listener; exactly the one it had is gone. */
  lemma {:induction false} DeactivatedIsGone(p: Page, k: Key, id: nat)
    requires Valid(p)
    ensures Valid(Deactivate(p, k)) && Grows(p, Deactivate(p, k))
    ensures var q := Deactivate(p, k);
      && k in q.handlers && q.handlers[k].None?
      && (Listed(q, id) <==> Listed(p, id) && !(p.objs[id].handler && KeyOf(p.objs[id]) == k))
      && (id in ListOf(q, k) ==> Listed(q, id) && !q.objs[id].handler)
  {
    var q := Deactivate(p, k);
    DeactivateKeeps(p, k);
    InList(q, k, id);
    if k in p.handlers && p.handlers[k].Some? { RemoveLeaves(p, p.handlers[k].value); }
  }

  // ----- aborting

  /** The listeners of a signal that are still there while its abort algorithms run. */
  ghost predicate Leaving(p: Page, s: Target, ids: seq<nat>) {
    && (forall id: nat :: Listed(p, id) && p.objs[id].signal == Some(s) ==> id in ids)
    && (forall id: nat :: id in ids ==> id < |p.objs| && !p.objs[id].handler && p.objs[id].signal == Some(s))
  }

  ghost predicate Aborting(p: Page, s: Target, ids: seq<nat>) {
    ListsOk(p) && Single(p) && HandlersOk(p) && LogOk(p) && Waiting(p, Some(s)) && Pointing(p) && Leaving(p, s, ids)
  }

  lemma {:induction false} LeavingStep(p: Page, s: Target, ids: seq<nat>)
    requires ids != [] && Leaving(p, s, ids) && ids[0] < |p.objs|
    ensures Leaving(RemoveObj(p, ids[0]), s, ids[1..])
  {
    RemoveLeaves(p, ids[0]);
    forall x: nat ensures x in ids <==> x == ids[0] || x in ids[1..] {}
  }

  lemma {:induction false} AbortingStep(p: Page, s: Target, ids: seq<nat>)
    requires Aborting(p, s, ids) && ids != []
    ensures ids[0] < |p.objs| && Aborting(RemoveObj(p, ids[0]), s, ids[1..])
  {
    var id := ids[0];
    assert id in ids;
    RemoveLists(p, id);
    RemoveLog(p, id);
    RemoveHandlers(p, id);
    RemoveRest(p, id, Some(s));
    LeavingStep(p, s, ids);
  }

  lemma {:induction false} RemoveAllKeeps(p: Page, s: Target, ids: seq<nat>)
    requires Aborting(p, s, ids)
    ensures Valid(RemoveAll(p, ids)) && Grows(p, RemoveAll(p, ids))
    ensures forall id: nat :: Listed(RemoveAll(p, ids), id) <==> Listed(p, id) && p.objs[id].signal != Some(s)
    decreases |ids|
  {
    if ids != [] {
      AbortingStep(p, s, ids);
      var p' := RemoveObj(p, ids[0]);
      RemoveLeaves(p, ids[0]);
      assert ids[0] in ids;
      RemoveAllKeeps(p', s, ids[1..]);
      GrowsFurther(p, p', RemoveAll(p, ids));
    }
  }

  lemma {:induction false} AbortStarts(p: Page, s: Target)
    requires Valid(p)
    ensures Aborting(p.(aborted := p.aborted + {s}, algos := p.algos - {s}), s, AlgosOf(p, s))
  {
    var q := p.(aborted := p.aborted + {s}, algos := p.algos - {s});
    forall x: nat ensures Listed(q, x) == Listed(p, x) {}
    forall k: Key ensures ListOf(q, k) == ListOf(p, k) {}
    forall t: Target, x: nat ensures (Goes(q, t, x) <==> t != s && Goes(p, t, x)) && Owned(q, t, x) == Owned(p, t, x) {}
    forall x: nat ensures x in AlgosOf(p, s) <==> Goes(p, s, x) {}
  }

  /** Aborting removes exactly the listeners that go with the signal. */
  lemma {:induction false} AbortKeeps(p: Page, s: Target)
    requires Valid(p)
    ensures Valid(AbortListeners(p, s)) && Grows(p, AbortListeners(p, s))
    ensures forall id: nat :: Listed(AbortListeners(p, s), id) <==> Listed(p, id) && p.objs[id].signal != Some(s)
  {
    var q := p.(aborted := p.aborted + {s}, algos := p.algos - {s});
    AbortStarts(p, s);
    RemoveAllKeeps(q, s, AlgosOf(p, s));
    forall x: nat ensures Listed(q, x) == Listed(p, x) {}
    assert Grows(p, q);
    GrowsFurther(p, q, AbortListeners(p, s));
  }
}
