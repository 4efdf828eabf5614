/** What the steps of a callback do to the page, one by one, and which handlers a dispatch finds. */
module EventActions {
  import opened Options
  import opened EventStore
  import opened EventDispatch
  import opened EventSafety

  // ----- listeners

  /** A listener that was added by a script for this target, type, callback and phase. */
  predicate IsFor(l: Listener, t: Target, kind: string, callback: nat, capture: bool) {
    l.target == t && l.kind == kind && !l.handler && l.callback == callback && l.capture == capture
  }

  ghost predicate HasFor(p: Page, t: Target, kind: string, callback: nat, capture: bool) {
    exists id: nat :: Listed(p, id) && IsFor(p.objs[id], t, kind, callback, capture)
  }

  /** `addEventListener` does nothing when the signal has been aborted or there is such a listener, and otherwise
      makes one with the options that were given. */
  lemma {:induction false} AddDoes(w: World, p: Page, t: Target, kind: string, callback: nat, capture: bool, once: bool,
      passive: bool, signal: Option<Target>)
    requires Fine(p)
    ensures var q := Act(w, p, DoAdd(t, kind, callback, capture, once, passive, signal));
      if (signal.Some? && signal.value in p.aborted) || HasFor(p, t, kind, callback, capture) then q == p
      else
        && |q.objs| == |p.objs| + 1 && q.objs[..|p.objs|] == p.objs && Listed(q, |p.objs|)
        && q.events == p.events && q.log == p.log
        && var l := q.objs[|p.objs|];
          IsFor(l, t, kind, callback, capture) && l.once == once && l.passive == passive && l.signal == signal
  {
    var l := Listener(t, kind, callback, capture, once, passive, false, signal, false);
    AddedIsThere(p, l, KeyOf(l));
    SameFor(p, l);
    if !Refused(p, l) && !There(p, l) { AddedLast(p, l); }
  }

  lemma {:induction false} SameFor(p: Page, l: Listener)
    requires !l.handler
    ensures There(p, l) <==> HasFor(p, l.target, l.kind, l.callback, l.capture)
  {
    forall id: nat | Listed(p, id)
      ensures SameListener(p.objs[id], l) <==> IsFor(p.objs[id], l.target, l.kind, l.callback, l.capture) {}
  }

  lemma {:induction false} AddedLast(p: Page, l: Listener)
    requires Valid(p) && !l.removed && !l.handler && !Refused(p, l) && !There(p, l)
    ensures var q := AddListener(p, l);
      q.objs == p.objs + [l] && q.events == p.events && q.log == p.log
  {
    AddedIsThere(p, l, KeyOf(l));
  }

  /** `removeEventListener` takes away exactly the listener for this target, type, callback and phase. */
  lemma {:induction false} RemoveDoes(w: World, p: Page, t: Target, kind: string, callback: nat, capture: bool, id: nat)
    requires Fine(p)
    ensures var q := Act(w, p, DoRemove(t, kind, callback, capture));
      && q.events == p.events
      && (Listed(q, id) <==> Listed(p, id) && !IsFor(p.objs[id], t, kind, callback, capture))
  {
    RemoveListenerKeeps(p, (t, kind), callback, capture);
    if Listed(p, id) {
      if KeyOf(p.objs[id]) == (t, kind) {
        RemoveListenerRemoves(p, (t, kind), callback, capture, id);
      } else {
        var m := FirstMatch(p, ListOf(p, (t, kind)), callback, capture);
        if m.Some? {
          InList(p, (t, kind), m.value);
          RemoveLeaves(p, m.value);
        }
      }
    }
  }

  // ----- handlers

  /** The handler of this target and type has a listener: it is called in the target and bubble phase, every
      time, and may cancel. */
  ghost predicate HandlerAt(p: Page, t: Target, kind: string, id: nat) {
    && Listed(p, id) && p.objs[id].handler && p.objs[id].target == t && p.objs[id].kind == kind
    && IsPlain(p.objs[id])
  }

  lemma {:induction false} SetDoes(w: World, p: Page, t: Target, kind: string)
    requires Fine(p)
    ensures exists id :: HandlerAt(Act(w, p, DoSetHandler(t, kind)), t, kind, id)
  {
    var k: Key := (t, kind);
    var p' := Discover(w, p, k);
    DiscoverKeeps(w, p, k);
    ActivatedIsThere(p', k, false, k);
    var q := Act(w, p, DoSetHandler(t, kind));
    InList(q, k, q.handlers[k].value);
    assert HandlerAt(q, t, kind, q.handlers[k].value);
  }

  lemma {:induction false} UnsetDoes(w: World, p: Page, t: Target, kind: string, id: nat)
    requires Fine(p)
    ensures !HandlerAt(Act(w, p, DoUnsetHandler(t, kind)), t, kind, id)
  {
    var k: Key := (t, kind);
    DiscoverKeeps(w, p, k);
    DeactivatedIsGone(Discover(w, p, k), k, id);
  }

  /** A handler that an attribute sets and nobody looked at is there when an event of its type is dispatched to its
      target or to one that has it as an ancestor, in front of the listeners added by scripts. */
  lemma {:induction false} AttributeFound(w: World, p: Page, t: Target, e: nat, x: Target)
    requires Fine(p) && e < |p.events| && !p.events[e].flags.dispatch && x in PathOf(w, t)
    requires w.inline((x, p.events[e].kind)) && (x, p.events[e].kind) !in p.handlers
    ensures var q, k := Started(w, p, t, e), (x, p.events[e].kind);
      ListOf(q, k) != [] && HandlerAt(q, x, p.events[e].kind, ListOf(q, k)[0]) && ListOf(q, k)[1..] == ListOf(p, k)
  {
    var ev := p.events[e];
    var p' := WithEvent(p, e, ev.(flags := ev.flags.(dispatch := true), target := Some(t)));
    OnlyEvents(p, p');
    DiscoveredOnPath(w, p', PathOf(w, t), ev.kind, x);
  }

  ghost predicate FoundFirst(p: Page, q: Page, x: Target, kind: string) {
    && (x, kind) in q.handlers && ListOf(q, (x, kind)) != [] && HandlerAt(q, x, kind, ListOf(q, (x, kind))[0])
    && ListOf(q, (x, kind))[1..] == ListOf(p, (x, kind))
  }

  lemma {:induction false} DiscoveredOnPath(w: World, p: Page, path: seq<Target>, kind: string, x: Target)
    requires Valid(p) && x in path && w.inline((x, kind)) && (x, kind) !in p.handlers
    ensures FoundFirst(p, DiscoverAll(w, p, path, kind), x, kind)
    decreases |path|
  {
    var k: Key := (path[0], kind);
    var q := Discover(w, p, k);
    DiscoverOne(w, p, k);
    if path[0] == x {
      StaysFirst(w, p, q, path[1..], kind, x);
    } else {
      DiscoveredOnPath(w, q, path[1..], kind, x);
    }
  }

  /** One target: its handler is found if there is one, and nothing else changes. */
  lemma {:induction false} DiscoverOne(w: World, p: Page, k: Key)
    requires Valid(p)
    ensures var q := Discover(w, p, k);
      && Valid(q) && Grows(p, q)
      && (forall k' :: k' != k ==> ListOf(q, k') == ListOf(p, k') && (k' in q.handlers <==> k' in p.handlers))
      && (w.inline(k) && k !in p.handlers ==> FoundFirst(p, q, k.0, k.1))
      && (k in p.handlers ==> q == p)
  {
    var q := Discover(w, p, k);
    if k !in p.handlers && w.inline(k) {
      ActivatedIsThere(p, k, true, k);
      forall k': Key ensures k' != k ==> ListOf(q, k') == ListOf(p, k') { ActivatedIsThere(p, k, true, k'); }
      InList(q, k, |p.objs|);
    } else {
      GrowsSelf(p);
    }
  }

  lemma {:induction false} GrowsSelf(p: Page)
    ensures Grows(p, p)
  {
    forall id | 0 <= id < |p.objs| ensures p.objs[id] == p.objs[id].(removed := p.objs[id].removed) {}
  }

  lemma {:induction false} StaysFirst(w: World, p: Page, q: Page, path: seq<Target>, kind: string, x: Target)
    requires Valid(q) && FoundFirst(p, q, x, kind)
    ensures FoundFirst(p, DiscoverAll(w, q, path, kind), x, kind)
    decreases |path|
  {
    if path != [] {
      var k: Key := (path[0], kind);
      DiscoverOne(w, q, k);
      var r, first := Discover(w, q, k), ListOf(q, (x, kind))[0];
      assert ListOf(r, (x, kind)) == ListOf(q, (x, kind));
      InList(r, (x, kind), first);
      StaysFirst(w, p, r, path[1..], kind, x);
    }
  }

  // ----- events and signals

  predicate IsNew(ev: Event, kind: string, bubbles: bool, cancelable: bool) {
    && ev.kind == kind && ev.bubbles == bubbles && ev.cancelable == cancelable && ev.phase == NoPhase
    && ev.target == None && ev.current == None && !ev.flags.canceled && !ev.flags.dispatch && !ev.flags.passive
    && !ev.flags.stop && !ev.flags.stopImmediate && !ev.flags.threw
  }

  lemma {:induction false} NewDoes(w: World, p: Page, kind: string, bubbles: bool, cancelable: bool)
    ensures var q := Act(w, p, DoNew(kind, bubbles, cancelable));
      && q == p.(events := q.events) && |q.events| == |p.events| + 1 && q.events[..|p.events|] == p.events
      && IsNew(q.events[|p.events|], kind, bubbles, cancelable)
  {
  }

  /** Aborting a signal takes its listeners away and no others, for good, and makes the event for it, which
      neither bubbles nor can be canceled. */
  lemma {:induction false} AbortDoes(p: Page, s: Target, id: nat)
    requires Fine(p)
    ensures var q := Abort(p, s);
      && (Listed(q, id) <==> Listed(p, id) && p.objs[id].signal != Some(s)) && s in q.aborted
      && |q.events| == |p.events| + 1 && q.events[..|p.events|] == p.events
      && IsNew(q.events[|p.events|], "abort", false, false)
  {
    AbortKeeps(p, s);
    AbortedStays(p.(aborted := p.aborted + {s}, algos := p.algos - {s}), AlgosOf(p, s));
  }

  lemma {:induction false} AbortedStays(p: Page, ids: seq<nat>)
    ensures RemoveAll(p, ids).aborted == p.aborted
    decreases |ids|
  {
    if ids != [] { AbortedStays(if ids[0] < |p.objs| then RemoveObj(p, ids[0]) else p, ids[1..]); }
  }
}
