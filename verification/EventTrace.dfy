/** Which listeners a dispatch calls, in which order, when the callbacks only stop, cancel or throw. */
module EventTrace {
  import opened Options
  import opened EventStore
  import opened EventDispatch
  import opened EventSafety

  /** A target that is reached, and whether its capturing or its other listeners are called there. */
  datatype Visit = Visit(current: Target, phase: Phase, capture: bool)

  function Down(path: seq<Target>, i: nat): seq<Visit>
    requires 1 <= i <= |path|
  {
    if i == 1 then [] else [Visit(path[i - 1], Capturing, true)] + Down(path, i - 1)
  }

  function Up(path: seq<Target>, i: nat): seq<Visit>
    requires 1 <= i <= |path|
    decreases |path| - i
  {
    if i == |path| then [] else [Visit(path[i], Bubbling, false)] + Up(path, i + 1)
  }

  function Target2(path: seq<Target>): seq<Visit>
    requires path != []
  {
    [Visit(path[0], AtTarget, true), Visit(path[0], AtTarget, false)]
  }

  /** Capture, target, bubble: section 2.9 of the DOM Standard. */
  function Visits(path: seq<Target>, bubbles: bool): seq<Visit>
    requires path != []
  {
    Down(path, |path|) + (Target2(path) + (if bubbles then Up(path, 1) else []))
  }

  // ----- the passes are the visits in turn

  function RunVisits(w: World, depth: nat, p: Page, e: nat, visits: seq<Visit>): (r: Page)
    requires e < |p.events|
    ensures |r.events| >= |p.events|
    decreases |visits|
  {
    if visits == [] || FlagsOf(p, e).stop then p
    else
      var p' := Invoke(w, depth, p, e, visits[0].current, visits[0].phase, visits[0].capture);
      RunVisits(w, depth, p', e, visits[1..])
  }

  lemma {:induction false} RunConcat(w: World, depth: nat, p: Page, e: nat, a: seq<Visit>, b: seq<Visit>)
    requires e < |p.events|
    ensures RunVisits(w, depth, p, e, a + b) == RunVisits(w, depth, RunVisits(w, depth, p, e, a), e, b)
    decreases |a|
  {
    if a == [] {
      assert a + b == b;
    } else if !FlagsOf(p, e).stop {
      assert (a + b)[1..] == a[1..] + b;
      RunConcat(w, depth, Invoke(w, depth, p, e, a[0].current, a[0].phase, a[0].capture), e, a[1..], b);
    }
  }

  lemma {:induction false} CaptureVisits(w: World, depth: nat, p: Page, e: nat, path: seq<Target>, i: nat)
    requires e < |p.events| && 1 <= i <= |path|
    ensures CapturePass(w, depth, p, e, path, i) == RunVisits(w, depth, p, e, Down(path, i))
    decreases i
  {
    if i > 1 && !FlagsOf(p, e).stop {
      CaptureVisits(w, depth, Invoke(w, depth, p, e, path[i - 1], Capturing, true), e, path, i - 1);
      assert Down(path, i)[1..] == Down(path, i - 1);
    }
  }

  lemma {:induction false} BubbleVisits(w: World, depth: nat, p: Page, e: nat, path: seq<Target>, i: nat)
    requires e < |p.events| && 1 <= i <= |path|
    ensures BubblePass(w, depth, p, e, path, i) == RunVisits(w, depth, p, e, Up(path, i))
    decreases |path| - i
  {
    if i < |path| && !FlagsOf(p, e).stop {
      BubbleVisits(w, depth, Invoke(w, depth, p, e, path[i], Bubbling, false), e, path, i + 1);
      assert Up(path, i)[1..] == Up(path, i + 1);
    }
  }

  lemma {:induction false} TargetVisits(w: World, depth: nat, p: Page, e: nat, path: seq<Target>)
    requires e < |p.events| && path != []
    ensures Unless(w, depth, Unless(w, depth, p, e, path[0], AtTarget, true), e, path[0], AtTarget, false)
      == RunVisits(w, depth, p, e, Target2(path))
  {
    var v := Target2(path);
    assert v[1..] == [v[1]] && v[1..][1..] == [];
    if !FlagsOf(p, e).stop {
      var q := Invoke(w, depth, p, e, path[0], AtTarget, true);
      assert RunVisits(w, depth, p, e, v) == RunVisits(w, depth, q, e, v[1..]);
      if !FlagsOf(q, e).stop {
        assert RunVisits(w, depth, q, e, v[1..]) ==
          RunVisits(w, depth, Invoke(w, depth, q, e, path[0], AtTarget, false), e, []);
      }
    }
  }

  // ----- quiet callbacks

  ghost predicate QuietActs(acts: seq<Action>, e: nat) {
    forall i :: 0 <= i < |acts| ==>
      acts[i] == DoStop(e) || acts[i] == DoStopImmediate(e) || acts[i] == DoPrevent(e) || acts[i].DoThrow?
  }

  ghost predicate Quiet(w: World, e: nat) {
    forall l, n :: QuietActs(w.behave(l, n), e)
  }

  datatype Stops = Stops(stop: bool, immediate: bool)

  function StopsIn(acts: seq<Action>): Stops {
    if acts == [] || acts[0].DoThrow? then Stops(false, false)
    else
      var r := StopsIn(acts[1..]);
      Stops(acts[0].DoStop? || acts[0].DoStopImmediate? || r.stop, acts[0].DoStopImmediate? || r.immediate)
  }

  /** Only the flags of event `e` may differ. */
  ghost predicate OnlyFlags(p: Page, q: Page, e: nat) {
    e < |p.events| && |q.events| == |p.events| && q == WithFlags(p, e, q.events[e].flags)
  }

  ghost predicate Raised(p: Page, q: Page, e: nat, s: Stops)
    requires e < |p.events| && e < |q.events|
  {
    && FlagsOf(q, e).stop == (FlagsOf(p, e).stop || s.stop)
    && FlagsOf(q, e).stopImmediate == (FlagsOf(p, e).stopImmediate || s.immediate)
  }

  lemma {:induction false} QuietAct(w: World, p: Page, e: nat, a: Action)
    requires e < |p.events| && (a == DoStop(e) || a == DoStopImmediate(e) || a == DoPrevent(e))
    ensures OnlyFlags(p, Act(w, p, a), e) && Raised(p, Act(w, p, a), e, Stops(!a.DoPrevent?, a.DoStopImmediate?))
  {
  }

  lemma {:induction false} FlagsFurther(p: Page, q: Page, r: Page, e: nat, s: Stops, t: Stops)
    requires OnlyFlags(p, q, e) && Raised(p, q, e, s) && OnlyFlags(q, r, e) && Raised(q, r, e, t)
    ensures OnlyFlags(p, r, e) && Raised(p, r, e, Stops(s.stop || t.stop, s.immediate || t.immediate))
  {
    assert r.events == p.events[e := p.events[e].(flags := r.events[e].flags)];
  }

  lemma {:induction false} QuietScript(w: World, depth: nat, p: Page, e: nat, acts: seq<Action>)
    requires e < |p.events| && QuietActs(acts, e)
    ensures OnlyFlags(p, Script(w, depth, p, acts).0, e) && Raised(p, Script(w, depth, p, acts).0, e, StopsIn(acts))
    decreases |acts|
  {
    if acts != [] && !acts[0].DoThrow? {
      assert QuietActs(acts[1..], e);
      var a, q := acts[0], Act(w, p, acts[0]);
      QuietAct(w, p, e, a);
      QuietScript(w, depth, q, e, acts[1..]);
      FlagsFurther(p, q, Script(w, depth, q, acts[1..]).0, e, Stops(!a.DoPrevent?, a.DoStopImmediate?),
        StopsIn(acts[1..]));
    }
  }

  // ----- what is called

  function Filter(p: Page, list: seq<nat>, capture: bool): seq<nat> {
    if list == [] then []
    else if list[0] < |p.objs| && p.objs[list[0]].capture == capture then [list[0]] + Filter(p, list[1..], capture)
    else Filter(p, list[1..], capture)
  }

  /** The listeners that are called at a visit, in the order they were added. */
  function Chosen(p: Page, kind: string, v: Visit): seq<nat> {
    Filter(p, ListOf(p, (v.current, kind)), v.capture)
  }

  function CallEntries(p: Page, e: nat, l: nat, v: Visit): seq<Entry> {
    (if l < |p.objs| && p.objs[l].once then [Removed(l)] else []) + [Called(l, e, v.current, v.phase)]
  }

  datatype Visited = Visited(log: seq<Entry>, stops: Stops)

  /** The calls at one visit, when the log has `n` entries: all that are chosen, up to the first that stops
      immediately. */
  function AtVisit(w: World, q: Page, e: nat, v: Visit, chosen: seq<nat>, n: nat): Visited {
    if chosen == [] then Visited([], Stops(false, false))
    else
      var mine, s := CallEntries(q, e, chosen[0], v), StopsIn(w.behave(chosen[0], n));
      if s.immediate then Visited(mine, s)
      else
        var r := AtVisit(w, q, e, v, chosen[1..], n + |mine|);
        Visited(mine + r.log, Stops(s.stop || r.stops.stop, r.stops.immediate))
  }

  /** The calls at one visit after the other, up to the first after which the event is stopped. */
  function Expected(w: World, q: Page, e: nat, kind: string, visits: seq<Visit>, n: nat): seq<Entry> {
    if visits == [] then []
    else
      var r := AtVisit(w, q, e, visits[0], Chosen(q, kind, visits[0]), n);
      if r.stops.stop then r.log else r.log + Expected(w, q, e, kind, visits[1..], n + |r.log|)
  }

  // ----- a dispatch calls what is expected

  /** `p` is `q` some calls later: the same listeners, of which some may have been removed, and the same event. */
  ghost predicate Later(q: Page, p: Page, e: nat) {
    && |p.objs| == |q.objs| && |p.events| == |q.events| && e < |p.events|
    && (forall l :: 0 <= l < |p.objs| ==> p.objs[l] == q.objs[l].(removed := p.objs[l].removed))
    && p.events[e].kind == q.events[e].kind && p.events[e].bubbles == q.events[e].bubbles
  }

  /** The listeners of these are all still there, each once. */
  ghost predicate There(p: Page, list: seq<nat>, k: Key) {
    NoDup(list) && forall i :: 0 <= i < |list| ==> Listed(p, list[i]) && KeyOf(p.objs[list[i]]) == k
  }

  /** Nothing but listener `l` left its list. */
  ghost predicate OnlyLeaves(p: Page, r: Page, l: nat, once: bool) {
    && |r.objs| == |p.objs| && l < |p.objs|
    && r.objs == (if once then RemoveObj(p, l) else p).objs && r.lists == (if once then RemoveObj(p, l) else p).lists
  }

  lemma {:induction false} CallingIs(q: Page, p: Page, e: nat, l: nat, v: Visit)
    requires Later(q, p, e) && Listed(p, l)
    ensures var c := Calling(p, e, l, v.current, v.phase);
      OnlyLeaves(p, c, l, p.objs[l].once) && c.log == p.log + CallEntries(q, e, l, v)
      && c.events == p.events[e := p.events[e].(flags := c.events[e].flags)] && Raised(p, c, e, Stops(false, false))
  {
  }

  lemma {:induction false} QuietCall(w: World, depth: nat, q: Page, p: Page, e: nat, l: nat, v: Visit)
    requires Quiet(w, e) && Later(q, p, e) && Listed(p, l)
    ensures var r := Call(w, depth, p, e, l, v.current, v.phase);
      OnlyLeaves(p, r, l, p.objs[l].once) && r.log == p.log + CallEntries(q, e, l, v) && |r.events| == |p.events|
    ensures var r := Call(w, depth, p, e, l, v.current, v.phase);
      && r.events[e].kind == p.events[e].kind && r.events[e].bubbles == p.events[e].bubbles
      && Raised(p, r, e, StopsIn(w.behave(l, |p.log|)))
  {
    var c, acts := Calling(p, e, l, v.current, v.phase), w.behave(l, |p.log|);
    assert QuietActs(acts, e);
    CallingIs(q, p, e, l, v);
    QuietScript(w, depth, c, e, acts);
    CalledIs(p, c, Script(w, depth, c, acts).0, e, p.objs[l].passive, Script(w, depth, c, acts).1, StopsIn(acts));
  }

  lemma {:induction false} CalledIs(p: Page, c: Page, s: Page, e: nat, passive: bool, threw: bool, stops: Stops)
    requires e < |p.events| == |c.events| && c.events == p.events[e := p.events[e].(flags := c.events[e].flags)]
    requires Raised(p, c, e, Stops(false, false))
    requires OnlyFlags(c, s, e) && Raised(c, s, e, stops)
    ensures var r := AfterCall(s, e, passive, threw);
      r == c.(events := r.events) && |r.events| == |p.events| && Raised(p, r, e, stops)
      && r.events[e].kind == p.events[e].kind && r.events[e].bubbles == p.events[e].bubbles
  {
  }

  lemma {:induction false} FilterWithout(p: Page, list: seq<nat>, l: nat, capture: bool)
    requires l < |p.objs| && p.objs[l].capture != capture
    ensures Filter(p, Without(list, l), capture) == Filter(p, list, capture)
  {
    if list != [] && list[0] != l { FilterWithout(p, list[1..], l, capture); }
  }

  lemma {:induction false} FilterSame(q: Page, p: Page, e: nat, list: seq<nat>, capture: bool)
    requires Later(q, p, e)
    ensures Filter(p, list, capture) == Filter(q, list, capture)
  {
    if list != [] { FilterSame(q, p, e, list[1..], capture); }
  }

  /** A call changes what is chosen at its own visit only. */
  lemma {:induction false} OthersChosen(p: Page, r: Page, l: nat, once: bool, kind: string, v: Visit, u: Visit)
    requires OnlyLeaves(p, r, l, once) && p.objs[l].target == v.current && p.objs[l].kind == kind
    requires p.objs[l].capture == v.capture
    requires Elsewhere(u, v)
    ensures Chosen(r, kind, u) == Chosen(p, kind, u)
  {
    var list := ListOf(p, (u.current, kind));
    SameFilter(p, r, ListOf(r, (u.current, kind)), u.capture);
    if once && u.current == v.current { FilterWithout(p, list, l, u.capture); }
  }

  lemma {:induction false} SameFilter(p: Page, r: Page, list: seq<nat>, capture: bool)
    requires |r.objs| == |p.objs| && forall l :: 0 <= l < |p.objs| ==> r.objs[l].capture == p.objs[l].capture
    ensures Filter(r, list, capture) == Filter(p, list, capture)
  {
    if list != [] { SameFilter(p, r, list[1..], capture); }
  }

  /** What the calls at visit `v` leave. */
  ghost predicate AfterVisit(q: Page, p: Page, r: Page, e: nat, kind: string, v: Visit, got: Visited) {
    && Later(q, p, e) && Later(q, r, e) && r.log == p.log + got.log && Raised(p, r, e, got.stops)
    && SameElsewhere(p, r, kind, v) && (ListsOk(p) ==> ListsOk(r))
  }

  ghost predicate SameElsewhere(p: Page, r: Page, kind: string, v: Visit) {
    forall u: Visit :: Elsewhere(u, v) ==> Chosen(r, kind, u) == Chosen(p, kind, u)
  }

  predicate Elsewhere(u: Visit, v: Visit) {
    u.current != v.current || u.capture != v.capture
  }

  lemma {:induction false} QuietVisit(w: World, depth: nat, q: Page, p: Page, e: nat, kind: string, v: Visit,
      snapshot: seq<nat>, n: nat, got: Visited)
    requires Quiet(w, e) && Later(q, p, e) && There(p, snapshot, (v.current, kind)) && !FlagsOf(p, e).stopImmediate
    requires n == |p.log| && got == AtVisit(w, q, e, v, Filter(q, snapshot, v.capture), n)
    ensures AfterVisit(q, p, InvokeAll(w, depth, p, e, v.current, v.phase, v.capture, snapshot), e, kind, v, got)
    decreases |snapshot|, 2
  {
    if snapshot == [] {
      assert p.log + [] == p.log;
    } else if p.objs[snapshot[0]].capture != v.capture {
      QuietVisit(w, depth, q, p, e, kind, v, snapshot[1..], n, got);
    } else {
      var first := Visited(CallEntries(q, e, snapshot[0], v), StopsIn(w.behave(snapshot[0], n)));
      FirstAtVisit(w, q, e, v, snapshot, n, first);
      QuietCalled(w, depth, q, p, e, kind, v, snapshot, first, n + |first.log|,
        AtVisit(w, q, e, v, Filter(q, snapshot[1..], v.capture), n + |first.log|));
    }
  }

  lemma {:induction false} QuietCalled(w: World, depth: nat, q: Page, p: Page, e: nat, kind: string, v: Visit,
      snapshot: seq<nat>, first: Visited, n: nat, rest: Visited)
    requires Quiet(w, e) && Later(q, p, e) && There(p, snapshot, (v.current, kind)) && !FlagsOf(p, e).stopImmediate
    requires snapshot != [] && p.objs[snapshot[0]].capture == v.capture
    requires first == Visited(CallEntries(q, e, snapshot[0], v), StopsIn(w.behave(snapshot[0], |p.log|)))
    requires n == |p.log| + |first.log| && rest == AtVisit(w, q, e, v, Filter(q, snapshot[1..], v.capture), n)
    ensures AfterVisit(q, p, InvokeAll(w, depth, p, e, v.current, v.phase, v.capture, snapshot), e, kind, v,
      Onward(first, rest))
    decreases |snapshot|, 1
  {
    var r := Call(w, depth, p, e, snapshot[0], v.current, v.phase);
    var t := InvokeAll(w, depth, p, e, v.current, v.phase, v.capture, snapshot);
    VisitOpens(w, depth, q, p, e, kind, v, snapshot, first, r, t);
    VisitGoesOn(w, depth, q, p, r, t, e, kind, v, snapshot[1..], first, n, rest);
  }

  /** From a call at a visit to the end of the visit. */
  lemma {:induction false} VisitGoesOn(w: World, depth: nat, q: Page, p: Page, r: Page, t: Page, e: nat, kind: string,
      v: Visit, more: seq<nat>, first: Visited, n: nat, rest: Visited)
    requires Quiet(w, e) && AfterVisit(q, p, r, e, kind, v, first) && There(r, more, (v.current, kind))
    requires !FlagsOf(p, e).stopImmediate
    requires n == |p.log| + |first.log| && rest == AtVisit(w, q, e, v, Filter(q, more, v.capture), n)
    requires t == if first.stops.immediate then r else InvokeAll(w, depth, r, e, v.current, v.phase, v.capture, more)
    ensures AfterVisit(q, p, t, e, kind, v, Onward(first, rest))
    decreases |more| + 1, 0
  {
    if !first.stops.immediate {
      QuietVisit(w, depth, q, r, e, kind, v, more, n, rest);
      VisitFurther(q, p, r, t, e, kind, v, first, rest);
    }
  }

  lemma {:induction false} FirstAtVisit(w: World, q: Page, e: nat, v: Visit, snapshot: seq<nat>, n: nat, first: Visited)
    requires snapshot != [] && snapshot[0] < |q.objs| && q.objs[snapshot[0]].capture == v.capture
    requires first == Visited(CallEntries(q, e, snapshot[0], v), StopsIn(w.behave(snapshot[0], n)))
    ensures AtVisit(w, q, e, v, Filter(q, snapshot, v.capture), n) ==
      Onward(first, AtVisit(w, q, e, v, Filter(q, snapshot[1..], v.capture), n + |first.log|))
  {
    var more := Filter(q, snapshot[1..], v.capture);
    assert ([snapshot[0]] + more)[1..] == more;
  }

  lemma {:induction false} FirstCall(w: World, depth: nat, q: Page, p: Page, e: nat, kind: string, v: Visit, l: nat)
    requires Quiet(w, e) && Later(q, p, e) && Listed(p, l) && KeyOf(p.objs[l]) == (v.current, kind)
    requires p.objs[l].capture == v.capture
    ensures AfterVisit(q, p, Call(w, depth, p, e, l, v.current, v.phase), e, kind, v,
      Visited(CallEntries(q, e, l, v), StopsIn(w.behave(l, |p.log|))))
    ensures OnlyLeaves(p, Call(w, depth, p, e, l, v.current, v.phase), l, p.objs[l].once)
  {
    var r := Call(w, depth, p, e, l, v.current, v.phase);
    QuietCall(w, depth, q, p, e, l, v);
    forall u: Visit | Elsewhere(u, v) ensures Chosen(r, kind, u) == Chosen(p, kind, u) {
      OthersChosen(p, r, l, p.objs[l].once, kind, v, u);
    }
    if ListsOk(p) { LeavesLists(p, r, l); }
  }

  lemma {:induction false} LeavesLists(p: Page, r: Page, l: nat)
    requires ListsOk(p) && l < |p.objs| && OnlyLeaves(p, r, l, p.objs[l].once)
    ensures ListsOk(r)
  {
    var q := if p.objs[l].once then RemoveObj(p, l) else p;
    RemoveLists(p, l);
    forall x: nat ensures Listed(r, x) == Listed(q, x) {}
    forall k: Key ensures ListOf(r, k) == ListOf(q, k) {}
  }

  lemma {:induction false} VisitFurther(q: Page, p: Page, r: Page, t: Page, e: nat, kind: string, v: Visit, a: Visited,
      b: Visited)
    requires AfterVisit(q, p, r, e, kind, v, a) && AfterVisit(q, r, t, e, kind, v, b) && !a.stops.immediate
    ensures AfterVisit(q, p, t, e, kind, v, Onward(a, b))
  {
    assert p.log + a.log + b.log == p.log + (a.log + b.log);
  }

  lemma {:induction false} StillThere(p: Page, r: Page, snapshot: seq<nat>, k: Key, once: bool)
    requires snapshot != [] && There(p, snapshot, k) && OnlyLeaves(p, r, snapshot[0], once)
    ensures There(r, snapshot[1..], k)
  {
    forall i | 0 <= i < |snapshot| - 1 ensures Listed(r, snapshot[1..][i]) && KeyOf(r.objs[snapshot[1..][i]]) == k {
      assert snapshot[1..][i] == snapshot[i + 1] != snapshot[0];
    }
  }

  function Onward(first: Visited, rest: Visited): Visited {
    if first.stops.immediate then first
    else Visited(first.log + rest.log, Stops(first.stops.stop || rest.stops.stop, rest.stops.immediate))
  }

  lemma {:induction false} InvokeFirst(w: World, depth: nat, p: Page, e: nat, v: Visit, snapshot: seq<nat>, r: Page)
    requires e < |p.events| && snapshot != [] && Listed(p, snapshot[0]) && p.objs[snapshot[0]].capture == v.capture
    requires r == Call(w, depth, p, e, snapshot[0], v.current, v.phase)
    ensures InvokeAll(w, depth, p, e, v.current, v.phase, v.capture, snapshot) ==
      if FlagsOf(r, e).stopImmediate then r else InvokeAll(w, depth, r, e, v.current, v.phase, v.capture, snapshot[1..])
  {
  }

  lemma {:induction false} FirstCalled(w: World, depth: nat, q: Page, p: Page, e: nat, kind: string, v: Visit,
      snapshot: seq<nat>, r: Page, first: Visited)
    requires Quiet(w, e) && Later(q, p, e) && There(p, snapshot, (v.current, kind)) && snapshot != []
    requires p.objs[snapshot[0]].capture == v.capture
    requires r == Call(w, depth, p, e, snapshot[0], v.current, v.phase)
    requires first == Visited(CallEntries(q, e, snapshot[0], v), StopsIn(w.behave(snapshot[0], |p.log|)))
    ensures Listed(p, snapshot[0]) && AfterVisit(q, p, r, e, kind, v, first)
    ensures There(r, snapshot[1..], (v.current, kind))
  {
    assert Listed(p, snapshot[0]) && KeyOf(p.objs[snapshot[0]]) == (v.current, kind);
    FirstCall(w, depth, q, p, e, kind, v, snapshot[0]);
    StillThere(p, r, snapshot, (v.current, kind), p.objs[snapshot[0]].once);
  }

  lemma {:induction false} VisitOpens(w: World, depth: nat, q: Page, p: Page, e: nat, kind: string, v: Visit,
      snapshot: seq<nat>, first: Visited, r: Page, t: Page)
    requires Quiet(w, e) && Later(q, p, e) && There(p, snapshot, (v.current, kind)) && !FlagsOf(p, e).stopImmediate
    requires snapshot != [] && p.objs[snapshot[0]].capture == v.capture
    requires first == Visited(CallEntries(q, e, snapshot[0], v), StopsIn(w.behave(snapshot[0], |p.log|)))
    requires r == Call(w, depth, p, e, snapshot[0], v.current, v.phase)
    requires t == InvokeAll(w, depth, p, e, v.current, v.phase, v.capture, snapshot)
    ensures AfterVisit(q, p, r, e, kind, v, first) && There(r, snapshot[1..], (v.current, kind))
    ensures t ==
      if first.stops.immediate then r else InvokeAll(w, depth, r, e, v.current, v.phase, v.capture, snapshot[1..])
  {
    FirstCalled(w, depth, q, p, e, kind, v, snapshot, r, first);
    InvokeFirst(w, depth, p, e, v, snapshot, r);
  }

  /** One visit of the dispatch. */
  lemma {:induction false} QuietInvoke(w: World, depth: nat, q: Page, p: Page, e: nat, kind: string, v: Visit)
    requires Quiet(w, e) && Later(q, p, e) && ListsOk(p) && !FlagsOf(p, e).stopImmediate && kind == q.events[e].kind
    requires Chosen(p, kind, v) == Chosen(q, kind, v)
    ensures AfterVisit(q, p, Invoke(w, depth, p, e, v.current, v.phase, v.capture), e, kind, v,
      AtVisit(w, q, e, v, Chosen(q, kind, v), |p.log|))
  {
    var list := ListOf(p, (v.current, kind));
    FilterSame(q, p, e, list, v.capture);
    if list == [] {
      assert p.log + [] == p.log;
    } else {
      var p' := WithEvent(p, e, p.events[e].(phase := v.phase, current := Some(v.current)));
      forall u: Visit ensures Chosen(p', kind, u) == Chosen(p, kind, u) {
        SameFilter(p, p', ListOf(p, (u.current, kind)), u.capture);
      }
      EventsDoNotMatter(p, p');
      AllThere(p', (v.current, kind));
      QuietVisit(w, depth, q, p', e, kind, v, list, |p.log|, AtVisit(w, q, e, v, Chosen(q, kind, v), |p.log|));
    }
  }

  lemma {:induction false} EventsDoNotMatter(p: Page, q: Page)
    requires ListsOk(p) && q == p.(events := q.events)
    ensures ListsOk(q)
  {
    forall x: nat ensures Listed(q, x) == Listed(p, x) {}
    forall k: Key ensures ListOf(q, k) == ListOf(p, k) {}
  }

  lemma {:induction false} AllThere(p: Page, k: Key)
    requires ListsOk(p)
    ensures There(p, ListOf(p, k), k)
  {
    forall i | 0 <= i < |ListOf(p, k)| ensures Listed(p, ListOf(p, k)[i]) && KeyOf(p.objs[ListOf(p, k)[i]]) == k {
      InList(p, k, ListOf(p, k)[i]);
    }
  }

  ghost predicate AllElsewhere(visits: seq<Visit>) {
    forall i, j :: 0 <= i < j < |visits| ==> Elsewhere(visits[j], visits[i])
  }

  ghost predicate NothingChosenYet(q: Page, p: Page, kind: string, visits: seq<Visit>) {
    forall i :: 0 <= i < |visits| ==> Chosen(p, kind, visits[i]) == Chosen(q, kind, visits[i])
  }

  lemma {:induction false} VisitsLeft(q: Page, p: Page, r: Page, e: nat, kind: string, visits: seq<Visit>, got: Visited)
    requires visits != [] && AllElsewhere(visits) && NothingChosenYet(q, p, kind, visits)
    requires AfterVisit(q, p, r, e, kind, visits[0], got)
    ensures AllElsewhere(visits[1..]) && NothingChosenYet(q, r, kind, visits[1..])
  {
    forall i | 0 <= i < |visits| - 1 ensures Chosen(r, kind, visits[1..][i]) == Chosen(q, kind, visits[1..][i]) {
      assert visits[1..][i] == visits[i + 1] && Elsewhere(visits[i + 1], visits[0]);
    }
  }

  lemma {:induction false} FirstVisit(w: World, depth: nat, q: Page, p: Page, e: nat, kind: string, visits: seq<Visit>,
      got: Visited)
    requires Quiet(w, e) && Later(q, p, e) && ListsOk(p) && kind == q.events[e].kind && visits != []
    requires NothingChosenYet(q, p, kind, visits)
    requires !FlagsOf(p, e).stopImmediate && got == AtVisit(w, q, e, visits[0], Chosen(q, kind, visits[0]), |p.log|)
    ensures AfterVisit(q, p, Invoke(w, depth, p, e, visits[0].current, visits[0].phase, visits[0].capture), e, kind,
      visits[0], got)
    ensures got.stops.immediate ==> got.stops.stop
  {
    assert Chosen(p, kind, visits[0]) == Chosen(q, kind, visits[0]);
    QuietInvoke(w, depth, q, p, e, kind, visits[0]);
    ImmediateStops(w, q, e, visits[0], Chosen(q, kind, visits[0]), |p.log|);
  }

  /** What is still to be logged. */
  ghost function Remaining(w: World, q: Page, p: Page, e: nat, kind: string, visits: seq<Visit>): seq<Entry>
    requires e < |p.events|
  {
    if FlagsOf(p, e).stop then [] else Expected(w, q, e, kind, visits, |p.log|)
  }

  lemma {:induction false} RemainingNext(w: World, q: Page, p: Page, r: Page, e: nat, kind: string, visits: seq<Visit>,
      got: Visited)
    requires visits != [] && e < |p.events| && e < |r.events| && !FlagsOf(p, e).stop
    requires FlagsOf(r, e).stop == got.stops.stop
    requires got == AtVisit(w, q, e, visits[0], Chosen(q, kind, visits[0]), |p.log|) && r.log == p.log + got.log
    ensures p.log + Remaining(w, q, p, e, kind, visits) == r.log + Remaining(w, q, r, e, kind, visits[1..])
  {
    RunLog(p.log, got.log, Remaining(w, q, r, e, kind, visits[1..]));
  }

  lemma {:induction false} QuietRun(w: World, depth: nat, q: Page, p: Page, e: nat, kind: string, visits: seq<Visit>)
    requires Quiet(w, e) && Later(q, p, e) && ListsOk(p) && kind == q.events[e].kind && AllElsewhere(visits)
    requires NothingChosenYet(q, p, kind, visits)
    requires FlagsOf(p, e).stopImmediate ==> FlagsOf(p, e).stop
    ensures RunVisits(w, depth, p, e, visits).log == p.log + Remaining(w, q, p, e, kind, visits)
    decreases |visits|
  {
    if visits == [] || FlagsOf(p, e).stop {
      assert p.log + [] == p.log;
    } else {
      var got := AtVisit(w, q, e, visits[0], Chosen(q, kind, visits[0]), |p.log|);
      var r := Invoke(w, depth, p, e, visits[0].current, visits[0].phase, visits[0].capture);
      FirstVisit(w, depth, q, p, e, kind, visits, got);
      VisitsLeft(q, p, r, e, kind, visits, got);
      QuietRun(w, depth, q, r, e, kind, visits[1..]);
      RemainingNext(w, q, p, r, e, kind, visits, got);
    }
  }

  lemma {:induction false} RunLog(a: seq<Entry>, b: seq<Entry>, c: seq<Entry>)
    ensures a + b + c == a + (b + c) && a + b + [] == a + b
  {
  }

  lemma {:induction false} ImmediateStops(w: World, q: Page, e: nat, v: Visit, chosen: seq<nat>, n: nat)
    ensures AtVisit(w, q, e, v, chosen, n).stops.immediate ==> AtVisit(w, q, e, v, chosen, n).stops.stop
    decreases |chosen|
  {
    if chosen != [] {
      ScriptStops(w.behave(chosen[0], n));
      ImmediateStops(w, q, e, v, chosen[1..], n + |CallEntries(q, e, chosen[0], v)|);
    }
  }

  lemma {:induction false} ScriptStops(acts: seq<Action>)
    ensures StopsIn(acts).immediate ==> StopsIn(acts).stop
  {
    if acts != [] { ScriptStops(acts[1..]); }
  }

  // ----- the whole dispatch

  lemma {:induction false} VisitsElsewhere(path: seq<Target>, bubbles: bool)
    requires path != [] && NoDup(path)
    ensures AllElsewhere(Visits(path, bubbles))
  {
    var visits := Visits(path, bubbles);
    DownIs(path, |path|);
    UpIs(path, 1);
    var n := |path|;
    forall i | 0 <= i < |visits| ensures
      visits[i] == if i < n - 1 then Visit(path[n - 1 - i], Capturing, true)
        else if i == n - 1 then Visit(path[0], AtTarget, true)
        else if i == n then Visit(path[0], AtTarget, false) else Visit(path[i - n], Bubbling, false)
    {
    }
  }

  lemma {:induction false} DownIs(path: seq<Target>, i: nat)
    requires 1 <= i <= |path|
    ensures |Down(path, i)| == i - 1 && forall k :: 0 <= k < i - 1 ==>
      Down(path, i)[k] == Visit(path[i - 1 - k], Capturing, true)
  {
    if i > 1 { DownIs(path, i - 1); }
  }

  lemma {:induction false} UpIs(path: seq<Target>, i: nat)
    requires 1 <= i <= |path|
    ensures |Up(path, i)| == |path| - i && forall k :: 0 <= k < |path| - i ==>
      Up(path, i)[k] == Visit(path[i + k], Bubbling, false)
    decreases |path| - i
  {
    if i < |path| { UpIs(path, i + 1); }
  }

  lemma {:induction false} RunKeepsBubbles(w: World, depth: nat, p: Page, e: nat, path: seq<Target>)
    requires Fine(p) && Busy(p, e) && path != []
    ensures Passes(w, depth, p, e, path) == RunVisits(w, depth, p, e, Visits(path, p.events[e].bubbles))
  {
    var p1 := CapturePass(w, depth, p, e, path, |path|);
    CapturePassKeeps(w, depth, p, e, path, |path|);
    assert Left(p, p1, Some(e), e);
    var p2 := Unless(w, depth, p1, e, path[0], AtTarget, true);
    UnlessKeeps(w, depth, p1, e, path[0], AtTarget, true);
    assert Left(p1, p2, Some(e), e);
    var p3 := Unless(w, depth, p2, e, path[0], AtTarget, false);
    UnlessKeeps(w, depth, p2, e, path[0], AtTarget, false);
    assert Left(p2, p3, Some(e), e);
    var up := if p.events[e].bubbles then Up(path, 1) else [];
    CaptureVisits(w, depth, p, e, path, |path|);
    TargetVisits(w, depth, p1, e, path);
    BubbleVisits(w, depth, p3, e, path, 1);
    RunConcat(w, depth, p1, e, Target2(path), up);
    RunConcat(w, depth, p, e, Down(path, |path|), Target2(path) + up);
  }

  lemma {:induction false} DiscoveryNotLogged(w: World, p: Page, path: seq<Target>, kind: string)
    ensures DiscoverAll(w, p, path, kind).log == p.log
    decreases |path|
  {
    if path != [] { DiscoveryNotLogged(w, Discover(w, p, (path[0], kind)), path[1..], kind); }
  }

  /** With callbacks that only stop, cancel or throw, a dispatch calls exactly the listeners that capture, target
      and bubble phase reach, cut where the stop flags say. */
  lemma {:induction false} QuietDispatch(w: World, depth: nat, p: Page, t: Target, e: nat)
    requires Fine(p) && e < |p.events| && !p.events[e].flags.dispatch && Quiet(w, e) && NoDup(PathOf(w, t))
    ensures var q := Started(w, p, t, e);
      Dispatch(w, depth, p, t, e).page.log ==
        p.log + Remaining(w, q, p, e, p.events[e].kind, Visits(PathOf(w, t), p.events[e].bubbles))
  {
    var q, path, ev := Started(w, p, t, e), PathOf(w, t), p.events[e];
    StartedKeeps(w, p, t, e);
    DiscoveryNotLogged(w, WithEvent(p, e, ev.(flags := ev.flags.(dispatch := true), target := Some(t))), path, ev.kind);
    RunKeepsBubbles(w, depth, q, e, path);
    VisitsElsewhere(path, ev.bubbles);
    QuietRun(w, depth, q, q, e, ev.kind, Visits(path, ev.bubbles));
  }

  // ----- nothing but the plan, in its order

  function VisitPlan(e: nat, v: Visit, chosen: seq<nat>): seq<Entry> {
    if chosen == [] then [] else [Called(chosen[0], e, v.current, v.phase)] + VisitPlan(e, v, chosen[1..])
  }

  function Plan(q: Page, e: nat, kind: string, visits: seq<Visit>): seq<Entry> {
    if visits == [] then [] else VisitPlan(e, visits[0], Chosen(q, kind, visits[0])) + Plan(q, e, kind, visits[1..])
  }

  function CallsIn(log: seq<Entry>): seq<Entry> {
    if log == [] then [] else if log[0].Called? then [log[0]] + CallsIn(log[1..]) else CallsIn(log[1..])
  }

  lemma {:induction false} CallsInConcat(a: seq<Entry>, b: seq<Entry>)
    ensures CallsIn(a + b) == CallsIn(a) + CallsIn(b)
  {
    if a == [] { assert a + b == b; } else { CallsInConcat(a[1..], b); assert (a + b)[1..] == a[1..] + b; }
  }

  ghost predicate NeverStops(w: World) {
    forall l, n :: !StopsIn(w.behave(l, n)).stop
  }

  lemma {:induction false} VisitCalls(w: World, q: Page, e: nat, v: Visit, chosen: seq<nat>, n: nat)
    ensures var r := AtVisit(w, q, e, v, chosen, n); CallsIn(r.log) <= VisitPlan(e, v, chosen)
    ensures var r := AtVisit(w, q, e, v, chosen, n);
      !r.stops.stop ==> CallsIn(r.log) == VisitPlan(e, v, chosen)
    ensures NeverStops(w) ==> !AtVisit(w, q, e, v, chosen, n).stops.stop
    decreases |chosen|
  {
    if chosen != [] {
      var mine, s := CallEntries(q, e, chosen[0], v), StopsIn(w.behave(chosen[0], n));
      ScriptStops(w.behave(chosen[0], n));
      var rest := AtVisit(w, q, e, v, chosen[1..], n + |mine|);
      VisitCalls(w, q, e, v, chosen[1..], n + |mine|);
      OwnCall(q, e, chosen[0], v);
      CallsInConcat(mine, rest.log);
    }
  }

  lemma {:induction false} OwnCall(q: Page, e: nat, l: nat, v: Visit)
    ensures CallsIn(CallEntries(q, e, l, v)) == [Called(l, e, v.current, v.phase)]
  {
    var c := [Called(l, e, v.current, v.phase)];
    assert c[1..] == [] && CallsIn(c) == c + CallsIn([]);
    if l < |q.objs| && q.objs[l].once {
      assert ([Removed(l)] + c)[1..] == c && CallsIn([Removed(l)] + c) == CallsIn(c);
    } else {
      assert [] + c == c;
    }
  }

  lemma {:induction false} PrefixGrows(a: seq<Entry>, b: seq<Entry>, c: seq<Entry>, d: seq<Entry>)
    requires a <= b && c <= d
    ensures a <= b + d && (a == b ==> a + c <= b + d)
  {
  }

  lemma {:induction false} FirstFollows(log: seq<Entry>, mine: seq<Entry>, more: seq<Entry>, plan: seq<Entry>,
      stopped: bool)
    requires CallsIn(log) <= mine && CallsIn(more) <= plan && (!stopped ==> CallsIn(log) == mine)
    ensures CallsIn(if stopped then log else log + more) <= mine + plan
  {
    CallsInConcat(log, more);
    PrefixGrows(CallsIn(log), mine, CallsIn(more), plan);
  }

  lemma {:induction false} FirstOf(w: World, q: Page, e: nat, kind: string, visits: seq<Visit>, n: nat, r: Visited,
      more: seq<Entry>)
    requires visits != [] && r == AtVisit(w, q, e, visits[0], Chosen(q, kind, visits[0]), n)
    requires more == Expected(w, q, e, kind, visits[1..], n + |r.log|)
    ensures Expected(w, q, e, kind, visits, n) == if r.stops.stop then r.log else r.log + more
  {
  }

  /** The calls are the first ones of the plan. */
  lemma {:induction false} CallsFollowPlan(w: World, q: Page, e: nat, kind: string, visits: seq<Visit>, n: nat)
    ensures CallsIn(Expected(w, q, e, kind, visits, n)) <= Plan(q, e, kind, visits)
    decreases |visits|
  {
    if visits != [] {
      var r := AtVisit(w, q, e, visits[0], Chosen(q, kind, visits[0]), n);
      var more := Expected(w, q, e, kind, visits[1..], n + |r.log|);
      VisitCalls(w, q, e, visits[0], Chosen(q, kind, visits[0]), n);
      CallsFollowPlan(w, q, e, kind, visits[1..], n + |r.log|);
      FirstOf(w, q, e, kind, visits, n, r, more);
      FirstFollows(r.log, VisitPlan(e, visits[0], Chosen(q, kind, visits[0])), more, Plan(q, e, kind, visits[1..]),
        r.stops.stop);
    }
  }

  /** When nobody stops the event they are all of it. */
  lemma {:induction false} CallsAreThePlan(w: World, q: Page, e: nat, kind: string, visits: seq<Visit>, n: nat)
    requires NeverStops(w)
    ensures CallsIn(Expected(w, q, e, kind, visits, n)) == Plan(q, e, kind, visits)
    decreases |visits|
  {
    if visits != [] {
      var r := AtVisit(w, q, e, visits[0], Chosen(q, kind, visits[0]), n);
      VisitCalls(w, q, e, visits[0], Chosen(q, kind, visits[0]), n);
      CallsAreThePlan(w, q, e, kind, visits[1..], n + |r.log|);
      CallsInConcat(r.log, Expected(w, q, e, kind, visits[1..], n + |r.log|));
    }
  }
}
