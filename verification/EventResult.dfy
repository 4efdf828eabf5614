/** What a dispatch reports, when the callbacks only stop, cancel or throw. */
module EventResult {
  import opened Options
  import opened EventStore
  import opened EventDispatch
  import opened EventSafety
  import opened EventTrace

  datatype Outcome = Canceled | Stopped | Threw

  predicate Marked(f: Flags, o: Outcome) {
    match o case Canceled => f.canceled case Stopped => f.stop case Threw => f.threw
  }

  predicate Reports(r: Result, o: Outcome) {
    match o case Canceled => r.canceled case Stopped => r.stopped case Threw => r.threw
  }

  predicate Causes(a: Action, e: nat, o: Outcome) {
    match o
    case Canceled => a == DoPrevent(e)
    case Stopped => a == DoStop(e) || a == DoStopImmediate(e)
    case Threw => a == DoThrow
  }

  /** A callback gets to a step of that kind: it does not throw before. */
  ghost predicate Reaches(acts: seq<Action>, e: nat, o: Outcome) {
    exists i :: ReachesAt(acts, i, e, o)
  }

  predicate ReachesAt(acts: seq<Action>, i: int, e: nat, o: Outcome) {
    0 <= i < |acts| && Causes(acts[i], e, o) && forall j :: 0 <= j < i ==> acts[j] != DoThrow
  }

  /** Entry `k` of the log is a call whose callback does that; one of a passive listener cannot cancel. */
  ghost predicate CallThat(w: World, objs: seq<Listener>, log: seq<Entry>, k: int, e: nat, o: Outcome) {
    && 0 <= k < |log| && log[k].Called? && log[k].l < |objs|
    && (o.Canceled? ==> !objs[log[k].l].passive)
    && Began(objs[log[k].l], k) >= 0 && Reaches(w.behave(log[k].l, Began(objs[log[k].l], k)), e, o)
  }

  /** The length of the log when a call was begun: a listener that is called only once is removed first. */
  function Began(l: Listener, k: int): int {
    if l.once then k - 1 else k
  }

  ghost predicate SomeCall(w: World, objs: seq<Listener>, log: seq<Entry>, from: nat, e: nat, o: Outcome) {
    exists k :: from <= k && CallThat(w, objs, log, k, e, o)
  }

  /** `p` is `q` some calls later, between two calls. */
  ghost predicate Between(q: Page, p: Page, e: nat) {
    Later(q, p, e) && p.events[e].cancelable == q.events[e].cancelable && !FlagsOf(p, e).passive
  }

  /** From `p` to `r` an outcome was marked just when it was before or one of the calls caused it. */
  ghost predicate Adds(w: World, q: Page, p: Page, r: Page, e: nat, o: Outcome)
    requires e < |q.events| && e < |p.events| && e < |r.events|
  {
    && p.log <= r.log
    && (Marked(FlagsOf(r, e), o) <==>
      Marked(FlagsOf(p, e), o)
      || ((o.Canceled? ==> q.events[e].cancelable) && SomeCall(w, q.objs, r.log, |p.log|, e, o)))
  }

  // ----- one callback

  lemma {:induction false} ReachesFirst(acts: seq<Action>, e: nat, o: Outcome)
    requires acts != []
    ensures Reaches(acts, e, o) <==> Causes(acts[0], e, o) || (acts[0] != DoThrow && Reaches(acts[1..], e, o))
  {
    if Causes(acts[0], e, o) { assert ReachesAt(acts, 0, e, o); }
    if acts[0] != DoThrow && Reaches(acts[1..], e, o) {
      var i :| ReachesAt(acts[1..], i, e, o);
      assert ReachesAt(acts, i + 1, e, o);
    }
    if Reaches(acts, e, o) && !Causes(acts[0], e, o) {
      var i :| ReachesAt(acts, i, e, o);
      assert acts[0] != DoThrow && ReachesAt(acts[1..], i - 1, e, o);
    }
  }

  predicate CanCancel(ev: Event) {
    ev.cancelable && !ev.flags.passive
  }

  /** What one step does to what will be reported. */
  lemma {:induction false} ActMarks(w: World, p: Page, e: nat, a: Action, o: Outcome)
    requires e < |p.events| && (a == DoStop(e) || a == DoStopImmediate(e) || a == DoPrevent(e))
    ensures var q := Act(w, p, a);
      && OnlyFlags(p, q, e) && FlagsOf(q, e).passive == FlagsOf(p, e).passive
      && (Marked(FlagsOf(q, e), o) <==>
        Marked(FlagsOf(p, e), o) || (Causes(a, e, o) && (o.Canceled? ==> CanCancel(p.events[e]))))
  {
  }

  lemma {:induction false} ScriptMarks(w: World, depth: nat, p: Page, e: nat, acts: seq<Action>, o: Outcome)
    requires e < |p.events| && QuietActs(acts, e)
    ensures var r := Script(w, depth, p, acts);
      && OnlyFlags(p, r.0, e) && FlagsOf(r.0, e).passive == FlagsOf(p, e).passive
      && (if o.Threw? then r.1 == Reaches(acts, e, o) && FlagsOf(r.0, e).threw == FlagsOf(p, e).threw
        else
          Marked(FlagsOf(r.0, e), o) <==>
          Marked(FlagsOf(p, e), o) || (Reaches(acts, e, o) && (o.Canceled? ==> CanCancel(p.events[e]))))
    decreases |acts|
  {
    if acts != [] {
      ReachesFirst(acts, e, o);
      if acts[0] != DoThrow {
        assert QuietActs(acts[1..], e);
        var q := Act(w, p, acts[0]);
        ActMarks(w, p, e, acts[0], o);
        ScriptMarks(w, depth, q, e, acts[1..], o);
        assert Script(w, depth, p, acts) == Script(w, depth, q, acts[1..]);
      }
    }
  }

  // ----- one call

  /** The call of `l` marks what its callback causes. */
  lemma {:induction false} CallMarks(w: World, depth: nat, p: Page, e: nat, l: nat, v: Visit, o: Outcome)
    requires Quiet(w, e) && e < |p.events| && l < |p.objs| && !FlagsOf(p, e).passive
    ensures var r := Call(w, depth, p, e, l, v.current, v.phase);
      && e < |r.events| && r.events[e].cancelable == p.events[e].cancelable && !FlagsOf(r, e).passive
      && (Marked(FlagsOf(r, e), o) <==>
        Marked(FlagsOf(p, e), o)
        || (Reaches(w.behave(l, |p.log|), e, o) && (o.Canceled? ==> p.events[e].cancelable && !p.objs[l].passive)))
  {
    var acts := w.behave(l, |p.log|);
    assert QuietActs(acts, e);
    ScriptMarks(w, depth, Calling(p, e, l, v.current, v.phase), e, acts, o);
  }

  lemma {:induction false} CallIsLogged(w: World, q: Page, p: Page, r: Page, e: nat, l: nat, v: Visit, o: Outcome)
    requires |p.objs| == |q.objs| && l < |p.objs| && p.objs[l] == q.objs[l].(removed := p.objs[l].removed)
    requires r.log == p.log + CallEntries(q, e, l, v)
    ensures SomeCall(w, q.objs, r.log, |p.log|, e, o) <==>
      Reaches(w.behave(l, |p.log|), e, o) && (o.Canceled? ==> !q.objs[l].passive)
  {
    var last := |r.log| - 1;
    assert r.log[last] == Called(l, e, v.current, v.phase) && Began(q.objs[l], last) == |p.log|;
    assert forall k :: |p.log| <= k < last ==> r.log[k] == Removed(l);
    if Reaches(w.behave(l, |p.log|), e, o) && (o.Canceled? ==> !q.objs[l].passive) {
      assert CallThat(w, q.objs, r.log, last, e, o);
    }
  }

  lemma {:induction false} CallAdds(w: World, depth: nat, q: Page, p: Page, e: nat, l: nat, v: Visit, o: Outcome)
    requires Quiet(w, e) && Between(q, p, e) && Listed(p, l)
    ensures var r := Call(w, depth, p, e, l, v.current, v.phase); Between(q, r, e) && Adds(w, q, p, r, e, o)
  {
    var r := Call(w, depth, p, e, l, v.current, v.phase);
    QuietCall(w, depth, q, p, e, l, v);
    CallMarks(w, depth, p, e, l, v, o);
    CallIsLogged(w, q, p, r, e, l, v, o);
  }

  // ----- one after the other

  lemma {:induction false} AddsNothing(w: World, q: Page, p: Page, r: Page, e: nat, o: Outcome)
    requires e < |q.events| && e < |p.events| && e < |r.events| && r.log == p.log && FlagsOf(r, e) == FlagsOf(p, e)
    ensures Adds(w, q, p, r, e, o)
  {
  }

  lemma {:induction false} AddsFurther(w: World, q: Page, p: Page, r: Page, t: Page, e: nat, o: Outcome)
    requires e < |q.events| && e < |p.events| && e < |r.events| && e < |t.events|
    requires Adds(w, q, p, r, e, o) && Adds(w, q, r, t, e, o)
    ensures Adds(w, q, p, t, e, o)
  {
    forall k | 0 <= k < |r.log|
      ensures CallThat(w, q.objs, r.log, k, e, o) <==> CallThat(w, q.objs, t.log, k, e, o) {}
    if SomeCall(w, q.objs, r.log, |p.log|, e, o) {
      var k :| |p.log| <= k && CallThat(w, q.objs, r.log, k, e, o);
      assert CallThat(w, q.objs, t.log, k, e, o);
    }
    if SomeCall(w, q.objs, t.log, |p.log|, e, o) {
      var k :| |p.log| <= k && CallThat(w, q.objs, t.log, k, e, o);
      if k < |r.log| { assert CallThat(w, q.objs, r.log, k, e, o); }
    }
  }

  lemma {:induction false} InvokeAllAdds(w: World, depth: nat, q: Page, p: Page, e: nat, v: Visit, snapshot: seq<nat>,
      o: Outcome)
    requires Quiet(w, e) && Between(q, p, e)
    ensures var r := InvokeAll(w, depth, p, e, v.current, v.phase, v.capture, snapshot);
      Between(q, r, e) && Adds(w, q, p, r, e, o)
    decreases |snapshot|
  {
    AddsNothing(w, q, p, p, e, o);
    if snapshot != [] {
      var l := snapshot[0];
      if !(l < |p.objs|) || p.objs[l].removed || p.objs[l].capture != v.capture {
        InvokeAllAdds(w, depth, q, p, e, v, snapshot[1..], o);
      } else {
        var c := Call(w, depth, p, e, l, v.current, v.phase);
        CallAdds(w, depth, q, p, e, l, v, o);
        if !FlagsOf(c, e).stopImmediate {
          InvokeAllAdds(w, depth, q, c, e, v, snapshot[1..], o);
          AddsFurther(w, q, p, c, InvokeAll(w, depth, c, e, v.current, v.phase, v.capture, snapshot[1..]), e, o);
        }
      }
    }
  }

  lemma {:induction false} InvokeAdds(w: World, depth: nat, q: Page, p: Page, e: nat, v: Visit, o: Outcome)
    requires Quiet(w, e) && Between(q, p, e)
    ensures var r := Invoke(w, depth, p, e, v.current, v.phase, v.capture);
      Between(q, r, e) && Adds(w, q, p, r, e, o)
  {
    AddsNothing(w, q, p, p, e, o);
    var list := ListOf(p, (v.current, p.events[e].kind));
    if list != [] {
      var p' := WithEvent(p, e, p.events[e].(phase := v.phase, current := Some(v.current)));
      AddsNothing(w, q, p, p', e, o);
      InvokeAllAdds(w, depth, q, p', e, v, list, o);
      AddsFurther(w, q, p, p', InvokeAll(w, depth, p', e, v.current, v.phase, v.capture, list), e, o);
    }
  }

  lemma {:induction false} VisitsAdd(w: World, depth: nat, q: Page, p: Page, e: nat, visits: seq<Visit>, o: Outcome)
    requires Quiet(w, e) && Between(q, p, e)
    ensures var r := RunVisits(w, depth, p, e, visits); Between(q, r, e) && Adds(w, q, p, r, e, o)
    decreases |visits|
  {
    AddsNothing(w, q, p, p, e, o);
    if visits != [] && !FlagsOf(p, e).stop {
      var r := Invoke(w, depth, p, e, visits[0].current, visits[0].phase, visits[0].capture);
      InvokeAdds(w, depth, q, p, e, visits[0], o);
      VisitsAdd(w, depth, q, r, e, visits[1..], o);
      AddsFurther(w, q, p, r, RunVisits(w, depth, r, e, visits[1..]), e, o);
    }
  }

  /** What a dispatch reports: canceled, stopped or a listener threw just when that was marked before or the
      callback of a listener that was called says so; `preventDefault` counts for a cancelable event and a
      listener that is not passive, and nothing counts that comes after a throw. */
  lemma {:induction false} QuietReports(w: World, depth: nat, p: Page, t: Target, e: nat, o: Outcome)
    requires Fine(p) && e < |p.events| && !p.events[e].flags.dispatch && Quiet(w, e)
    ensures var r := Dispatch(w, depth, p, t, e);
      Reports(r, o) <==>
      Marked(p.events[e].flags, o)
      || ((o.Canceled? ==> p.events[e].cancelable) && SomeCall(w, r.page.objs, r.page.log, |p.log|, e, o))
  {
    var q, path, ev := Started(w, p, t, e), PathOf(w, t), p.events[e];
    StartedKeeps(w, p, t, e);
    DiscoveryNotLogged(w, WithEvent(p, e, ev.(flags := ev.flags.(dispatch := true), target := Some(t))), path, ev.kind);
    RunKeepsBubbles(w, depth, q, e, path);
    VisitsAdd(w, depth, q, q, e, Visits(path, ev.bubbles), o);
    var r := Passes(w, depth, q, e, path);
    SameCalls(w, q, r, Dispatch(w, depth, p, t, e).page, e, |p.log|, o);
  }

  lemma {:induction false} SameCalls(w: World, q: Page, r: Page, f: Page, e: nat, from: nat, o: Outcome)
    requires Later(q, r, e) && f.objs == r.objs && f.log == r.log
    ensures SomeCall(w, q.objs, r.log, from, e, o) <==> SomeCall(w, f.objs, f.log, from, e, o)
  {
    forall k ensures CallThat(w, q.objs, r.log, k, e, o) <==> CallThat(w, f.objs, f.log, k, e, o) {}
  }
}
