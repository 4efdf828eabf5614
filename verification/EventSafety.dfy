/** What no callback can break, however deep dispatches are nested. */
module EventSafety {
  import opened Options
  import opened EventStore
  import opened EventDispatch

  /** What the callbacks of other dispatches leave of an event that is being dispatched: they can stop it, and
      cancel it unless a passive listener is running. */
  ghost predicate Undisturbed(a: Event, b: Event) {
    && b == a.(flags := b.flags)
    && b.flags == a.flags.(stop := b.flags.stop, stopImmediate := b.flags.stopImmediate, canceled := b.flags.canceled)
    && (a.flags.stop ==> b.flags.stop) && (a.flags.stopImmediate ==> b.flags.stopImmediate)
    && (a.flags.canceled ==> b.flags.canceled)
    && (b.flags.canceled && !a.flags.canceled ==> a.cancelable && !a.flags.passive)
  }

  /** What its own dispatch leaves of an event while it goes on. */
  ghost predicate Running(a: Event, b: Event) {
    && b == a.(flags := b.flags, phase := b.phase, current := b.current)
    && b.flags.dispatch == a.flags.dispatch && b.flags.passive == a.flags.passive
    && (a.flags.stop ==> b.flags.stop) && (a.flags.canceled ==> b.flags.canceled)
    && (b.flags.canceled && !a.flags.canceled ==> a.cancelable)
  }

  ghost predicate Left(p: Page, q: Page, aside: Option<nat>, f: nat)
    requires f < |p.events| <= |q.events|
  {
    if Some(f) == aside then Running(p.events[f], q.events[f]) else Undisturbed(p.events[f], q.events[f])
  }

  ghost predicate Steady(p: Page, q: Page, aside: Option<nat>) {
    && |p.events| <= |q.events|
    && forall f :: 0 <= f < |p.events| && p.events[f].flags.dispatch ==> Left(p, q, aside, f)
  }

  /** Only an event that is being dispatched can have a passive listener running; stopping immediately is stopping. */
  ghost predicate EventsOk(p: Page) {
    forall f :: 0 <= f < |p.events| ==> FlagsOk(p.events[f].flags)
  }

  ghost predicate FlagsOk(f: Flags) {
    (f.passive ==> f.dispatch) && (f.stopImmediate ==> f.stop)
  }

  ghost predicate Fine(p: Page) {
    Valid(p) && EventsOk(p)
  }

  ghost predicate Keeps(p: Page, q: Page, aside: Option<nat>) {
    Fine(q) && Grows(p, q) && Steady(p, q, aside)
  }

  lemma {:induction false} KeepsFurther(p: Page, q: Page, r: Page, aside: Option<nat>)
    requires Keeps(p, q, aside) && Keeps(q, r, aside)
    ensures Keeps(p, r, aside)
  {
    GrowsFurther(p, q, r);
    forall f | 0 <= f < |p.events| && p.events[f].flags.dispatch ensures Left(p, r, aside, f) {
      assert Left(p, q, aside, f) && Left(q, r, aside, f);
    }
  }

  lemma {:induction false} Lenient(p: Page, q: Page, e: nat)
    requires Keeps(p, q, None)
    ensures Keeps(p, q, Some(e))
  {
    forall f | 0 <= f < |p.events| && p.events[f].flags.dispatch ensures Left(p, q, Some(e), f) {
      assert Left(p, q, None, f);
    }
  }

  /** Pages that differ in their events only. */
  lemma {:induction false} OnlyEvents(p: Page, q: Page)
    requires Valid(p) && q == p.(events := q.events)
    ensures Valid(q) && Grows(p, q)
  {
    forall x: nat ensures Listed(q, x) == Listed(p, x) {}
    forall k: Key ensures ListOf(q, k) == ListOf(p, k) {}
    forall s: Target, x: nat ensures Goes(q, s, x) == Goes(p, s, x) && Owned(q, s, x) == Owned(p, s, x) {}
  }

  lemma {:induction false} SameEvents(p: Page, q: Page)
    requires Fine(p) && Valid(q) && Grows(p, q) && q.events == p.events
    ensures Keeps(p, q, None)
  {
  }

  lemma {:induction false} DiscoverKeeps(w: World, p: Page, k: Key)
    requires Fine(p)
    ensures Keeps(p, Discover(w, p, k), None)
  {
    if !(k in p.handlers || !w.inline(k)) { ActivateKeeps(p, k, true); }
    SameEvents(p, Discover(w, p, k));
  }

  lemma {:induction false} DiscoverAllKeeps(w: World, p: Page, path: seq<Target>, kind: string)
    requires Fine(p)
    ensures Keeps(p, DiscoverAll(w, p, path, kind), None)
    decreases |path|
  {
    if path == [] {
      KeepsSelf(p);
    } else {
      var q := Discover(w, p, (path[0], kind));
      DiscoverKeeps(w, p, (path[0], kind));
      DiscoverAllKeeps(w, q, path[1..], kind);
      KeepsFurther(p, q, DiscoverAll(w, p, path, kind), None);
    }
  }

  lemma {:induction false} ListenerActs(w: World, p: Page, a: Action)
    requires Fine(p) && (a.DoAdd? || a.DoRemove?)
    ensures Keeps(p, Act(w, p, a), None)
  {
    match a {
      case DoAdd(t, kind, callback, capture, once, passive, signal) =>
        AddKeeps(p, Listener(t, kind, callback, capture, once, passive, false, signal, false));
      case DoRemove(t, kind, callback, capture) => RemoveListenerKeeps(p, (t, kind), callback, capture);
    }
    SameEvents(p, Act(w, p, a));
  }

  lemma {:induction false} SetHandlerKeeps(p: Page, k: Key, on: bool)
    requires Fine(p)
    ensures Keeps(p, if on then Activate(p, k, false) else Deactivate(p, k), None)
  {
    if on { ActivateKeeps(p, k, false); } else { DeactivateKeeps(p, k); }
    SameEvents(p, if on then Activate(p, k, false) else Deactivate(p, k));
  }

  lemma {:induction false} HandlerActs(w: World, p: Page, k: Key, on: bool)
    requires Fine(p)
    ensures var q := Discover(w, p, k); Keeps(p, if on then Activate(q, k, false) else Deactivate(q, k), None)
  {
    var q := Discover(w, p, k);
    DiscoverKeeps(w, p, k);
    SetHandlerKeeps(q, k, on);
    KeepsFurther(p, q, if on then Activate(q, k, false) else Deactivate(q, k), None);
  }

  lemma {:induction false} EventActs(w: World, p: Page, a: Action)
    requires Fine(p)
    requires a.DoNew? || a.DoStop? || a.DoStopImmediate? || a.DoPrevent? || a.DoDispatch? || a.DoAbort? || a.DoThrow?
    ensures Keeps(p, Act(w, p, a), None)
  {
    match a {
      case DoStop(e) =>
        if e < |p.events| {
          EventChanged(p, e, p.events[e].(flags := FlagsOf(p, e).(stop := true)));
        } else {
          KeepsSelf(p);
        }
      case DoStopImmediate(e) =>
        if e < |p.events| {
          EventChanged(p, e, p.events[e].(flags := FlagsOf(p, e).(stop := true, stopImmediate := true)));
        } else {
          KeepsSelf(p);
        }
      case DoPrevent(e) => if e < |p.events| { EventChanged(p, e, Prevented(p.events[e])); } else { KeepsSelf(p); }
      case DoNew(_, _, _) => EventAdded(p, Act(w, p, a));
      case _ => KeepsSelf(p);
    }
  }

  lemma {:induction false} KeepsSelf(p: Page)
    requires Fine(p)
    ensures Keeps(p, p, None)
  {
  }

  lemma {:induction false} EventChanged(p: Page, e: nat, ev: Event)
    requires Fine(p) && e < |p.events| && Undisturbed(p.events[e], ev) && FlagsOk(ev.flags)
    ensures Keeps(p, WithEvent(p, e, ev), None)
  {
    OnlyEvents(p, WithEvent(p, e, ev));
  }

  lemma {:induction false} EventAdded(p: Page, q: Page)
    requires Fine(p) && q == p.(events := q.events) && |q.events| == |p.events| + 1 && p.events < q.events
    requires FlagsOk(q.events[|p.events|].flags)
    ensures Keeps(p, q, None)
  {
    OnlyEvents(p, q);
  }

  lemma {:induction false} ActKeeps(w: World, p: Page, a: Action)
    requires Fine(p)
    ensures Keeps(p, Act(w, p, a), None)
  {
    match a {
      case DoAdd(_, _, _, _, _, _, _) => ListenerActs(w, p, a);
      case DoRemove(_, _, _, _) => ListenerActs(w, p, a);
      case DoSetHandler(t, kind) => HandlerActs(w, p, (t, kind), true);
      case DoUnsetHandler(t, kind) => HandlerActs(w, p, (t, kind), false);
      case _ => EventActs(w, p, a);
    }
  }

  lemma {:induction false} AbortKeepsAll(p: Page, s: Target)
    requires Fine(p)
    ensures Keeps(p, Abort(p, s), None)
  {
    AbortKeeps(p, s);
    var q := AbortListeners(p, s);
    OnlyEvents(q, Abort(p, s));
    GrowsFurther(p, q, Abort(p, s));
  }

  // ----- one call

  /** A listener may be called now: it was not removed, or it has just been, to be called this once. */
  ghost predicate MayCall(p: Page, l: nat) {
    && l < |p.objs|
    && (forall i :: 0 <= i < |p.log| && p.log[i] == Removed(l) ==> i == |p.log| - 1 && p.objs[l].once)
    && (p.objs[l].once ==> p.objs[l].removed && forall i :: 0 <= i < |p.log| ==> !CallOf(p.log[i], l))
  }

  lemma {:induction false} CallAppended(p: Page, l: nat, c: Entry)
    requires LogOk(p) && MayCall(p, l) && CallOf(c, l)
    ensures LogOk(p.(log := p.log + [c]))
  {
    var r := p.(log := p.log + [c]);
    assert forall i :: 0 <= i < |p.log| ==> r.log[i] == p.log[i];
    assert forall x :: Removed(x) in r.log <==> Removed(x) in p.log;
    assert RemovalsLogged(r) && OnceGone(r);
    forall i, j | 0 <= i < j < |r.log| && r.log[i].Removed? && CallOf(r.log[j], r.log[i].l)
      ensures j == i + 1 && r.log[i].l < |r.objs| && r.objs[r.log[i].l].once
    {
      assert r.log[i] == p.log[i];
      if j < |p.log| { assert r.log[j] == p.log[j]; } else { assert p.log[i] == Removed(l); }
    }
    forall i, j | 0 <= i < j < |r.log| && r.log[i].Called? && CallOf(r.log[j], r.log[i].l)
      ensures r.log[i].l < |r.objs| && !r.objs[r.log[i].l].once
    {
      assert r.log[i] == p.log[i];
      if j < |p.log| { assert r.log[j] == p.log[j]; } else { assert CallOf(p.log[i], l); }
    }
  }

  lemma {:induction false} OnceMayBeCalled(p: Page, l: nat)
    requires LogOk(p) && Listed(p, l) && p.objs[l].once
    ensures MayCall(RemoveObj(p, l), l)
  {
    var q := RemoveObj(p, l);
    assert Removed(l) !in p.log;
    forall i | 0 <= i < |q.log| ensures !CallOf(q.log[i], l) && (q.log[i] == Removed(l) ==> i == |q.log| - 1) {
      assert i < |p.log| ==> q.log[i] == p.log[i] && p.log[i] in p.log;
    }
  }

  lemma {:induction false} CallLogged(p: Page, e: nat, l: nat, current: Target, phase: Phase)
    requires LogOk(p) && Listed(p, l)
    ensures var q := if p.objs[l].once then RemoveObj(p, l) else p;
      LogOk(q.(log := q.log + [Called(l, e, current, phase)]))
  {
    if p.objs[l].once {
      RemoveLog(p, l);
      OnceMayBeCalled(p, l);
      CallAppended(RemoveObj(p, l), l, Called(l, e, current, phase));
    } else {
      assert Removed(l) !in p.log;
      CallAppended(p, l, Called(l, e, current, phase));
    }
  }

  /** Pages that differ in their logs only. */
  lemma {:induction false} OnlyLog(p: Page, q: Page)
    requires Valid(p) && LogOk(q) && q == p.(log := q.log) && p.log <= q.log
    ensures Valid(q) && Grows(p, q)
  {
    forall x: nat ensures Listed(q, x) == Listed(p, x) {}
    forall k: Key ensures ListOf(q, k) == ListOf(p, k) {}
    forall s: Target, x: nat ensures Goes(q, s, x) == Goes(p, s, x) && Owned(q, s, x) == Owned(p, s, x) {}
  }

  ghost predicate Busy(p: Page, e: nat) {
    e < |p.events| && p.events[e].flags.dispatch && !p.events[e].flags.passive
  }

  lemma {:induction false} RemovedOnce(p: Page, l: nat)
    requires Valid(p) && Listed(p, l)
    ensures var q := if p.objs[l].once then RemoveObj(p, l) else p; Valid(q) && Grows(p, q) && q.events == p.events
  {
    if p.objs[l].once { RemoveKeeps(p, l); }
  }

  /** Up to the start of the callback: the listener's own event may now be passive. */
  lemma {:induction false} CallingKeeps(p: Page, e: nat, l: nat, current: Target, phase: Phase)
    requires Fine(p) && Busy(p, e) && Listed(p, l)
    ensures var r := Calling(p, e, l, current, phase); Fine(r) && Grows(p, r)
    ensures Calling(p, e, l, current, phase).events ==
      p.events[e := p.events[e].(flags := p.events[e].flags.(passive := p.objs[l].passive))]
  {
    var q := if p.objs[l].once then RemoveObj(p, l) else p;
    RemovedOnce(p, l);
    CallLogged(p, e, l, current, phase);
    var r := q.(log := q.log + [Called(l, e, current, phase)]);
    OnlyLog(q, r);
    GrowsFurther(p, q, r);
    OnlyEvents(r, Calling(p, e, l, current, phase));
    GrowsFurther(p, r, Calling(p, e, l, current, phase));
  }

  /** A call keeps everything; the event it is for goes on, and a passive listener cannot cancel it. */
  lemma {:induction false} CallKeeps(w: World, depth: nat, p: Page, e: nat, l: nat, current: Target, phase: Phase)
    requires Fine(p) && Busy(p, e) && Listed(p, l)
    ensures Keeps(p, Call(w, depth, p, e, l, current, phase), Some(e))
    ensures p.objs[l].passive ==> FlagsOf(Call(w, depth, p, e, l, current, phase), e).canceled == FlagsOf(p, e).canceled
    decreases depth, 1
  {
    var q := Calling(p, e, l, current, phase);
    CallingKeeps(p, e, l, current, phase);
    var acts := w.behave(l, |p.log|);
    ScriptKeeps(w, depth, q, acts);
    var s := Script(w, depth, q, acts);
    CallDone(p, q, s.0, e, p.objs[l].passive, s.1);
  }

  /** From before a call to after it, seen from each event. */
  lemma {:induction false} CallLeaves(p: Page, q: Page, s: Page, e: nat, passive: bool, threw: bool, f: nat)
    requires Busy(p, e) && Steady(q, s, None) && f < |p.events| && p.events[f].flags.dispatch
    requires q.events == p.events[e := p.events[e].(flags := p.events[e].flags.(passive := passive))]
    ensures Left(p, AfterCall(s, e, passive, threw), Some(e), f)
    ensures f == e && passive ==> FlagsOf(AfterCall(s, e, passive, threw), e).canceled == FlagsOf(p, e).canceled
  {
    assert Left(q, s, None, f);
  }

  lemma {:induction false} CallDone(p: Page, q: Page, s: Page, e: nat, passive: bool, threw: bool)
    requires Fine(p) && Busy(p, e) && Fine(q) && Grows(p, q) && Keeps(q, s, None)
    requires q.events == p.events[e := p.events[e].(flags := p.events[e].flags.(passive := passive))]
    ensures Keeps(p, AfterCall(s, e, passive, threw), Some(e))
    ensures passive ==> FlagsOf(AfterCall(s, e, passive, threw), e).canceled == FlagsOf(p, e).canceled
  {
    var r := AfterCall(s, e, passive, threw);
    OnlyEvents(s, r);
    GrowsFurther(p, q, s);
    GrowsFurther(p, s, r);
    CallLeaves(p, q, s, e, passive, threw, e);
    forall f | 0 <= f < |p.events| && p.events[f].flags.dispatch ensures Left(p, r, Some(e), f) {
      CallLeaves(p, q, s, e, passive, threw, f);
    }
  }

  // ----- callbacks and dispatches inside one another

  lemma {:induction false} ScriptKeeps(w: World, depth: nat, p: Page, acts: seq<Action>)
    requires Fine(p)
    ensures Keeps(p, Script(w, depth, p, acts).0, None)
    decreases depth, 0, 4 * |acts|
  {
    if acts == [] {
      KeepsSelf(p);
    } else {
      StepKeeps(w, depth, p, acts);
    }
  }

  lemma {:induction false} StepKeeps(w: World, depth: nat, p: Page, acts: seq<Action>)
    requires Fine(p) && acts != []
    ensures Keeps(p, Script(w, depth, p, acts).0, None)
    decreases depth, 0, 4 * |acts| - 1
  {
    KeepsSelf(p);
    match acts[0] {
      case DoThrow =>
      case DoDispatch(t, e, guarded) => DispatchStepKeeps(w, depth, p, acts, t, e);
      case DoAbort(s) => AbortStepKeeps(w, depth, p, acts, s);
      case a =>
        ActKeeps(w, p, a);
        ThenScript(w, depth, p, Act(w, p, a), acts);
    }
  }

  lemma {:induction false} DispatchStepKeeps(w: World, depth: nat, p: Page, acts: seq<Action>, t: Target, e: nat)
    requires Fine(p) && acts != [] && acts[0].DoDispatch? && acts[0].target == t && acts[0].event == e
    ensures Keeps(p, Script(w, depth, p, acts).0, None)
    decreases depth, 0, 4 * |acts| - 2
  {
    KeepsSelf(p);
    if e < |p.events| && depth > 0 && !FlagsOf(p, e).dispatch {
      var q := Dispatch(w, depth - 1, p, t, e).page;
      DispatchKeepsPage(w, depth - 1, p, t, e, q);
      ThenScript(w, depth, p, q, acts);
    } else if acts[0].guarded {
      ThenScript(w, depth, p, p, acts);
    }
  }

  lemma {:induction false} DispatchKeepsPage(w: World, depth: nat, p: Page, t: Target, e: nat, q: Page)
    requires Fine(p) && e < |p.events| && !p.events[e].flags.dispatch && q == Dispatch(w, depth, p, t, e).page
    ensures Keeps(p, q, None)
    decreases depth, 8
  {
    DispatchKeeps(w, depth, p, t, e);
  }

  lemma {:induction false} AbortStepKeeps(w: World, depth: nat, p: Page, acts: seq<Action>, s: Target)
    requires Fine(p) && acts != [] && acts[0] == DoAbort(s)
    ensures Keeps(p, Script(w, depth, p, acts).0, None)
    decreases depth, 0, 4 * |acts| - 2
  {
    if s in p.aborted {
      KeepsSelf(p);
      ThenScript(w, depth, p, p, acts);
    } else if depth == 0 {
      AbortKeepsAll(p, s);
    } else {
      var r := Dispatch(w, depth - 1, Abort(p, s), s, |p.events|).page;
      AbortedKeeps(w, depth - 1, p, s, r);
      ThenScript(w, depth, p, r, acts);
    }
  }

  lemma {:induction false} AbortedKeeps(w: World, depth: nat, p: Page, s: Target, r: Page)
    requires Fine(p) && r == Dispatch(w, depth, Abort(p, s), s, |p.events|).page
    ensures Keeps(p, r, None)
    decreases depth, 9
  {
    var q := Abort(p, s);
    AbortKeepsAll(p, s);
    DispatchKeepsPage(w, depth, q, s, |p.events|, r);
    KeepsFurther(p, q, r, None);
  }

  lemma {:induction false} ThenScript(w: World, depth: nat, p: Page, q: Page, acts: seq<Action>)
    requires Fine(p) && acts != [] && Keeps(p, q, None)
    ensures Keeps(p, Script(w, depth, q, acts[1..]).0, None)
    decreases depth, 0, 4 * |acts| - 3
  {
    ScriptKeeps(w, depth, q, acts[1..]);
    KeepsFurther(p, q, Script(w, depth, q, acts[1..]).0, None);
  }

  lemma {:induction false} InvokeAllKeeps(w: World, depth: nat, p: Page, e: nat, current: Target, phase: Phase,
      capture: bool, snapshot: seq<nat>)
    requires Fine(p) && Busy(p, e)
    ensures Keeps(p, InvokeAll(w, depth, p, e, current, phase, capture, snapshot), Some(e))
    decreases depth, 2, |snapshot|
  {
    KeepsSelf(p);
    Lenient(p, p, e);
    if snapshot != [] {
      var l := snapshot[0];
      if !(l < |p.objs|) || p.objs[l].removed || p.objs[l].capture != capture {
        InvokeAllKeeps(w, depth, p, e, current, phase, capture, snapshot[1..]);
      } else {
        CallKeeps(w, depth, p, e, l, current, phase);
        var q := Call(w, depth, p, e, l, current, phase);
        assert Left(p, q, Some(e), e);
        InvokeAllKeeps(w, depth, q, e, current, phase, capture, snapshot[1..]);
        KeepsFurther(p, q, InvokeAll(w, depth, q, e, current, phase, capture, snapshot[1..]), Some(e));
      }
    }
  }

  lemma {:induction false} InvokeKeeps(w: World, depth: nat, p: Page, e: nat, current: Target, phase: Phase,
      capture: bool)
    requires Fine(p) && Busy(p, e)
    ensures Keeps(p, Invoke(w, depth, p, e, current, phase, capture), Some(e))
    ensures Busy(Invoke(w, depth, p, e, current, phase, capture), e)
    decreases depth, 3
  {
    KeepsSelf(p);
    Lenient(p, p, e);
    var list := ListOf(p, (current, p.events[e].kind));
    if list != [] {
      var q := WithEvent(p, e, p.events[e].(phase := phase, current := Some(current)));
      OnlyEvents(p, q);
      assert Keeps(p, q, Some(e));
      InvokeAllKeeps(w, depth, q, e, current, phase, capture, list);
      KeepsFurther(p, q, Invoke(w, depth, p, e, current, phase, capture), Some(e));
    }
    assert Left(p, Invoke(w, depth, p, e, current, phase, capture), Some(e), e);
  }

  lemma {:induction false} UnlessKeeps(w: World, depth: nat, p: Page, e: nat, current: Target, phase: Phase,
      capture: bool)
    requires Fine(p) && Busy(p, e)
    ensures Keeps(p, Unless(w, depth, p, e, current, phase, capture), Some(e))
    ensures Busy(Unless(w, depth, p, e, current, phase, capture), e)
    decreases depth, 4
  {
    KeepsSelf(p);
    Lenient(p, p, e);
    if !FlagsOf(p, e).stop { InvokeKeeps(w, depth, p, e, current, phase, capture); }
  }

  lemma {:induction false} CapturePassKeeps(w: World, depth: nat, p: Page, e: nat, path: seq<Target>, i: nat)
    requires Fine(p) && Busy(p, e) && 1 <= i <= |path|
    ensures Keeps(p, CapturePass(w, depth, p, e, path, i), Some(e)) && Busy(CapturePass(w, depth, p, e, path, i), e)
    decreases depth, 5, i
  {
    if i == 1 || FlagsOf(p, e).stop {
      KeepsSelf(p);
      Lenient(p, p, e);
    } else {
      var q := Invoke(w, depth, p, e, path[i - 1], Capturing, true);
      InvokeKeeps(w, depth, p, e, path[i - 1], Capturing, true);
      CapturePassKeeps(w, depth, q, e, path, i - 1);
      KeepsFurther(p, q, CapturePass(w, depth, p, e, path, i), Some(e));
    }
  }

  lemma {:induction false} BubblePassKeeps(w: World, depth: nat, p: Page, e: nat, path: seq<Target>, i: nat)
    requires Fine(p) && Busy(p, e) && 1 <= i <= |path|
    ensures Keeps(p, BubblePass(w, depth, p, e, path, i), Some(e)) && Busy(BubblePass(w, depth, p, e, path, i), e)
    decreases depth, 5, |path| - i
  {
    if i == |path| || FlagsOf(p, e).stop {
      KeepsSelf(p);
      Lenient(p, p, e);
    } else {
      var q := Invoke(w, depth, p, e, path[i], Bubbling, false);
      InvokeKeeps(w, depth, p, e, path[i], Bubbling, false);
      BubblePassKeeps(w, depth, q, e, path, i + 1);
      KeepsFurther(p, q, BubblePass(w, depth, p, e, path, i), Some(e));
    }
  }

  lemma {:induction false} PassesKeeps(w: World, depth: nat, p: Page, e: nat, path: seq<Target>)
    requires Fine(p) && Busy(p, e) && path != []
    ensures Keeps(p, Passes(w, depth, p, e, path), Some(e)) && Busy(Passes(w, depth, p, e, path), e)
    decreases depth, 6
  {
    CapturePassKeeps(w, depth, p, e, path, |path|);
    var p1 := CapturePass(w, depth, p, e, path, |path|);
    UnlessKeeps(w, depth, p1, e, path[0], AtTarget, true);
    var p2 := Unless(w, depth, p1, e, path[0], AtTarget, true);
    UnlessKeeps(w, depth, p2, e, path[0], AtTarget, false);
    var p3 := Unless(w, depth, p2, e, path[0], AtTarget, false);
    KeepsFurther(p, p1, p2, Some(e));
    KeepsFurther(p, p2, p3, Some(e));
    if p3.events[e].bubbles {
      BubblePassKeeps(w, depth, p3, e, path, 1);
      KeepsFurther(p, p3, BubblePass(w, depth, p3, e, path, 1), Some(e));
    }
  }

  lemma {:induction false} StartedKeeps(w: World, p: Page, t: Target, e: nat)
    requires Fine(p) && e < |p.events| && !p.events[e].flags.dispatch
    ensures Keeps(p, Started(w, p, t, e), None) && Busy(Started(w, p, t, e), e)
    ensures Started(w, p, t, e).events[e] ==
      p.events[e].(flags := p.events[e].flags.(dispatch := true), target := Some(t))
  {
    var ev := p.events[e];
    var q := WithEvent(p, e, ev.(flags := ev.flags.(dispatch := true), target := Some(t)));
    OnlyEvents(p, q);
    assert Keeps(p, q, None);
    DiscoverAllKeeps(w, q, PathOf(w, t), ev.kind);
    KeepsFurther(p, q, Started(w, p, t, e), None);
  }

  /** An event that has been dispatched. */
  ghost function Ready(ev: Event, t: Target, canceled: bool): Event {
    ev.(target := Some(t), phase := NoPhase, current := None,
      flags := Flags(false, false, canceled, false, false, false))
  }

  /** Whatever the callbacks do: the listener store stays sound, events of dispatches around this one are left
      alone, and the event itself is ready to be dispatched again with the target it was sent to. */
  lemma {:induction false} DispatchKeeps(w: World, depth: nat, p: Page, t: Target, e: nat)
    requires Fine(p) && e < |p.events| && !p.events[e].flags.dispatch
    ensures var r := Dispatch(w, depth, p, t, e); Keeps(p, r.page, None)
    ensures Dispatch(w, depth, p, t, e).page.events[e] == Ready(p.events[e], t, Dispatch(w, depth, p, t, e).canceled)
    ensures Dispatch(w, depth, p, t, e).canceled ==> p.events[e].flags.canceled || p.events[e].cancelable
    decreases depth, 7
  {
    var q := Started(w, p, t, e);
    StartedKeeps(w, p, t, e);
    var path := PathOf(w, t);
    PassesKeeps(w, depth, q, e, path);
    var r := Passes(w, depth, q, e, path);
    DispatchDone(p, q, r, e);
  }

  lemma {:induction false} DispatchDone(p: Page, q: Page, r: Page, e: nat)
    requires Fine(p) && e < |p.events| && !p.events[e].flags.dispatch && Keeps(p, q, None) && Busy(q, e)
    requires Keeps(q, r, Some(e)) && Busy(r, e)
    ensures Keeps(p, Finished(r, e).page, None) && Running(q.events[e], r.events[e])
  {
    var s := Finished(r, e).page;
    OnlyEvents(r, s);
    GrowsFurther(p, q, r);
    GrowsFurther(p, r, s);
    assert Left(q, r, Some(e), e);
    forall f | 0 <= f < |p.events| && p.events[f].flags.dispatch ensures Left(p, s, None, f) {
      assert Left(p, q, None, f) && Left(q, r, Some(e), f);
    }
  }
}
