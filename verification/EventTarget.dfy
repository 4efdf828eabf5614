/** The event layer itself: the listener store and the dispatch loops, updating one page in place. */
module EventTarget {
  import opened Options
  import opened EventStore
  import opened EventDispatch
  import opened EventSafety

  class EventLayer {
    const w: World
    var page: Page

    /** What holds whenever a script runs. */
    ghost predicate Sound()
      reads this
    {
      Fine(page)
    }

    constructor (world: World)
      ensures Sound() && w == world && page == Page([], map[], map[], map[], {}, [], [])
    {
      w, page := world, Page([], map[], map[], map[], {}, [], []);
    }

    /** The first listener of a list with this callback and phase. */
    method Find(list: seq<nat>, callback: nat, capture: bool) returns (r: Option<nat>)
      ensures r == FirstMatch(page, list, callback, capture)
    {
      for i := 0 to |list|
        invariant FirstMatch(page, list, callback, capture) == FirstMatch(page, list[i..], callback, capture)
      {
        assert list[i..][1..] == list[i + 1..];
        if Matches(page, list[i], callback, capture) { return Some(list[i]); }
      }
      return None;
    }

    method AddEventListener(l: Listener)
      requires Sound() && !l.removed && !l.handler
      modifies this`page
      ensures Sound() && Grows(old(page), page) && page == AddListener(old(page), l)
    {
      AddKeeps(page, l);
      SameEvents(page, AddListener(page, l));
      if l.signal.Some? && l.signal.value in page.aborted { return; }
      var m := Find(ListOf(page, KeyOf(l)), l.callback, l.capture);
      if m.Some? { return; }
      var id := |page.objs|;
      page := Insert(page, l, false);
      if l.signal.Some? { page := WithAlgo(page, l.signal.value, id); }
    }

    /** Afterwards the callback has no listener for that phase, and every other listener is where it was. */
    method RemoveEventListener(k: Key, callback: nat, capture: bool)
      requires Sound()
      modifies this`page
      ensures Sound() && Grows(old(page), page)
      ensures forall id: nat :: Listed(page, id) <==>
        Listed(old(page), id) && !(KeyOf(old(page).objs[id]) == k && Matches(old(page), id, callback, capture))
    {
      ghost var p := page;
      RemoveListenerKeeps(page, k, callback, capture);
      SameEvents(page, RemoveListener(page, k, callback, capture));
      forall id: nat | Listed(p, id) && KeyOf(p.objs[id]) == k
        ensures Listed(RemoveListener(p, k, callback, capture), id) <==> !Matches(p, id, callback, capture)
      {
        RemoveListenerRemoves(p, k, callback, capture, id);
      }
      var m := Find(ListOf(page, k), callback, capture);
      if m.Some? {
        InList(p, k, m.value);
        RemoveLeaves(p, m.value);
        page := RemoveObj(page, m.value);
      }
    }

    /** A callback, step by step; it may dispatch, down to a depth of `depth`. */
    method RunScript(depth: nat, acts: seq<Action>) returns (threw: bool)
      modifies this`page
      ensures (page, threw) == Script(w, depth, old(page), acts)
      decreases depth, 1
    {
      for i := 0 to |acts|
        invariant Script(w, depth, page, acts[i..]) == Script(w, depth, old(page), acts)
      {
        assert acts[i..][0] == acts[i] && acts[i..][1..] == acts[i + 1..];
        var stop := RunAction(depth, acts[i], acts[i + 1..]);
        if stop { return true; }
      }
      return false;
    }

    /** One step; the flag says that the callback ends here with an exception. */
    method RunAction(depth: nat, a: Action, ghost rest: seq<Action>) returns (stop: bool)
      modifies this`page
      ensures Script(w, depth, old(page), [a] + rest) == if stop then (page, true) else Script(w, depth, page, rest)
      decreases depth, 0
    {
      assert ([a] + rest)[1..] == rest;
      match a {
        case DoThrow => return true;
        case DoDispatch(t, e, guarded) =>
          if e < |page.events| && depth > 0 && !FlagsOf(page, e).dispatch {
            var _, _, _ := DispatchCore(depth - 1, t, e);
          } else if !guarded {
            return true;
          }
          return false;
        case DoAbort(s) =>
          if s in page.aborted { return false; }
          var e := |page.events|;
          page := Abort(page, s);
          if depth == 0 { return true; }
          var _, _, _ := DispatchCore(depth - 1, s, e);
          return false;
        case _ =>
          page := Act(w, page, a);
          return false;
      }
    }

    /** Calls the listeners of one target that were there when it was reached. */
    method InvokeListeners(depth: nat, e: nat, current: Target, phase: Phase, capture: bool)
      requires e < |page.events|
      modifies this`page
      ensures page == Invoke(w, depth, old(page), e, current, phase, capture)
      decreases depth, 3
    {
      var snapshot := ListOf(page, (current, page.events[e].kind));
      if snapshot == [] { return; }
      page := WithEvent(page, e, page.events[e].(phase := phase, current := Some(current)));
      for i := 0 to |snapshot|
        invariant e < |page.events|
        invariant InvokeAll(w, depth, page, e, current, phase, capture, snapshot[i..]) ==
          Invoke(w, depth, old(page), e, current, phase, capture)
      {
        var l := snapshot[i];
        assert snapshot[i..][0] == l && snapshot[i..][1..] == snapshot[i + 1..];
        if l < |page.objs| && !page.objs[l].removed && page.objs[l].capture == capture {
          CallListener(depth, e, l, current, phase);
          if FlagsOf(page, e).stopImmediate { return; }
        }
      }
    }

    method CallListener(depth: nat, e: nat, l: nat, current: Target, phase: Phase)
      requires e < |page.events| && l < |page.objs|
      modifies this`page
      ensures page == Call(w, depth, old(page), e, l, current, phase) && |page.events| >= |old(page).events|
      decreases depth, 2
    {
      var passive, acts := page.objs[l].passive, w.behave(l, |page.log|);
      if page.objs[l].once { page := RemoveObj(page, l); }
      page := page.(log := page.log + [Called(l, e, current, phase)]);
      if passive { page := WithFlags(page, e, FlagsOf(page, e).(passive := true)); }
      var threw := RunScript(depth, acts);
      page := AfterCall(page, e, passive, threw);
    }

    /** The three phases of one event. */
    method RunPasses(depth: nat, e: nat, path: seq<Target>)
      requires e < |page.events| && path != []
      modifies this`page
      ensures page == Passes(w, depth, old(page), e, path)
      decreases depth, 4
    {
      RunCapture(depth, e, path);
      if !FlagsOf(page, e).stop { InvokeListeners(depth, e, path[0], AtTarget, true); }
      if !FlagsOf(page, e).stop { InvokeListeners(depth, e, path[0], AtTarget, false); }
      if page.events[e].bubbles { RunBubble(depth, e, path); }
    }

    method RunCapture(depth: nat, e: nat, path: seq<Target>)
      requires e < |page.events| && path != []
      modifies this`page
      ensures page == CapturePass(w, depth, old(page), e, path, |path|)
      decreases depth, 4, 0
    {
      var i := |path| - 1;
      while i > 0
        invariant 0 <= i < |path| && e < |page.events|
        invariant CapturePass(w, depth, page, e, path, i + 1) == CapturePass(w, depth, old(page), e, path, |path|)
      {
        if FlagsOf(page, e).stop { return; }
        InvokeListeners(depth, e, path[i], Capturing, true);
        i := i - 1;
      }
    }

    method RunBubble(depth: nat, e: nat, path: seq<Target>)
      requires e < |page.events| && path != []
      modifies this`page
      ensures page == BubblePass(w, depth, old(page), e, path, 1)
      decreases depth, 4, 0
    {
      for i := 1 to |path|
        invariant e < |page.events|
        invariant BubblePass(w, depth, page, e, path, i) == BubblePass(w, depth, old(page), e, path, 1)
      {
        if FlagsOf(page, e).stop { return; }
        InvokeListeners(depth, e, path[i], Bubbling, false);
      }
    }

    /** Dispatches an event and says whether it was canceled or stopped and whether a listener threw. */
    method DispatchCore(depth: nat, t: Target, e: nat) returns (canceled: bool, stopped: bool, threw: bool)
      requires e < |page.events|
      modifies this`page
      ensures Result(page, canceled, stopped, threw) == Dispatch(w, depth, old(page), t, e)
      decreases depth, 5
    {
      page := Started(w, page, t, e);
      RunPasses(depth, e, PathOf(w, t));
      var f := FlagsOf(page, e);
      canceled, stopped, threw := f.canceled, f.stop, f.threw;
      page := Finished(page, e).page;
    }

    /** Dispatch of an idle event on a sound page: everything still holds, and the event can be sent again. */
    method DispatchEvent(depth: nat, t: Target, e: nat) returns (canceled: bool)
      requires Sound() && e < |page.events| && !FlagsOf(page, e).dispatch
      modifies this`page
      ensures Sound() && Keeps(old(page), page, None) && e < |page.events|
      ensures page.events[e] == Ready(old(page).events[e], t, canceled)
    {
      DispatchKeeps(w, depth, page, t, e);
      var stopped, threw;
      canceled, stopped, threw := DispatchCore(depth, t, e);
    }
  }
}
