/**
 Dispatching events: callbacks may add and remove listeners, set handlers, abort signals, stop or cancel
 any event, dispatch other events from within, and throw.
 */
module EventDispatch {
  import opened Options
  import opened EventStore

  /** What a callback can do, step by step. A nested dispatch may be guarded against exceptions. */
  datatype Action =
    | DoAdd(target: Target, kind: string, callback: nat, capture: bool, once: bool, passive: bool,
      signal: Option<Target>)
    | DoRemove(target: Target, kind: string, callback: nat, capture: bool)
    | DoSetHandler(target: Target, kind: string)
    | DoUnsetHandler(target: Target, kind: string)
    | DoNew(kind: string, bubbles: bool, cancelable: bool)
    | DoDispatch(target: Target, event: nat, guarded: bool)
    | DoStop(event: nat)
    | DoStopImmediate(event: nat)
    | DoPrevent(event: nat)
    | DoAbort(which: Target)
    | DoThrow

  /** The ancestors of a target, which keys have an attribute nobody looked at yet, and what the callback of a
      listener does when it is called at a given length of the log. */
  datatype World = World(ancestors: Target -> seq<Target>, inline: Key -> bool, behave: (nat, nat) -> seq<Action>)

  function PathOf(w: World, t: Target): seq<Target> {
    [t] + w.ancestors(t)
  }

  // ----- events

  function WithEvent(p: Page, e: nat, ev: Event): Page
    requires e < |p.events|
  {
    p.(events := p.events[e := ev])
  }

  function WithFlags(p: Page, e: nat, f: Flags): Page
    requires e < |p.events|
  {
    WithEvent(p, e, p.events[e].(flags := f))
  }

  function FlagsOf(p: Page, e: nat): Flags
    requires e < |p.events|
  {
    p.events[e].flags
  }

  function Prevented(ev: Event): Event {
    if ev.cancelable && !ev.flags.passive then ev.(flags := ev.flags.(canceled := true)) else ev
  }

  function Made(kind: string, bubbles: bool, cancelable: bool): Event {
    Event(kind, bubbles, cancelable, Flags(false, false, false, false, false, false), None, None, NoPhase)
  }

  /** Attributes that set a handler count as listeners that were there first. */
  function Discover(w: World, p: Page, k: Key): Page {
    if k in p.handlers || !w.inline(k) then p else Activate(p, k, true)
  }

  function DiscoverAll(w: World, p: Page, path: seq<Target>, kind: string): (r: Page)
    ensures r.events == p.events
    decreases |path|
  {
    if path == [] then p else DiscoverAll(w, Discover(w, p, (path[0], kind)), path[1..], kind)
  }

  // ----- what one action does that does not dispatch

  function Act(w: World, p: Page, a: Action): (r: Page)
    ensures |r.events| >= |p.events|
  {
    match a
    case DoAdd(t, kind, callback, capture, once, passive, signal) =>
      AddListener(p, Listener(t, kind, callback, capture, once, passive, false, signal, false))
    case DoRemove(t, kind, callback, capture) => RemoveListener(p, (t, kind), callback, capture)
    case DoSetHandler(t, kind) => Activate(Discover(w, p, (t, kind)), (t, kind), false)
    case DoUnsetHandler(t, kind) => Deactivate(Discover(w, p, (t, kind)), (t, kind))
    case DoNew(kind, bubbles, cancelable) => p.(events := p.events + [Made(kind, bubbles, cancelable)])
    case DoStop(e) => if e < |p.events| then WithFlags(p, e, FlagsOf(p, e).(stop := true)) else p
    case DoStopImmediate(e) =>
      if e < |p.events| then WithFlags(p, e, FlagsOf(p, e).(stop := true, stopImmediate := true)) else p
    case DoPrevent(e) => if e < |p.events| then WithEvent(p, e, Prevented(p.events[e])) else p
    case _ => p
  }

  /** Aborting marks the signal and makes the event that is then sent to it. */
  function Abort(p: Page, s: Target): (r: Page)
    ensures r.events == p.events + [Made("abort", false, false)]
  {
    var q := AbortListeners(p, s);
    AbortEvents(p.(aborted := p.aborted + {s}, algos := p.algos - {s}), AlgosOf(p, s));
    q.(events := q.events + [Made("abort", false, false)])
  }

  lemma {:induction false} AbortEvents(p: Page, ids: seq<nat>)
    ensures RemoveAll(p, ids).events == p.events
    decreases |ids|
  {
    if ids != [] { AbortEvents(if ids[0] < |p.objs| then RemoveObj(p, ids[0]) else p, ids[1..]); }
  }

  // ----- dispatch; `depth` is the room that is left on the stack

  /** Runs a callback; the flag says that it threw. */
  function Script(w: World, depth: nat, p: Page, acts: seq<Action>): (r: (Page, bool))
    ensures |r.0.events| >= |p.events|
    decreases depth, 0, |acts|
  {
    if acts == [] then (p, false)
    else
      match acts[0]
      case DoThrow => (p, true)
      case DoDispatch(t, e, guarded) =>
        if e < |p.events| && depth > 0 && !FlagsOf(p, e).dispatch
        then Script(w, depth, Dispatch(w, depth - 1, p, t, e).page, acts[1..])
        else if guarded then Script(w, depth, p, acts[1..])
        else (p, true)
      case DoAbort(s) =>
        if s in p.aborted then Script(w, depth, p, acts[1..])
        else if depth == 0 then (Abort(p, s), true)
        else Script(w, depth, Dispatch(w, depth - 1, Abort(p, s), s, |p.events|).page, acts[1..])
      case a => Script(w, depth, Act(w, p, a), acts[1..])
  }

  /** The page when the callback of a listener starts. */
  function Calling(p: Page, e: nat, l: nat, current: Target, phase: Phase): (r: Page)
    requires e < |p.events| && l < |p.objs|
    ensures |r.events| == |p.events| && |r.objs| == |p.objs|
  {
    var q := if p.objs[l].once then RemoveObj(p, l) else p;
    var r := q.(log := q.log + [Called(l, e, current, phase)]);
    if p.objs[l].passive then WithFlags(r, e, FlagsOf(r, e).(passive := true)) else r
  }

  function AfterCall(p: Page, e: nat, passive: bool, threw: bool): (r: Page)
    requires e < |p.events|
    ensures |r.events| == |p.events|
  {
    var f := FlagsOf(p, e);
    WithFlags(p, e, f.(threw := f.threw || threw, passive := f.passive && !passive))
  }

  function Call(w: World, depth: nat, p: Page, e: nat, l: nat, current: Target, phase: Phase): (r: Page)
    requires e < |p.events| && l < |p.objs|
    ensures |r.events| >= |p.events|
    decreases depth, 1
  {
    var r := Script(w, depth, Calling(p, e, l, current, phase), w.behave(l, |p.log|));
    AfterCall(r.0, e, p.objs[l].passive, r.1)
  }

  /** The listeners that were there when the target was reached, in order. */
  function InvokeAll(w: World, depth: nat, p: Page, e: nat, current: Target, phase: Phase, capture: bool,
      snapshot: seq<nat>): (r: Page)
    requires e < |p.events|
    ensures |r.events| >= |p.events|
    decreases depth, 2, |snapshot|
  {
    if snapshot == [] then p
    else
      var l := snapshot[0];
      if !(l < |p.objs|) || p.objs[l].removed || p.objs[l].capture != capture
      then InvokeAll(w, depth, p, e, current, phase, capture, snapshot[1..])
      else
        var q := Call(w, depth, p, e, l, current, phase);
        if FlagsOf(q, e).stopImmediate then q else InvokeAll(w, depth, q, e, current, phase, capture, snapshot[1..])
  }

  function Invoke(w: World, depth: nat, p: Page, e: nat, current: Target, phase: Phase, capture: bool): (r: Page)
    requires e < |p.events|
    ensures |r.events| >= |p.events|
    decreases depth, 3
  {
    var list := ListOf(p, (current, p.events[e].kind));
    if list == [] then p
    else
      var p' := WithEvent(p, e, p.events[e].(phase := phase, current := Some(current)));
      InvokeAll(w, depth, p', e, current, phase, capture, list)
  }

  function Unless(w: World, depth: nat, p: Page, e: nat, current: Target, phase: Phase, capture: bool): (r: Page)
    requires e < |p.events|
    ensures |r.events| >= |p.events|
    decreases depth, 4
  {
    if FlagsOf(p, e).stop then p else Invoke(w, depth, p, e, current, phase, capture)
  }

  /** From the outermost ancestor, number `i - 1`, down to the parent of the target. */
  function CapturePass(w: World, depth: nat, p: Page, e: nat, path: seq<Target>, i: nat): (r: Page)
    requires e < |p.events| && 1 <= i <= |path|
    ensures |r.events| >= |p.events|
    decreases depth, 5, i
  {
    if i == 1 || FlagsOf(p, e).stop then p
    else CapturePass(w, depth, Invoke(w, depth, p, e, path[i - 1], Capturing, true), e, path, i - 1)
  }

  function BubblePass(w: World, depth: nat, p: Page, e: nat, path: seq<Target>, i: nat): (r: Page)
    requires e < |p.events| && 1 <= i <= |path|
    ensures |r.events| >= |p.events|
    decreases depth, 5, |path| - i
  {
    if i == |path| || FlagsOf(p, e).stop then p
    else BubblePass(w, depth, Invoke(w, depth, p, e, path[i], Bubbling, false), e, path, i + 1)
  }

  /** Capture, target and bubble. */
  function Passes(w: World, depth: nat, p: Page, e: nat, path: seq<Target>): (r: Page)
    requires e < |p.events| && path != []
    ensures |r.events| >= |p.events|
    decreases depth, 6
  {
    var p1 := CapturePass(w, depth, p, e, path, |path|);
    var p2 := Unless(w, depth, p1, e, path[0], AtTarget, true);
    var p3 := Unless(w, depth, p2, e, path[0], AtTarget, false);
    if p3.events[e].bubbles then BubblePass(w, depth, p3, e, path, 1) else p3
  }

  datatype Result = Result(page: Page, canceled: bool, stopped: bool, threw: bool)

  function Started(w: World, p: Page, t: Target, e: nat): (r: Page)
    requires e < |p.events|
    ensures |r.events| == |p.events|
  {
    var ev := p.events[e];
    DiscoverAll(w, WithEvent(p, e, ev.(flags := ev.flags.(dispatch := true), target := Some(t))), PathOf(w, t), ev.kind)
  }

  function Finished(p: Page, e: nat): Result
    requires e < |p.events|
  {
    var ev := p.events[e];
    var f := ev.flags;
    var after := f.(dispatch := false, stop := false, stopImmediate := false, threw := false);
    Result(WithEvent(p, e, ev.(phase := NoPhase, current := None, flags := after)),
      f.canceled, f.stop, f.threw)
  }

  function Dispatch(w: World, depth: nat, p: Page, t: Target, e: nat): (r: Result)
    requires e < |p.events|
    ensures |r.page.events| >= |p.events|
    decreases depth, 7
  {
    Finished(Passes(w, depth, Started(w, p, t, e), e, PathOf(w, t)), e)
  }
}
