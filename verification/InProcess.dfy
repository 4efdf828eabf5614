/**
 Fetch and abort when the network stack runs in the same process: a task per request, registered under the
 lock it is spawned under, and the end of the stack when the last client is dropped. One step per lock region,
 in any interleaving.
 */
module InProcess {

  type Id = nat

  /**
   `running` is whether a client is left; `inflight` is the map behind the lock; `working` are tasks that have
   not looked at it yet; `killed` are those whose abort handle was used. A callback is `claimed` by the task
   that took its entry out, then `dispatched`; `dropped` is by an abort that found the entry; `lost` are those
   whose task the runtime stopped while their entry was there.
   */
  datatype State = State(running: bool, next: Id, inflight: set<Id>, working: set<Id>, killed: set<Id>,
    claimed: multiset<Id>, dispatched: multiset<Id>, dropped: multiset<Id>, lost: set<Id>)

  /** A killed task may stop at any point before it looks at the map, or be too late to stop; so may every task
      once the last client has been dropped. */
  datatype Action = Fetch | Finish(id: Id) | Stopped(id: Id) | Dispatch(id: Id) | Abort(id: Id) | Shutdown

  function Init(): State {
    State(true, 1, {}, {}, {}, multiset{}, multiset{}, multiset{}, {})
  }

  predicate Enabled(s: State, a: Action) {
    match a
    case Fetch => s.running
    case Finish(id) => id in s.working
    case Stopped(id) => id in s.working && (id in s.killed || !s.running)
    case Dispatch(id) => id in s.claimed
    case Abort(id) => s.running
    case Shutdown => s.running
  }

  function Step(s: State, a: Action): State
    requires Enabled(s, a)
  {
    match a
    case Fetch => s.(next := s.next + 1, inflight := s.inflight + {s.next}, working := s.working + {s.next})
    case Finish(id) =>
      if id in s.inflight
      then s.(inflight := s.inflight - {id}, working := s.working - {id}, claimed := s.claimed + multiset{id})
      else s.(working := s.working - {id})
    case Stopped(id) =>
      s.(working := s.working - {id}, lost := if id in s.inflight then s.lost + {id} else s.lost)
    case Dispatch(id) => s.(claimed := s.claimed - multiset{id}, dispatched := s.dispatched + multiset{id})
    case Abort(id) =>
      if id in s.inflight
      then s.(inflight := s.inflight - {id}, killed := s.killed + {id}, dropped := s.dropped + multiset{id})
      else s
    case Shutdown => s.(running := false)
  }

  /** Where a callback is: each is at exactly one place. */
  ghost function Places(s: State, id: Id): int {
    (if id in s.inflight then 1 else 0) + s.claimed[id] + s.dispatched[id] + s.dropped[id]
  }

  ghost predicate Inv(s: State) {
    && (forall id: Id :: Places(s, id) == if 1 <= id < s.next then 1 else 0)
    && s.next >= 1 && (forall id :: id in s.working ==> id < s.next)
    && s.inflight <= s.working + s.lost && s.lost <= s.inflight && s.lost !! s.working
    && (s.running ==> s.lost == {})
    && (forall id :: id in s.killed ==> id in s.dropped)
  }

  lemma {:induction false} InvStep(s: State, a: Action)
    requires Inv(s) && Enabled(s, a)
    ensures Inv(Step(s, a))
  {
    var s' := Step(s, a);
    forall id: Id ensures Places(s', id) == if 1 <= id < s'.next then 1 else 0 {
      assert Places(s, id) == if 1 <= id < s.next then 1 else 0;
    }
    if a.Finish? || a.Abort? || a.Stopped? { assert Places(s, a.id) <= 1; }
  }

  ghost predicate Legal(s: State, run: seq<Action>)
    decreases |run|
  {
    run == [] || (Enabled(s, run[0]) && Legal(Step(s, run[0]), run[1..]))
  }

  function After(s: State, run: seq<Action>): State
    requires Legal(s, run)
    decreases |run|
  {
    if run == [] then s else After(Step(s, run[0]), run[1..])
  }

  lemma {:induction false} InvRun(s: State, run: seq<Action>)
    requires Inv(s) && Legal(s, run)
    ensures Inv(After(s, run))
    decreases |run|
  {
    if run != [] {
      InvStep(s, run[0]);
      InvRun(Step(s, run[0]), run[1..]);
    }
  }

  /** Never twice, in any run; and once no task and no claimed callback is left, every fetch was answered
      exactly once or dropped by an abort that found it, and not both, unless it is lost, and then neither.
      Nothing is lost while a client is left. */
  lemma {:induction false} ExactlyOnce(run: seq<Action>, id: Id)
    requires Legal(Init(), run)
    ensures var s := After(Init(), run); s.dispatched[id] + s.dropped[id] <= 1 && (s.running ==> s.lost == {})
    ensures var s := After(Init(), run); s.working == {} && s.claimed == multiset{} && 1 <= id < s.next ==>
      s.dispatched[id] + s.dropped[id] == if id in s.lost then 0 else 1
  {
    var s := After(Init(), run);
    InvRun(Init(), run);
    assert Places(s, id) == if 1 <= id < s.next then 1 else 0;
  }

  /** Which callbacks are lost when the last client is dropped: those in flight at that time whose task does
      not get to finish before the runtime stops it. */
  lemma {:induction false} LostAtShutdown(s: State, run: seq<Action>, id: Id)
    requires Inv(s) && s.running && Legal(Step(s, Shutdown), run)
    requires After(Step(s, Shutdown), run).working == {}
    ensures id in After(Step(s, Shutdown), run).lost <==> id in s.inflight && Finish(id) !in run
  {
    InvStep(s, Shutdown);
    LostAre(Step(s, Shutdown), run, id);
  }

  lemma {:induction false} LostAre(s: State, run: seq<Action>, id: Id)
    requires Inv(s) && !s.running && Legal(s, run) && After(s, run).working == {}
    ensures id in After(s, run).lost <==> id in s.lost || (id in s.inflight && Finish(id) !in run)
    decreases |run|
  {
    if run != [] {
      var t := Step(s, run[0]);
      InvStep(s, run[0]);
      LostAre(t, run[1..], id);
      if id in t.lost { LostNeverFinish(t, run[1..], id); }
      assert Finish(id) in run <==> run[0] == Finish(id) || Finish(id) in run[1..];
    }
  }

  lemma {:induction false} LostNeverFinish(s: State, run: seq<Action>, id: Id)
    requires Inv(s) && !s.running && Legal(s, run) && id in s.lost
    ensures Finish(id) !in run
    decreases |run|
  {
    if run != [] {
      InvStep(s, run[0]);
      LostNeverFinish(Step(s, run[0]), run[1..], id);
    }
  }

  /** After an abort that found the request its callback never runs. */
  lemma {:induction false} AbortedForGood(s: State, run: seq<Action>, id: Id)
    requires Inv(s) && s.running && id in s.inflight && Legal(Step(s, Abort(id)), run)
    ensures After(Step(s, Abort(id)), run).dispatched[id] == 0
  {
    var s1 := Step(s, Abort(id));
    InvStep(s, Abort(id));
    assert Places(s, id) == 1 || Places(s, id) == 0;
    DroppedStays(s1, run, id);
  }

  lemma {:induction false} DroppedStays(s: State, run: seq<Action>, id: Id)
    requires Inv(s) && id in s.dropped && Legal(s, run)
    ensures After(s, run).dispatched[id] == 0
    decreases |run|
  {
    assert Places(s, id) == if 1 <= id < s.next then 1 else 0;
    if run != [] {
      InvStep(s, run[0]);
      DroppedStays(Step(s, run[0]), run[1..], id);
    }
  }

  // ----- draining

  predicate Internal(a: Action) {
    a.Finish? || a.Stopped? || a.Dispatch?
  }

  function Weight(s: State): nat {
    2 * |s.working| + |s.claimed|
  }

  /** Tasks finish and callbacks run on their own, and every such step leaves less to do. */
  lemma {:induction false} Progress(s: State, a: Action)
    requires Inv(s) && Enabled(s, a) && Internal(a)
    ensures Weight(Step(s, a)) < Weight(s)
  {
    if a.Dispatch? {
      assert |s.claimed| == |s.claimed - multiset{a.id}| + 1;
    } else {
      assert |s.working - {a.id}| == |s.working| - 1;
    }
  }

  /** When no step is left to them, no task is at work and no callback waits. */
  lemma {:induction false} StuckIsDone(s: State)
    requires forall a: Action :: Internal(a) ==> !Enabled(s, a)
    ensures s.working == {} && s.claimed == multiset{}
  {
    forall id: Id ensures id !in s.working && id !in s.claimed {
      assert !Enabled(s, Finish(id)) && !Enabled(s, Dispatch(id));
    }
  }

  lemma {:induction false} DroppedByAbort(s: State, run: seq<Action>, id: Id)
    requires Legal(s, run)
    ensures id in After(s, run).dropped ==> id in s.dropped || Abort(id) in run
    ensures After(s, run).running <==> s.running && Shutdown !in run
    decreases |run|
  {
    if run != [] {
      assert Abort(id) in run <==> run[0] == Abort(id) || Abort(id) in run[1..];
      assert Shutdown in run <==> run[0] == Shutdown || Shutdown in run[1..];
      DroppedByAbort(Step(s, run[0]), run[1..], id);
    }
  }

  /** While a client is left, a request that is not aborted has its callback run, once. */
  lemma {:induction false} Answered(run: seq<Action>, id: Id)
    requires Legal(Init(), run) && Shutdown !in run && Abort(id) !in run && 1 <= id < After(Init(), run).next
    requires forall a: Action :: Internal(a) ==> !Enabled(After(Init(), run), a)
    ensures After(Init(), run).dispatched[id] == 1
  {
    StuckIsDone(After(Init(), run));
    DroppedByAbort(Init(), run, id);
    ExactlyOnce(run, id);
  }
}
