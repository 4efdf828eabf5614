/**
 Saving at most once per delay: threads make changes and trigger the saver, tasks sleep, clear the flag and
 start the job. One atomic step per access to the flag, in any interleaving.
 */
module Debouncer {

  /**
   Changes are numbered in the order they are made. `made` have not touched the flag yet, `spawning` found it
   clear and are about to start a task, `returned` are those whose trigger has returned. `sleeping` tasks have
   yet to clear the flag, `cleared` tasks have yet to start the job. Every change up to `covered` was made
   before some job started.
   */
  datatype State = State(pending: bool, changes: nat, made: set<nat>, spawning: set<nat>, returned: set<nat>,
    sleeping: nat, cleared: nat, covered: nat)

  datatype Action = Change | Swap(c: nat) | Spawn(c: nat) | Clear | StartJob

  function Init(): State {
    State(false, 0, {}, {}, {}, 0, 0, 0)
  }

  predicate Enabled(s: State, a: Action) {
    match a
    case Change => true
    case Swap(c) => c in s.made
    case Spawn(c) => c in s.spawning
    case Clear => s.sleeping > 0
    case StartJob => s.cleared > 0
  }

  function Step(s: State, a: Action): State
    requires Enabled(s, a)
  {
    match a
    case Change => s.(changes := s.changes + 1, made := s.made + {s.changes + 1})
    case Swap(c) =>
      if s.pending then s.(made := s.made - {c}, returned := s.returned + {c})
      else s.(pending := true, made := s.made - {c}, spawning := s.spawning + {c})
    case Spawn(c) => s.(spawning := s.spawning - {c}, returned := s.returned + {c}, sleeping := s.sleeping + 1)
    case Clear => s.(sleeping := s.sleeping - 1, pending := false, cleared := s.cleared + 1)
    case StartJob => s.(cleared := s.cleared - 1, covered := s.changes)
  }

  /** Tasks that are scheduled, or about to be, and have not cleared the flag. */
  function Scheduled(s: State): nat {
    |s.spawning| + s.sleeping
  }

  /** The flag counts the tasks. */
  ghost predicate FlagOk(s: State) {
    Scheduled(s) == if s.pending then 1 else 0
  }

  /** Every change is at exactly one point. */
  ghost predicate Placed(s: State) {
    && s.made !! s.spawning && s.made !! s.returned && s.spawning !! s.returned
    && forall c :: c in s.made || c in s.spawning || c in s.returned <==> 1 <= c <= s.changes
  }

  /** A change that is not covered, and whose trigger returned, has a task at work. */
  ghost predicate Awaited(s: State) {
    s.covered <= s.changes && forall c :: c in s.returned && c > s.covered ==> s.pending || s.cleared > 0
  }

  ghost predicate Inv(s: State) {
    FlagOk(s) && Placed(s) && Awaited(s)
  }

  lemma {:induction false} FlagStep(s: State, a: Action)
    requires FlagOk(s) && Placed(s) && Enabled(s, a)
    ensures FlagOk(Step(s, a))
  {
    match a {
      case Swap(c) => if !s.pending { assert |s.spawning + {c}| == |s.spawning| + 1; }
      case Spawn(c) => assert |s.spawning - {c}| == |s.spawning| - 1;
      case _ =>
    }
  }

  lemma {:induction false} PlacedStep(s: State, a: Action)
    requires Placed(s) && Enabled(s, a)
    ensures Placed(Step(s, a))
  {
    if a.Change? { assert s.changes + 1 !in s.made && s.changes + 1 !in s.spawning && s.changes + 1 !in s.returned; }
  }

  lemma {:induction false} InvStep(s: State, a: Action)
    requires Inv(s) && Enabled(s, a)
    ensures Inv(Step(s, a))
  {
    FlagStep(s, a);
    PlacedStep(s, a);
    if a.Spawn? { assert s.spawning != {} && s.pending; }
  }

  ghost predicate Legal(s: State, run: seq<Action>)
    decreases |run|
  {
    run == [] || (Enabled(s, run[0]) && Legal(Step(s, run[0]), run[1..]))
  }

  function After(s: State, run: seq<Action>): State
    requires Legal(s, run)
    decreases |run|
  {
    if run == [] then s else After(Step(s, run[0]), run[1..])
  }

  lemma {:induction false} InvRun(s: State, run: seq<Action>)
    requires Inv(s) && Legal(s, run)
    ensures Inv(After(s, run))
    decreases |run|
  {
    if run != [] {
      InvStep(s, run[0]);
      InvRun(Step(s, run[0]), run[1..]);
    }
  }

  /** The flag is set just while exactly one scheduled task has not cleared it; there are never two. */
  lemma {:induction false} PendingIsOneTask(run: seq<Action>)
    requires Legal(Init(), run)
    ensures var s := After(Init(), run); (s.pending <==> Scheduled(s) == 1) && Scheduled(s) <= 1
  {
    InvRun(Init(), run);
  }

  ghost predicate Drained(s: State) {
    s.spawning == {} && s.sleeping == 0 && s.cleared == 0
  }

  // ----- one change

  /** A step of a task, as against one of a thread that changes something or triggers. */
  predicate ByTask(a: Action) {
    a.Spawn? || a.Clear? || a.StartJob?
  }

  /** How many kinds of task step still lie between change `c` and a job that starts after it: none once it is
      covered, one when a task has cleared the flag, two when one sleeps, three when one is about to be spawned. */
  function Distance(s: State, c: nat): nat {
    if c <= s.covered then 0 else if s.cleared > 0 then 1 else if s.sleeping > 0 then 2 else 3
  }

  /** A change whose trigger has returned, or that set the flag. */
  predicate Triggered(s: State, c: nat) {
    c in s.returned || c in s.spawning
  }

  /** Whatever any thread does, other changes and triggers included, a change gets no further from its job;
      every task step brings it nearer while it is two or three away, and a job that starts covers it. */
  lemma {:induction false} NeverFarther(s: State, a: Action, c: nat)
    requires Inv(s) && Triggered(s, c) && Enabled(s, a)
    ensures Triggered(Step(s, a), c) && Distance(Step(s, a), c) <= Distance(s, c)
    ensures ByTask(a) && Distance(s, c) >= 2 ==> Distance(Step(s, a), c) < Distance(s, c)
    ensures a.StartJob? ==> Distance(Step(s, a), c) == 0
  {
    if a.StartJob? { StartCovers(s, c); }
    if a.Clear? || a.Spawn? { OneScheduled(s, a); }
  }

  /** There is one scheduled task at most, so spawning it means that none sleeps. */
  lemma {:induction false} OneScheduled(s: State, a: Action)
    requires FlagOk(s) && Enabled(s, a) && (a.Clear? || a.Spawn?)
    ensures a.Spawn? ==> s.sleeping == 0
    ensures a.Clear? ==> s.sleeping == 1 && s.spawning == {}
  {
    if a.Spawn? { assert s.spawning != {}; }
  }

  /** Every job that starts covers all changes made so far, those still on their way to the flag included. */
  lemma {:induction false} StartCovers(s: State, c: nat)
    requires Placed(s) && Enabled(s, StartJob) && (c in s.made || Triggered(s, c))
    ensures c <= Step(s, StartJob).covered
  {
    assert c in s.made || c in s.spawning || c in s.returned <==> 1 <= c <= s.changes;
  }

  /** A change that is not covered has a task at work, whose next step is there to be taken. */
  lemma {:induction false} TaskAtWork(s: State, c: nat)
    requires Inv(s) && Triggered(s, c) && c > s.covered
    ensures exists a: Action :: Enabled(s, a) && ByTask(a) && Distance(Step(s, a), c) < Distance(s, c)
  {
    if s.cleared > 0 {
      StartCovers(s, c);
      assert Enabled(s, StartJob) && Distance(Step(s, StartJob), c) < Distance(s, c);
    } else if s.sleeping > 0 {
      NeverFarther(s, Clear, c);
      assert Enabled(s, Clear) && Distance(Step(s, Clear), c) < Distance(s, c);
    } else {
      assert s.pending;
      var d :| d in s.spawning;
      NeverFarther(s, Spawn(d), c);
      assert Enabled(s, Spawn(d)) && Distance(Step(s, Spawn(d)), c) < Distance(s, c);
    }
  }

  function TaskSteps(run: seq<Action>): nat {
    if run == [] then 0 else (if ByTask(run[0]) then 1 else 0) + TaskSteps(run[1..])
  }

  /** However changes keep coming, two task steps are enough to bring a change to where the next start of a job
      covers it. */
  lemma {:induction false} TwoStepsAway(s: State, run: seq<Action>, c: nat)
    requires Inv(s) && Triggered(s, c) && Legal(s, run)
    ensures Distance(After(s, run), c) <= Distance(s, c)
    ensures TaskSteps(run) + 1 >= Distance(s, c) ==> Distance(After(s, run), c) <= 1
    decreases |run|
  {
    if run != [] {
      var t := Step(s, run[0]);
      InvStep(s, run[0]);
      NeverFarther(s, run[0], c);
      TwoStepsAway(t, run[1..], c);
    }
  }

  /** Every run that goes on after the trigger returned and in which a job starts, covers the change: that job,
      or an earlier one, started after it. */
  lemma {:induction false} CoveredByNextJob(s: State, run: seq<Action>, c: nat)
    requires Inv(s) && Triggered(s, c) && Legal(s, run) && StartJob in run
    ensures c <= After(s, run).covered
    decreases |run|
  {
    var t := Step(s, run[0]);
    InvStep(s, run[0]);
    NeverFarther(s, run[0], c);
    if run[0].StartJob? {
      TwoStepsAway(t, run[1..], c);
    } else {
      CoveredByNextJob(t, run[1..], c);
    }
  }

  /** The same from the start: no change whose trigger returned is ever without a job to come. */
  lemma {:induction false} NoLostSave(run: seq<Action>, more: seq<Action>, c: nat)
    requires Legal(Init(), run) && c in After(Init(), run).returned && Legal(After(Init(), run), more)
    ensures StartJob in more ==> c <= After(After(Init(), run), more).covered
    ensures c > After(After(Init(), run), more).covered ==>
      exists a: Action :: Enabled(After(After(Init(), run), more), a) && ByTask(a)
    ensures Drained(After(After(Init(), run), more)) ==> c <= After(After(Init(), run), more).covered
  {
    var s := After(Init(), run);
    InvRun(Init(), run);
    InvRun(s, more);
    if StartJob in more { CoveredByNextJob(s, more, c); }
    StaysTriggered(s, more, c);
    if c > After(s, more).covered { TaskAtWork(After(s, more), c); }
  }

  lemma {:induction false} StaysTriggered(s: State, run: seq<Action>, c: nat)
    requires Inv(s) && Triggered(s, c) && Legal(s, run)
    ensures Triggered(After(s, run), c)
    decreases |run|
  {
    if run != [] {
      InvStep(s, run[0]);
      NeverFarther(s, run[0], c);
      StaysTriggered(Step(s, run[0]), run[1..], c);
    }
  }

  // ----- no more jobs than tasks, and no more tasks than triggers

  function Jobs(run: seq<Action>): nat {
    if run == [] then 0 else (if run[0].StartJob? then 1 else 0) + Jobs(run[1..])
  }

  function Tasks(run: seq<Action>): nat {
    if run == [] then 0 else (if run[0].Spawn? then 1 else 0) + Tasks(run[1..])
  }

  function Clears(run: seq<Action>): nat {
    if run == [] then 0 else (if run[0].Clear? then 1 else 0) + Clears(run[1..])
  }

  /** Every task that was started sleeps, has cleared the flag or has started its one job. */
  lemma {:induction false} OneJobPerTask(s: State, run: seq<Action>)
    requires Legal(s, run)
    ensures var t := After(s, run);
      s.sleeping + Tasks(run) == t.sleeping + Clears(run) && s.cleared + Clears(run) == t.cleared + Jobs(run)
    decreases |run|
  {
    if run != [] { OneJobPerTask(Step(s, run[0]), run[1..]); }
  }

  lemma {:induction false} NoTaskWhilePending(s: State, run: seq<Action>)
    requires Inv(s) && Legal(s, run) && s.sleeping > 0 && Clear !in run
    ensures Tasks(run) == 0 && After(s, run).sleeping == s.sleeping
    decreases |run|
  {
    if run != [] {
      InvStep(s, run[0]);
      assert s.spawning == {};
      NoTaskWhilePending(Step(s, run[0]), run[1..]);
    }
  }

  /** At most one job per delay: from the start of a task until it has slept no other task is started. */
  lemma {:induction false} OneTaskPerDelay(run: seq<Action>, more: seq<Action>)
    requires Legal(Init(), run) && After(Init(), run).sleeping > 0
    requires Legal(After(Init(), run), more) && Clear !in more
    ensures Tasks(more) == 0
  {
    InvRun(Init(), run);
    NoTaskWhilePending(After(Init(), run), more);
  }
}
