/** What the two processes deliver to each other: nothing is lost, doubled or reordered while the connection
    lasts, and every request is answered by the service. */
module NetDelivery {
  import opened NetProtocol

  // ----- what happened in a run

  /** The channel takes messages: it is open, or its queue will still be written out. */
  predicate Accepts(w: Wire) {
    w.chan == Open || (w.chan == Queueing && w.reader == Connecting)
  }

  function SentBy(w: Wire, a: Action): seq<Msg> {
    if !Accepts(w) then []
    else match a case SendOk(id) => [FetchMsg(id)] case AbortSend(id) => [AbortMsg(id)] case _ => []
  }

  /** The messages that client threads sent, in order. */
  function Sent(s: State, run: seq<Action>): seq<Msg>
    requires Allowed(s, run)
    decreases |run|
  {
    if run == [] then [] else SentBy(s.w, run[0]) + Sent(Step(s, run[0]), run[1..])
  }

  /** The messages that the service has handled. */
  function Served(s: State, run: seq<Action>): seq<Msg>
    requires Allowed(s, run)
    decreases |run|
  {
    if run == [] then []
    else (if run[0] == Serve then [s.w.toService[0]] else []) + Served(Step(s, run[0]), run[1..])
  }

  function AnsweredBy(s: State, a: Action): seq<Id>
    requires Enabled(s, a)
  {
    if a.Answer? then [s.v.wanted[a.gen]] else []
  }

  function GotBy(s: State, a: Action): seq<Id>
    requires Enabled(s, a)
  {
    if a.Receive? then [s.w.toClient[0]] else []
  }

  /** The requests that the tasks of the service have answered. */
  function Answered(s: State, run: seq<Action>): seq<Id>
    requires Allowed(s, run)
    decreases |run|
  {
    if run == [] then []
    else AnsweredBy(s, run[0]) + Answered(Step(s, run[0]), run[1..])
  }

  /** The requests that the reader thread has got responses for. */
  function Received(s: State, run: seq<Action>): seq<Id>
    requires Allowed(s, run)
    decreases |run|
  {
    if run == [] then []
    else GotBy(s, run[0]) + Received(Step(s, run[0]), run[1..])
  }

  function Times(run: seq<Action>, a: Action): nat {
    if run == [] then 0 else (if run[0] == a then 1 else 0) + Times(run[1..], a)
  }

  // ----- requests

  lemma {:induction false} NothingMore(s: State, run: seq<Action>)
    requires Inv(s) && Allowed(s, run) && (Orphaned(s.w) || s.w.chan == Closed)
    ensures Sent(s, run) == []
    decreases |run|
  {
    if run != [] {
      InvStep(s, run[0]);
      NothingMore(Step(s, run[0]), run[1..]);
    }
  }

  /** How one step changes what is under way to the service. */
  lemma {:induction false} RequestMoves(s: State, a: Action)
    requires Channel(s) && Enabled(s, a)
    ensures var w' := WireStep(s, a);
      if a == Serve then s.w.toService == [s.w.toService[0]] + w'.toService
      else if a.ConnectPart? then w'.toService <= s.w.toService && Orphaned(w')
      else w'.toService == s.w.toService + SentBy(s.w, a)
  {
  }

  /** The service handles what was sent, in order: all of it, apart from what is still under way and from what
      a connection that breaks while the queue is written takes with it. */
  lemma {:induction false} RequestsInOrder(s: State, run: seq<Action>)
    requires Inv(s) && Allowed(s, run)
    ensures Served(s, run) + After(s, run).w.toService <= s.w.toService + Sent(s, run)
    ensures (forall k: nat :: ConnectPart(k) !in run) ==>
      Served(s, run) + After(s, run).w.toService == s.w.toService + Sent(s, run)
    decreases |run|
  {
    if run == [] {
      assert [] + s.w.toService == s.w.toService + [];
    } else {
      var a, s', rest := run[0], Step(s, run[0]), run[1..];
      InvStep(s, a);
      RequestMoves(s, a);
      RequestsInOrder(s', rest);
      assert forall b :: b in rest ==> b in run;
      if a.ConnectPart? { NothingMore(s', rest); }
      OneMoreSent(s.w.toService, s'.w.toService, SentBy(s.w, a), a == Serve, a.ConnectPart?, Served(s', rest),
        Sent(s', rest), After(s', rest).w.toService);
    }
  }

  lemma {:induction false} OneMoreSent(q: seq<Msg>, q': seq<Msg>, mine: seq<Msg>, served: bool, cut: bool,
      more: seq<Msg>, later: seq<Msg>, left: seq<Msg>)
    requires more + left <= q' + later
    requires if served then mine == [] && q != [] && q == [q[0]] + q' else if cut then q' <= q else q' == q + mine
    requires cut ==> mine == [] && later == [] && !served
    ensures (if served then [q[0]] else []) + more + left <= q + (mine + later)
    ensures more + left == q' + later && !cut ==> (if served then [q[0]] else []) + more + left == q + (mine + later)
  {
    if served {
      assert [q[0]] + more + left == [q[0]] + (more + left) <= [q[0]] + (q' + later) == q + (mine + later);
    } else if cut {
      assert [] + more + left == more + left && q' + later == q' && q + (mine + later) == q;
    } else {
      assert [] + more + left == more + left && q' + later == q + (mine + later);
    }
  }

  /** Every abort that found its request pending is followed by a message to the service. */
  lemma {:induction false} AbortsAreSent(s: State, run: seq<Action>, id: Id)
    requires Allowed(s, run)
    ensures Times(run, AbortSend(id)) + After(s, run).c.aborting[id] == s.c.aborting[id] + Times(run, Abort(id))
    decreases |run|
  {
    if run != [] { AbortsAreSent(Step(s, run[0]), run[1..], id); }
  }

  // ----- responses

  /** The responses on their way: from the tasks to the writer, and from there to the reader. */
  function OnTheWay(s: State): seq<Id> {
    s.w.toClient + s.v.out
  }

  lemma {:induction false} WriteMoves(s: State)
    requires Enabled(s, Write)
    ensures OnTheWay(Step(s, Write)) == OnTheWay(s)
  {
    assert s.v.out == [s.v.out[0]] + s.v.out[1..];
  }

  lemma {:induction false} ReceiveMoves(s: State)
    requires Enabled(s, Receive)
    ensures OnTheWay(s) == [s.w.toClient[0]] + OnTheWay(Step(s, Receive))
  {
    assert s.w.toClient == [s.w.toClient[0]] + s.w.toClient[1..];
  }

  lemma {:induction false} AnswerMoves(s: State, g: Gen)
    requires Enabled(s, Answer(g))
    ensures OnTheWay(Step(s, Answer(g))) == OnTheWay(s) + [s.v.wanted[g]]
  {
  }

  lemma {:induction false} OthersMoveNothing(s: State, a: Action)
    requires Enabled(s, a) && !a.Write? && !a.Receive? && !a.Answer?
    ensures WireStep(s, a).toClient == s.w.toClient && ServerStep(s, a).out == s.v.out
  {
  }

  lemma {:induction false} OneMoveOfResponses(s: State, a: Action)
    requires Enabled(s, a)
    ensures GotBy(s, a) + OnTheWay(Step(s, a)) == OnTheWay(s) + AnsweredBy(s, a)
  {
    if a.Receive? {
      ReceiveMoves(s);
    } else if a.Answer? {
      AnswerMoves(s, a.gen);
    } else if a.Write? {
      WriteMoves(s);
    } else {
      OthersMoveNothing(s, a);
    }
  }

  /** The client receives what the tasks answered, in order and nothing else. */
  lemma {:induction false} ResponsesInOrder(s: State, run: seq<Action>)
    requires Allowed(s, run)
    ensures Received(s, run) + OnTheWay(After(s, run)) == OnTheWay(s) + Answered(s, run)
    decreases |run|
  {
    if run == [] {
      assert [] + OnTheWay(s) == OnTheWay(s) + [];
    } else {
      var s' := Step(s, run[0]);
      OneMoveOfResponses(s, run[0]);
      ResponsesInOrder(s', run[1..]);
      Regrouped(GotBy(s, run[0]), Received(s', run[1..]), OnTheWay(After(s, run)), OnTheWay(s'), OnTheWay(s),
        AnsweredBy(s, run[0]), Answered(s', run[1..]));
    }
  }

  lemma {:induction false} Regrouped(a: seq<Id>, b: seq<Id>, left: seq<Id>, mid: seq<Id>, from: seq<Id>, c: seq<Id>,
      d: seq<Id>)
    requires b + left == mid + d && a + mid == from + c
    ensures a + b + left == from + (c + d)
  {
    assert a + b + left == a + (b + left) == a + mid + d == from + c + d;
  }

  // ----- the service answers what it was asked and not told to abort

  /** A task that has not finished its request is registered for it, or was cancelled. */
  ghost predicate Registered(v: Server) {
    forall g :: g in v.working ==> g in v.cancelled || (v.working[g] in v.inflight && v.inflight[v.working[g]] == g)
  }

  ghost predicate Accounted(v: Server) {
    Registered(v) && forall g :: 0 <= g < v.gen ==> g in v.working || g in v.answered || g in v.cancelled
  }

  lemma {:induction false} HandledAccounted(v: Server, m: Msg)
    requires Tasks(v) && Accounted(v)
    ensures Accounted(Handled(v, m))
  {
  }

  lemma {:induction false} AccountedStep(s: State, a: Action)
    requires Inv(s) && Accounted(s.v) && Enabled(s, a)
    ensures Accounted(ServerStep(s, a))
  {
    if a.Serve? { HandledAccounted(s.v, s.w.toService[0]); }
  }

  lemma {:induction false} RunAccounted(s: State, run: seq<Action>)
    requires Inv(s) && Accounted(s.v) && Allowed(s, run)
    ensures Inv(After(s, run)) && Accounted(After(s, run).v)
    decreases |run|
  {
    if run != [] {
      InvStep(s, run[0]);
      AccountedStep(s, run[0]);
      RunAccounted(Step(s, run[0]), run[1..]);
    }
  }

  /** When everything has drained, every task has answered, once, or was cancelled, and not both. */
  lemma {:induction false} EveryTaskAnswers(s: State, run: seq<Action>, g: Gen)
    requires Init(s) && Allowed(s, run) && Drained(After(s, run)) && g < After(s, run).v.gen
    ensures After(s, run).v.answered[g] == if g in After(s, run).v.cancelled then 0 else 1
  {
    InitInv(s);
    RunAccounted(s, run);
    NotWorking(After(s, run), g);
    AnsweredOrCancelled(After(s, run).v, g);
  }

  lemma {:induction false} NotWorking(t: State, g: Gen)
    requires Drained(t)
    ensures g !in t.v.working
  {
    assert !Enabled(t, TaskDone(g));
  }

  lemma {:induction false} AnsweredOrCancelled(v: Server, g: Gen)
    requires Tasks(v) && Accounted(v) && g < v.gen && g !in v.working
    ensures v.answered[g] == if g in v.cancelled then 0 else 1
  {
  }

  lemma {:induction false} CancelledStays(s: State, run: seq<Action>, g: Gen)
    requires Allowed(s, run) && g in s.v.cancelled
    ensures g in After(s, run).v.cancelled
    decreases |run|
  {
    if run != [] { CancelledStays(Step(s, run[0]), run[1..], g); }
  }

  /** When the service reads an abort, or another fetch with an id that is in use, whatever task it had for this
      request never answers. */
  lemma {:induction false} ServedCancels(s: State, run: seq<Action>)
    requires Inv(s) && Enabled(s, Serve) && s.w.toService[0].id in s.v.inflight && Allowed(Step(s, Serve), run)
    ensures After(Step(s, Serve), run).v.answered[s.v.inflight[s.w.toService[0].id]] == 0
  {
    var g := s.v.inflight[s.w.toService[0].id];
    InvStep(s, Serve);
    assert g in Step(s, Serve).v.cancelled;
    CancelledStays(Step(s, Serve), run, g);
    RunInv(Step(s, Serve), run);
  }

  // ----- a connection that nothing breaks

  /** The service is there and the connection does not break. */
  predicate Unbroken(run: seq<Action>) {
    forall i :: 0 <= i < |run| ==> !run[i].Break? && !run[i].ConnectFail? && !run[i].ConnectPart?
  }

  predicate Up(w: Wire) {
    w.reader == Connecting || w.link
  }

  /** It lasts while nothing breaks it. */
  lemma {:induction false} StaysUp(s: State, run: seq<Action>)
    requires Inv(s) && Allowed(s, run) && Up(s.w) && Unbroken(run)
    ensures Up(After(s, run).w) && After(s, run).c.connected
    decreases |run|
  {
    if run != [] {
      InvStep(s, run[0]);
      assert Unbroken(run[1..]);
      StaysUp(Step(s, run[0]), run[1..]);
    }
  }

  /** And once it is broken it does not come back. */
  lemma {:induction false} BrokenForGood(s: State, run: seq<Action>)
    requires Inv(s) && Enabled(s, Break) && Allowed(Step(s, Break), run)
    ensures !Up(After(Step(s, Break), run).w)
  {
    InvStep(s, Break);
    DownStaysDown(Step(s, Break), run);
  }

  lemma {:induction false} NoWayUp(s: State, a: Action)
    requires Channel(s) && Enabled(s, a) && !Up(s.w)
    ensures !Up(WireStep(s, a))
  {
  }

  lemma {:induction false} DownStaysDown(s: State, run: seq<Action>)
    requires Inv(s) && Allowed(s, run) && !Up(s.w)
    ensures !Up(After(s, run).w)
    decreases |run|
  {
    if run != [] {
      InvStep(s, run[0]);
      NoWayUp(s, run[0]);
      DownStaysDown(Step(s, run[0]), run[1..]);
    }
  }

  /** A callback is dropped by an abort of its request and by nothing else. */
  lemma {:induction false} DroppedByAbort(s: State, run: seq<Action>, id: Id)
    requires Allowed(s, run)
    ensures id in After(s, run).c.dropped <==> id in s.c.dropped || Abort(id) in run
    decreases |run|
  {
    if run != [] {
      assert Abort(id) in run <==> run[0] == Abort(id) || Abort(id) in run[1..];
      DroppedByAbort(Step(s, run[0]), run[1..], id);
    }
  }

  /** The callback of `id` was not run, or about to be, before a response was received. */
  ghost predicate NotBefore(s: State, id: Id, received: bool) {
    && id !in s.c.failing && id !in s.c.sentErr
    && (id in s.c.claimed || id in s.c.dispatched || s.w.reader == Got(id) ==> received)
  }

  lemma {:induction false} NotBeforeByClient(s: State, a: Action, id: Id, received: bool)
    requires Channel(s) && s.c.connected && Enabled(s, a) && Up(s.w) && NotBefore(s, id, received)
    requires ByClientThread(a) && a != TooBig(id)
    ensures NotBefore(Step(s, a), id, received)
  {
    assert !a.SendErr?;
  }

  lemma {:induction false} NotBeforeByReader(s: State, a: Action, id: Id, received: bool)
    requires Channel(s) && s.c.connected && Enabled(s, a) && Up(s.w) && NotBefore(s, id, received) && ByReader(a)
    ensures NotBefore(Step(s, a), id, received || (a == Receive && s.w.toClient[0] == id))
  {
    assert !a.Drain?;
  }

  lemma {:induction false} NotBeforeStep(s: State, a: Action, id: Id, received: bool)
    requires Channel(s) && Enabled(s, a) && Up(s.w) && NotBefore(s, id, received) && a != TooBig(id)
    ensures NotBefore(Step(s, a), id, received || (a == Receive && s.w.toClient[0] == id))
  {
    assert s.c.connected;
    if ByClientThread(a) {
      NotBeforeByClient(s, a, id, received);
    } else if ByReader(a) {
      NotBeforeByReader(s, a, id, received);
    } else {
      assert ClientStep(s, a) == s.c && WireStep(s, a).reader == s.w.reader;
    }
  }

  lemma {:induction false} NotBeforeRun(s: State, run: seq<Action>, id: Id, received: bool)
    requires Inv(s) && Allowed(s, run) && Up(s.w) && Unbroken(run) && TooBig(id) !in run && NotBefore(s, id, received)
    ensures NotBefore(After(s, run), id, received || id in Received(s, run))
    decreases |run|
  {
    if run != [] {
      var a := run[0];
      InvStep(s, a);
      NotBeforeStep(s, a, id, received);
      StaysUp(s, [a]);
      assert After(s, [a]) == Step(s, a);
      NotBeforeRun(Step(s, a), run[1..], id, received || (a == Receive && s.w.toClient[0] == id));
    }
  }

  /** While nothing breaks the connection, every request that fits a frame and is not aborted is answered by the
      service, its response is received, and that runs its callback, once. */
  lemma {:induction false} AnsweredByService(s: State, run: seq<Action>, id: Id)
    requires Init(s) && s.w.reader != NotRunning && Allowed(s, run) && Unbroken(run)
    requires TooBig(id) !in run && Abort(id) !in run && Drained(After(s, run)) && id < After(s, run).c.next
    ensures After(s, run).c.dispatched[id] == 1 && id in Received(s, run) && id in Answered(s, run)
  {
    InitInv(s);
    ExactlyOnce(s, run, id);
    DroppedByAbort(s, run, id);
    NotBeforeRun(s, run, id, false);
    ResponsesInOrder(s, run);
    assert OnTheWay(s) + Answered(s, run) == Answered(s, run);
  }
}
