/**
 Fetch and abort across the two processes: client threads, the client's reader thread, the
 framed channel, the service's reader, its tasks and its writer, all interleaved. One step is
 one lock region, one atomic load or store, or one channel operation.
 */
module NetProtocol {

  type Id = nat
  type Gen = nat

  datatype Msg = FetchMsg(id: Id) | AbortMsg(id: Id)

  /** The client: its threads inside `fetch_inner` by the point they have reached, and where
      the callbacks are. */
  datatype Client = Client(
    next: Id,
    begun: set<Id>,         // id taken, `connected` not yet read
    checked: set<Id>,       // `connected` was true, callback not yet registered
    registered: set<Id>,    // callback registered, request not yet sent
    sentOk: set<Id>,        // sent, `connected` not yet read again
    sentErr: set<Id>,       // the channel refused the request
    failing: set<Id>,       // about to take the callback back out of `pending`
    aborting: multiset<Id>, // threads in `abort` that found the request and have not sent Abort
    connected: bool,
    pending: set<Id>,
    claimed: multiset<Id>,    // taken out, about to be run
    dispatched: multiset<Id>, // run
    dropped: multiset<Id>)    // dropped by an abort that found them pending

  /** The client's sending half: queueing until the service accepts, then open, then closed. */
  datatype SendState = Queueing | Open | Closed

  /** The client's reader thread. `Got` holds a response it has read and not yet handled. */
  datatype Reader = NotRunning | Connecting | Idle | Got(id: Id) | Lost | Shut | Marked | Done

  datatype Wire = Wire(
    background: bool, // connected in the background, or right away
    chan: SendState,
    link: bool,       // the transport carries frames
    toService: seq<Msg>,
    toClient: seq<Id>,
    reader: Reader)

  datatype Phase = Absent | Serving | Gone

  datatype Server = Server(
    phase: Phase,
    gen: Gen,
    inflight: map<Id, Gen>,
    working: map<Gen, Id>, // tasks that have not finished their request
    wanted: map<Gen, Id>,  // tasks that were still registered and are about to answer
    cancelled: set<Gen>,   // tasks aborted or superseded
    answered: multiset<Gen>,
    out: seq<Id>,
    writer: bool)

  datatype State = State(c: Client, w: Wire, v: Server)

  datatype Action =
    // from outside
    | Start | Abort(id: Id) | Break
    // client threads
    | CheckOk(id: Id) | CheckFail(id: Id) | Register(id: Id) | SendOk(id: Id) | SendErr(id: Id) | TooBig(id: Id)
    | RecheckOk(id: Id) | RecheckFail(id: Id) | TakeBack(id: Id) | AbortSend(id: Id) | Dispatch(id: Id)
    // client reader thread
    | Connect | ConnectFail | ConnectPart(k: nat) | Receive | Handle | Lose | CloseSender | Mark | Drain
    // service
    | Serve | Leave | TaskDone(gen: Gen) | TaskStopped(gen: Gen) | Answer(gen: Gen) | Write | WriteFail

  predicate Internal(a: Action) {
    !a.Start? && !a.Abort? && !a.Break?
  }

  predicate Enabled(s: State, a: Action) {
    match a
    case Start => true
    case Abort(id) => id in s.c.pending
    case Break => s.w.link
    case CheckOk(id) => id in s.c.begun && s.c.connected
    case CheckFail(id) => id in s.c.begun && !s.c.connected
    case Register(id) => id in s.c.checked
    case SendOk(id) => id in s.c.registered && s.w.chan != Closed
    case SendErr(id) => id in s.c.registered && (s.w.chan == Closed || (s.w.chan == Open && !s.w.link))
    case TooBig(id) => id in s.c.registered
    case RecheckOk(id) => id in s.c.sentOk && s.c.connected
    case RecheckFail(id) => id in s.c.sentErr || (id in s.c.sentOk && !s.c.connected)
    case TakeBack(id) => id in s.c.failing
    case AbortSend(id) => id in s.c.aborting
    case Dispatch(id) => id in s.c.claimed
    case Connect => s.w.reader == Connecting
    case ConnectFail => s.w.reader == Connecting
    case ConnectPart(k) => s.w.reader == Connecting && k <= |s.w.toService|
    case Receive => s.w.reader == Idle && s.w.toClient != []
    case Handle => s.w.reader.Got?
    case Lose => s.w.reader == Idle && !s.w.link
    case CloseSender => s.w.reader == Lost
    case Mark => s.w.reader == Shut
    case Drain => s.w.reader == Marked
    case Serve => s.v.phase == Serving && s.w.toService != []
    case Leave => s.v.phase == Serving && !s.w.link
    case TaskDone(g) => g in s.v.working
    case TaskStopped(g) => g in s.v.working && g in s.v.cancelled
    case Answer(g) => g in s.v.wanted
    case Write => s.v.out != [] && s.v.writer && s.w.link
    case WriteFail => s.v.out != [] && s.v.writer && !s.w.link
  }

  /** `pending.lock().remove(id)`, then hand what was there to `callbacks.run`. */
  function Claim(c: Client, id: Id): Client {
    if id in c.pending then c.(pending := c.pending - {id}, claimed := c.claimed + multiset{id}) else c
  }

  function ClientStep(s: State, a: Action): Client
    requires Enabled(s, a)
  {
    var c := s.c;
    match a
    case Start => c.(next := c.next + 1, begun := c.begun + {c.next})
    case Abort(id) =>
      c.(pending := c.pending - {id}, dropped := c.dropped + multiset{id}, aborting := c.aborting + multiset{id})
    case CheckOk(id) => c.(begun := c.begun - {id}, checked := c.checked + {id})
    case CheckFail(id) => c.(begun := c.begun - {id}, claimed := c.claimed + multiset{id})
    case Register(id) => c.(checked := c.checked - {id}, registered := c.registered + {id}, pending := c.pending + {id})
    case SendOk(id) => c.(registered := c.registered - {id}, sentOk := c.sentOk + {id})
    case SendErr(id) => c.(registered := c.registered - {id}, sentErr := c.sentErr + {id})
    case TooBig(id) => c.(registered := c.registered - {id}, failing := c.failing + {id})
    case RecheckOk(id) => c.(sentOk := c.sentOk - {id})
    case RecheckFail(id) => c.(sentOk := c.sentOk - {id}, sentErr := c.sentErr - {id}, failing := c.failing + {id})
    case TakeBack(id) => Claim(c, id).(failing := c.failing - {id})
    case AbortSend(id) => c.(aborting := c.aborting - multiset{id})
    case Dispatch(id) => c.(claimed := c.claimed - multiset{id}, dispatched := c.dispatched + multiset{id})
    case Handle => Claim(c, s.w.reader.id)
    case Mark => c.(connected := false)
    case Drain => c.(pending := {}, claimed := c.claimed + multiset(c.pending))
    case _ => c
  }

  /** The queue is there and takes messages, but nobody will write it out any more. */
  predicate Orphaned(w: Wire) {
    w.chan == Queueing && w.reader == Lost
  }

  /** `ConnectPart` is a connection that breaks while the queue is written: the service gets the first `k`
      messages, and the rest of the queue is gone. */
  function WireStep(s: State, a: Action): Wire
    requires Enabled(s, a)
  {
    var w := s.w;
    match a
    case Break => w.(link := false)
    case SendOk(id) => if Orphaned(w) then w else w.(toService := w.toService + [FetchMsg(id)])
    case AbortSend(id) =>
      if w.chan == Closed || Orphaned(w) then w else w.(toService := w.toService + [AbortMsg(id)])
    case Connect => w.(chan := Open, link := true, reader := Idle)
    case ConnectFail => w.(reader := Lost)
    case ConnectPart(k) => w.(reader := Lost, toService := w.toService[..k])
    case Receive => w.(reader := Got(w.toClient[0]), toClient := w.toClient[1..])
    case Handle => w.(reader := Idle)
    case Lose => w.(reader := Lost)
    case CloseSender => w.(reader := Shut, chan := if w.background then Closed else w.chan)
    case Mark => w.(reader := Marked)
    case Drain => w.(reader := Done)
    case Serve => w.(toService := w.toService[1..])
    case Write => w.(toClient := w.toClient + [s.v.out[0]])
    case _ => w
  }

  function ServerStep(s: State, a: Action): Server
    requires Enabled(s, a)
  {
    var v := s.v;
    match a
    case Connect => v.(phase := Serving)
    case ConnectPart(_) => v.(phase := Serving)
    case Serve => Handled(v, s.w.toService[0])
    case Leave => v.(phase := Gone, cancelled := v.cancelled + v.inflight.Values, inflight := map[])
    case TaskDone(g) =>
      var id := v.working[g];
      var rest := v.(working := v.working - {g});
      if id in v.inflight && v.inflight[id] == g
      then rest.(inflight := v.inflight - {id}, wanted := v.wanted[g := id], answered := v.answered + multiset{g})
      else rest
    case TaskStopped(g) => v.(working := v.working - {g})
    case Answer(g) => v.(wanted := v.wanted - {g}, out := v.out + [v.wanted[g]])
    case Write => v.(out := v.out[1..])
    case WriteFail => v.(writer := false)
    case _ => v
  }

  /** `handle_message` in the service. */
  function Handled(v: Server, m: Msg): Server {
    match m
    case FetchMsg(id) =>
      v.(gen := v.gen + 1,
         working := v.working[v.gen := id],
         cancelled := if id in v.inflight then v.cancelled + {v.inflight[id]} else v.cancelled,
         inflight := v.inflight[id := v.gen])
    case AbortMsg(id) =>
      if id in v.inflight then v.(cancelled := v.cancelled + {v.inflight[id]}, inflight := v.inflight - {id}) else v
  }

  function Step(s: State, a: Action): State
    requires Enabled(s, a)
  {
    State(ClientStep(s, a), WireStep(s, a), ServerStep(s, a))
  }

  /** No request yet; connecting in the background, connected right away, or unable to start
      the reader thread, in which case the sender is closed from the start. */
  predicate Init(s: State) {
    && s.c == Client(0, {}, {}, {}, {}, {}, {}, multiset{}, true, {}, multiset{}, multiset{}, multiset{})
    && (|| (s.w == Wire(true, Queueing, false, [], [], Connecting) && s.v.phase == Absent)
        || (s.w == Wire(true, Closed, false, [], [], NotRunning) && s.v.phase == Absent)
        || (s.w == Wire(false, Open, true, [], [], Idle) && s.v.phase == Serving))
    && s.v == Server(s.v.phase, 0, map[], map[], map[], {}, multiset{}, [], true)
  }

  // ----- invariants

  function Count(b: bool): nat {
    if b then 1 else 0
  }

  /** In how many places the callback of `id` is. */
  ghost function Places(c: Client, id: Id): nat {
    Count(id in c.begun) + Count(id in c.checked) + Count(id in c.pending)
    + c.claimed[id] + c.dispatched[id] + c.dropped[id]
  }

  /** Every callback handed to `fetch` is in exactly one place, and no other exists. */
  ghost predicate Conserved(c: Client) {
    forall id: Id :: Places(c, id) == Count(id < c.next)
  }

  /** Each thread in `fetch_inner` is at one point. */
  ghost predicate Threads(c: Client) {
    && c.begun !! c.checked !! c.registered !! c.sentOk !! c.sentErr !! c.failing
    && (forall id :: id in c.registered || id in c.sentOk || id in c.sentErr || id in c.failing ==> id < c.next)
  }

  ghost predicate Channel(s: State) {
    var c, w, v := s.c, s.w, s.v;
    && (w.link ==> w.chan == Open && v.phase == Serving && (w.reader == Idle || w.reader.Got?))
    && (w.reader == Connecting ==> w.chan == Queueing && v.phase == Absent && v.writer)
    && (w.chan == Queueing ==> w.reader == Connecting || w.reader == Lost)
    && (w.reader == Marked || w.reader == Done ==> !c.connected)
    && (c.connected || w.reader == Marked || w.reader == Done)
    && (w.reader == NotRunning ==> w.chan == Closed && c.sentOk == {})
    && (w.background && (w.reader == Shut || w.reader == Marked || w.reader == Done) ==> w.chan == Closed)
    && (w.background || (w.chan == Open && w.reader != Connecting && w.reader != NotRunning))
    && (!v.writer ==> !w.link)
    && (v.phase == Gone ==> !w.link)
    && (v.phase == Absent ==> w.reader != Idle && !w.reader.Got?)
  }

  /** Registered generations belong to running tasks nobody cancelled; a task answers at most
      once, and a cancelled one never. */
  ghost predicate Tasks(v: Server) {
    && (forall id :: id in v.inflight ==>
      v.inflight[id] in v.working && v.working[v.inflight[id]] == id && v.inflight[id] !in v.cancelled)
    && (forall g :: g in v.working || g in v.wanted || g in v.cancelled || g in v.answered ==> g < v.gen)
    && (forall g :: g in v.working ==> g !in v.answered)
    && (forall g :: g in v.wanted ==> g in v.answered)
    && (forall g: Gen :: v.answered[g] <= 1)
    && (forall g :: g in v.cancelled ==> g !in v.answered)
    && (v.phase == Gone ==> v.inflight == map[])
    && (v.phase == Absent ==> v.gen == 0 && v.inflight == map[] && v.out == [])
  }

  /** An Abort is on its way only for a callback that an abort has dropped. */
  ghost predicate Aborts(c: Client, w: Wire) {
    && (forall id :: id in c.aborting ==> id in c.dropped)
    && (forall m :: m in w.toService && m.AbortMsg? ==> m.id in c.dropped)
  }

  /** The reader thread is on its way to failing everything that is pending. */
  predicate Doomed(w: Wire) {
    w.reader == Lost || w.reader == Shut || w.reader == Marked || ((w.reader == Idle || w.reader.Got?) && !w.link)
  }

  /** The request or its response is somewhere between the client's send and its reader. */
  ghost predicate Travelling(w: Wire, v: Server, id: Id) {
    || (FetchMsg(id) in w.toService && v.phase != Gone)
    || id in v.inflight
    || (exists g :: g in v.wanted && v.wanted[g] == id)
    || (id in v.out && v.writer)
    || id in w.toClient
    || w.reader == Got(id)
  }

  /** Somebody will take the callback of `id` out of `pending`. */
  ghost predicate Owed(s: State, id: Id) {
    || id in s.c.registered || id in s.c.sentErr || id in s.c.failing
    || (id in s.c.sentOk && s.w.reader == Done)
    || Doomed(s.w)
    || (s.w.reader != Done && s.w.reader != NotRunning && Travelling(s.w, s.v, id))
  }

  ghost predicate NothingStranded(s: State) {
    forall id :: id in s.c.pending ==> Owed(s, id)
  }

  ghost predicate Inv(s: State) {
    Conserved(s.c) && Threads(s.c) && Channel(s) && Tasks(s.v) && Aborts(s.c, s.w) && NothingStranded(s)
  }

  lemma {:induction false} InitInv(s: State)
    requires Init(s)
    ensures Inv(s)
  {
  }

  /** The part of `fetch_inner` up to and including the send. */
  predicate UpToSend(a: Action) {
    a.Start? || a.CheckOk? || a.CheckFail? || a.Register? || a.SendOk? || a.SendErr? || a.TooBig?
  }

  lemma {:induction false} PlacesUpToSend(s: State, a: Action, id: Id)
    requires Conserved(s.c) && Threads(s.c) && Enabled(s, a) && UpToSend(a)
    ensures Places(ClientStep(s, a), id) == Count(id < ClientStep(s, a).next)
  {
    assert Places(s.c, id) == Count(id < s.c.next);
  }

  lemma {:induction false} PlacesAfterSend(s: State, a: Action, id: Id)
    requires Conserved(s.c) && Enabled(s, a) && !UpToSend(a)
    ensures Places(ClientStep(s, a), id) == Count(id < ClientStep(s, a).next)
  {
    assert Places(s.c, id) == Count(id < s.c.next);
  }

  lemma {:induction false} ConservedStep(s: State, a: Action)
    requires Conserved(s.c) && Threads(s.c) && Enabled(s, a)
    ensures Conserved(ClientStep(s, a))
  {
    forall id: Id ensures Places(ClientStep(s, a), id) == Count(id < ClientStep(s, a).next) {
      if UpToSend(a) { PlacesUpToSend(s, a, id); } else { PlacesAfterSend(s, a, id); }
    }
  }

  lemma {:induction false} ThreadsUpToSend(s: State, a: Action)
    requires Inv(s) && Enabled(s, a) && UpToSend(a)
    ensures Threads(ClientStep(s, a))
  {
    assert Places(s.c, s.c.next) == 0;
    if a.Register? { assert Places(s.c, a.id) == Count(a.id < s.c.next); }
  }

  lemma {:induction false} ThreadsAfterSend(s: State, a: Action)
    requires Inv(s) && Enabled(s, a) && !UpToSend(a)
    ensures Threads(ClientStep(s, a))
  {
  }

  lemma {:induction false} ThreadsStep(s: State, a: Action)
    requires Inv(s) && Enabled(s, a)
    ensures Threads(ClientStep(s, a))
  {
    if UpToSend(a) { ThreadsUpToSend(s, a); } else { ThreadsAfterSend(s, a); }
  }

  lemma {:induction false} ChannelStep(s: State, a: Action)
    requires Channel(s) && Tasks(s.v) && Enabled(s, a)
    ensures Channel(Step(s, a))
  {
    if ByReader(a) { ChannelByReader(s, a); } else { ChannelByOthers(s, a); }
  }

  predicate ByReader(a: Action) {
    a.Connect? || a.ConnectFail? || a.ConnectPart? || a.Receive? || a.Handle? || a.Lose? || a.CloseSender? || a.Mark?
    || a.Drain?
  }

  lemma {:induction false} ChannelByReader(s: State, a: Action)
    requires Channel(s) && Tasks(s.v) && Enabled(s, a) && ByReader(a)
    ensures Channel(Step(s, a))
  {
  }

  lemma {:induction false} ChannelByOthers(s: State, a: Action)
    requires Channel(s) && Tasks(s.v) && Enabled(s, a) && !ByReader(a)
    ensures Channel(Step(s, a))
  {
  }

  lemma {:induction false} HandledTasks(v: Server, m: Msg)
    requires Tasks(v) && v.phase == Serving
    ensures Tasks(Handled(v, m))
  {
  }

  lemma {:induction false} TaskDoneTasks(s: State, g: Gen)
    requires Tasks(s.v) && Enabled(s, TaskDone(g))
    ensures Tasks(ServerStep(s, TaskDone(g)))
  {
  }

  lemma {:induction false} TasksStep(s: State, a: Action)
    requires Inv(s) && Enabled(s, a)
    ensures Tasks(ServerStep(s, a))
  {
    if a.Serve? {
      HandledTasks(s.v, s.w.toService[0]);
    } else if a.TaskDone? {
      TaskDoneTasks(s, a.gen);
    }
  }

  lemma {:induction false} DroppedGrows(s: State, a: Action, id: Id)
    requires Enabled(s, a)
    ensures id in s.c.dropped ==> id in ClientStep(s, a).dropped
    ensures id in ClientStep(s, a).aborting && id !in s.c.aborting ==> id in ClientStep(s, a).dropped
  {
  }

  lemma {:induction false} MessageOrigin(s: State, a: Action, m: Msg)
    requires Enabled(s, a) && m in WireStep(s, a).toService && m.AbortMsg?
    ensures m in s.w.toService || m.id in s.c.aborting
  {
  }

  lemma {:induction false} AbortsStep(s: State, a: Action)
    requires Inv(s) && Enabled(s, a)
    ensures Aborts(ClientStep(s, a), WireStep(s, a))
  {
    forall id | id in ClientStep(s, a).aborting ensures id in ClientStep(s, a).dropped {
      DroppedGrows(s, a, id);
    }
    forall m | m in WireStep(s, a).toService && m.AbortMsg? ensures m.id in ClientStep(s, a).dropped {
      MessageOrigin(s, a, m);
      DroppedGrows(s, a, m.id);
    }
  }

  predicate ByTask(a: Action) {
    a.TaskDone? || a.TaskStopped? || a.Answer?
  }

  lemma {:induction false} TravellingByTask(s: State, a: Action, id: Id)
    requires Inv(s) && Enabled(s, a) && ByTask(a) && Travelling(s.w, s.v, id)
    requires s.w.reader != Done && s.w.reader != NotRunning
    ensures Travelling(s.w, ServerStep(s, a), id) || Doomed(s.w)
  {
    match a
    case TaskDone(g) =>
      assert forall k :: k in s.v.wanted ==>
        k in ServerStep(s, a).wanted && ServerStep(s, a).wanted[k] == s.v.wanted[k];
      if id in s.v.inflight && s.v.inflight[id] == g { assert g in ServerStep(s, a).wanted; }
    case Answer(g) =>
      assert s.v.wanted[g] in ServerStep(s, a).out;
      assert forall k :: k in s.v.out ==> k in ServerStep(s, a).out;
      assert forall k :: k in s.v.wanted && k != g ==>
        k in ServerStep(s, a).wanted && ServerStep(s, a).wanted[k] == s.v.wanted[k];
    case _ =>
  }

  /** A travelling request goes on travelling, reaches the reader, or the reader gives up. */
  lemma {:induction false} TravellingStep(s: State, a: Action, id: Id)
    requires Inv(s) && Enabled(s, a) && Travelling(s.w, s.v, id) && id !in s.c.dropped
    requires s.w.reader != Done && s.w.reader != NotRunning
    ensures var w', v' := WireStep(s, a), ServerStep(s, a);
      Travelling(w', v', id) || Doomed(w') || w'.reader == Done || (a == Handle && s.w.reader == Got(id))
  {
    if ByTask(a) {
      TravellingByTask(s, a, id);
    } else if a.Serve? {
      assert s.w.toService == [s.w.toService[0]] + s.w.toService[1..];
      assert s.w.toService[0] in s.w.toService;
    } else if a.Write? {
      assert s.v.out == [s.v.out[0]] + s.v.out[1..];
    } else if a.Receive? {
      assert s.w.toClient == [s.w.toClient[0]] + s.w.toClient[1..];
    }
  }

  predicate ByClientThread(a: Action) {
    a.Start? || a.Abort? || a.CheckOk? || a.CheckFail? || a.Register? || a.SendOk? || a.SendErr? || a.TooBig?
    || a.RecheckOk? || a.RecheckFail? || a.TakeBack? || a.AbortSend? || a.Dispatch?
  }

  lemma {:induction false} OwedUpToSend(s: State, a: Action, id: Id)
    requires Inv(s) && Enabled(s, a) && UpToSend(a) && id in ClientStep(s, a).pending
    ensures Owed(Step(s, a), id)
  {
    if id in s.c.pending {
      assert forall m :: m in s.w.toService ==> m in WireStep(s, a).toService;
      if a == SendOk(id) && !Orphaned(s.w) { assert FetchMsg(id) in WireStep(s, a).toService; }
    }
  }

  lemma {:induction false} OwedAfterSend(s: State, a: Action, id: Id)
    requires Inv(s) && Enabled(s, a) && ByClientThread(a) && !UpToSend(a) && id in ClientStep(s, a).pending
    ensures Owed(Step(s, a), id)
  {
    assert id in s.c.pending && Owed(s, id);
    assert forall m :: m in s.w.toService ==> m in WireStep(s, a).toService;
  }

  lemma {:induction false} OwedByClientThread(s: State, a: Action, id: Id)
    requires Inv(s) && Enabled(s, a) && ByClientThread(a) && id in ClientStep(s, a).pending
    ensures Owed(Step(s, a), id)
  {
    if UpToSend(a) { OwedUpToSend(s, a, id); } else { OwedAfterSend(s, a, id); }
  }

  lemma {:induction false} OwedByOthers(s: State, a: Action, id: Id)
    requires Inv(s) && Enabled(s, a) && !ByClientThread(a) && id in ClientStep(s, a).pending
    ensures Owed(Step(s, a), id)
  {
    assert id in s.c.pending && Owed(s, id);
    assert Places(s.c, id) == Count(id < s.c.next);
    if s.w.reader != Done && s.w.reader != NotRunning && Travelling(s.w, s.v, id) { TravellingStep(s, a, id); }
  }

  lemma {:induction false} InvStep(s: State, a: Action)
    requires Inv(s) && Enabled(s, a)
    ensures Inv(Step(s, a))
  {
    ConservedStep(s, a);
    ThreadsStep(s, a);
    ChannelStep(s, a);
    TasksStep(s, a);
    AbortsStep(s, a);
    forall id | id in ClientStep(s, a).pending ensures Owed(Step(s, a), id) {
      if ByClientThread(a) { OwedByClientThread(s, a, id); } else { OwedByOthers(s, a, id); }
    }
  }

  // ----- whole runs

  predicate Allowed(s: State, run: seq<Action>)
    decreases |run|
  {
    run == [] || (Enabled(s, run[0]) && Allowed(Step(s, run[0]), run[1..]))
  }

  function After(s: State, run: seq<Action>): State
    requires Allowed(s, run)
    decreases |run|
  {
    if run == [] then s else After(Step(s, run[0]), run[1..])
  }

  lemma {:induction false} RunInv(s: State, run: seq<Action>)
    requires Inv(s) && Allowed(s, run)
    ensures Inv(After(s, run))
    decreases |run|
  {
    if run != [] {
      InvStep(s, run[0]);
      RunInv(Step(s, run[0]), run[1..]);
    }
  }

  /** In every interleaving a callback is run at most once, and never if an abort found it pending. */
  lemma {:induction false} AtMostOnce(s: State, run: seq<Action>, id: Id)
    requires Init(s) && Allowed(s, run)
    ensures var c := After(s, run).c; c.dispatched[id] + c.dropped[id] <= 1
  {
    InitInv(s);
    RunInv(s, run);
    var c := After(s, run).c;
    assert Places(c, id) == Count(id < c.next);
  }

  lemma {:induction false} DroppedStays(s: State, run: seq<Action>, id: Id)
    requires Allowed(s, run) && id in s.c.dropped
    ensures id in After(s, run).c.dropped
    decreases |run|
  {
    if run != [] { DroppedStays(Step(s, run[0]), run[1..], id); }
  }

  /** After an abort that found the request pending, nothing that happens later runs the callback. */
  lemma {:induction false} AbortedForGood(s: State, run: seq<Action>, later: seq<Action>, id: Id)
    requires Init(s) && Allowed(s, run) && Enabled(After(s, run), Abort(id))
    requires Allowed(Step(After(s, run), Abort(id)), later)
    ensures id !in After(Step(After(s, run), Abort(id)), later).c.dispatched
  {
    InitInv(s);
    RunInv(s, run);
    var t := Step(After(s, run), Abort(id));
    InvStep(After(s, run), Abort(id));
    assert id in t.c.dropped;
    DroppedStays(t, later, id);
    RunInv(t, later);
    var c := After(t, later).c;
    assert Places(c, id) == Count(id < c.next);
  }

  /** A task whose registration was aborted or superseded never answers, and no task answers twice. */
  lemma {:induction false} CancelledNeverAnswers(s: State, run: seq<Action>, g: Gen)
    requires Init(s) && Allowed(s, run)
    ensures var v := After(s, run).v; v.answered[g] <= 1 && (g in v.cancelled ==> g !in v.answered)
  {
    InitInv(s);
    RunInv(s, run);
  }

  /** No step is left but new requests, new aborts and a breaking link. */
  ghost predicate Drained(s: State) {
    forall a: Action :: Internal(a) ==> !Enabled(s, a)
  }

  lemma {:induction false} DrainedThreads(s: State)
    requires Inv(s) && Drained(s)
    ensures s.c.begun == s.c.checked == s.c.registered == s.c.sentOk == s.c.sentErr == s.c.failing == {}
    ensures s.c.claimed == multiset{}
  {
    forall id: Id ensures id !in s.c.begun && id !in s.c.checked && id !in s.c.registered && id !in s.c.sentOk
                       && id !in s.c.sentErr && id !in s.c.failing && id !in s.c.claimed {
      assert !Enabled(s, CheckOk(id)) && !Enabled(s, CheckFail(id)) && !Enabled(s, Register(id));
      assert !Enabled(s, TooBig(id));
      assert !Enabled(s, RecheckOk(id)) && !Enabled(s, RecheckFail(id)) && !Enabled(s, TakeBack(id));
      assert !Enabled(s, Dispatch(id));
    }
  }

  lemma {:induction false} DrainedReader(s: State)
    requires Channel(s) && Drained(s)
    ensures s.w.reader == Done || s.w.reader == NotRunning || (s.w.reader == Idle && s.w.link && s.w.toClient == [])
  {
    assert !Enabled(s, Connect) && !Enabled(s, Receive) && !Enabled(s, Handle) && !Enabled(s, Lose);
    assert !Enabled(s, CloseSender);
    assert !Enabled(s, Mark) && !Enabled(s, Drain);
  }

  lemma {:induction false} DrainedService(s: State, id: Id)
    requires Inv(s) && Drained(s) && s.w.reader == Idle && s.w.link && s.w.toClient == []
    ensures !Travelling(s.w, s.v, id)
  {
    assert !Enabled(s, Serve) && !Enabled(s, Write);
    forall g: Gen ensures g !in s.v.working && g !in s.v.wanted {
      assert !Enabled(s, TaskDone(g)) && !Enabled(s, Answer(g));
    }
  }

  /** Exactly once: when everything has drained, every callback ever given to `fetch` has been run
      once or was dropped by an abort that found it pending. A disconnect strands nothing. */
  lemma {:induction false} ExactlyOnce(s: State, run: seq<Action>, id: Id)
    requires Init(s) && Allowed(s, run) && Drained(After(s, run)) && id < After(s, run).c.next
    ensures var c := After(s, run).c;
      id !in c.pending && c.dispatched[id] + c.dropped[id] == 1
  {
    InitInv(s);
    RunInv(s, run);
    var t := After(s, run);
    DrainedThreads(t);
    DrainedReader(t);
    if t.w.reader == Idle { DrainedService(t, id); }
    assert Places(t.c, id) == Count(id < t.c.next);
  }

  /** A thread in `fetch_inner` that has not finished with this request. */
  predicate Fetching(c: Client, id: Id) {
    id in c.begun || id in c.checked || id in c.registered || id in c.sentOk || id in c.sentErr || id in c.failing
  }

  /** A disconnect strands nobody: once the reader thread has failed what was pending and the thread that made
      a request is through, whichever way the two were interleaved and whatever else is still going on, the
      callback is out of `pending`: run or about to be, or dropped by an abort, and exactly one of these. */
  lemma {:induction false} DisconnectStrandsNobody(s: State, run: seq<Action>, id: Id)
    requires Init(s) && Allowed(s, run)
    requires var t := After(s, run); t.w.reader == Done && id < t.c.next && !Fetching(t.c, id)
    ensures var c := After(s, run).c; id !in c.pending && c.claimed[id] + c.dispatched[id] + c.dropped[id] == 1
  {
    InitInv(s);
    RunInv(s, run);
    var c := After(s, run).c;
    assert Places(c, id) == Count(id < c.next);
  }

  /** The steps that the reader thread has left after the loss of the connection, and a thread in `fetch_inner`. */
  function ReaderSteps(w: Wire): nat {
    match w.reader case Lost => 3 case Shut => 2 case Marked => 1 case _ => 0
  }

  function FetchSteps(c: Client, id: Id): nat {
    if id in c.begun then 5 else if id in c.checked then 4 else if id in c.registered then 3
    else if id in c.sentOk || id in c.sentErr then 2 else if id in c.failing then 1 else 0
  }

  function StepsLeft(s: State, id: Id): nat {
    ReaderSteps(s.w) + FetchSteps(s.c, id)
  }

  predicate Disconnected(w: Wire) {
    w.reader == Lost || w.reader == Shut || w.reader == Marked || w.reader == Done
  }

  /** Nobody's step adds to them. */
  lemma {:induction false} StepsOnlyGo(s: State, a: Action, id: Id)
    requires Threads(s.c) && Enabled(s, a) && Disconnected(s.w) && id < s.c.next
    ensures Disconnected(Step(s, a).w) && StepsLeft(Step(s, a), id) <= StepsLeft(s, id)
  {
    ReaderOnlyGoes(s, a);
    FetchOnlyGoes(s, a, id);
  }

  lemma {:induction false} ReaderOnlyGoes(s: State, a: Action)
    requires Enabled(s, a) && Disconnected(s.w)
    ensures Disconnected(WireStep(s, a)) && ReaderSteps(WireStep(s, a)) <= ReaderSteps(s.w)
  {
  }

  lemma {:induction false} FetchOnlyGoes(s: State, a: Action, id: Id)
    requires Threads(s.c) && Enabled(s, a) && id < s.c.next
    ensures FetchSteps(ClientStep(s, a), id) <= FetchSteps(s.c, id)
  {
    var c, c' := s.c, ClientStep(s, a);
    if a.Start? { assert c'.begun == c.begun + {c.next} && c.next != id; }
  }

  /** The next step of one of the two threads, if they are not both through. */
  function NextStep(s: State, id: Id): Action {
    if s.w.reader == Lost then CloseSender else if s.w.reader == Shut then Mark else if s.w.reader == Marked then Drain
    else if id in s.c.begun then CheckFail(id) else if id in s.c.checked then Register(id)
    else if id in s.c.registered then if s.w.chan == Closed then SendErr(id) else SendOk(id)
    else if id in s.c.sentOk || id in s.c.sentErr then RecheckFail(id) else TakeBack(id)
  }

  /** After the loss of the connection the two threads get through on their own, whatever the service and the
      other requests do: until then their next step is enabled and leaves fewer. */
  lemma {:induction false} DisconnectGetsDone(s: State, id: Id)
    requires Inv(s) && Disconnected(s.w)
    ensures StepsLeft(s, id) == 0 <==> s.w.reader == Done && !Fetching(s.c, id)
    ensures StepsLeft(s, id) > 0 ==>
      Enabled(s, NextStep(s, id)) && StepsLeft(Step(s, NextStep(s, id)), id) < StepsLeft(s, id)
  {
    if StepsLeft(s, id) > 0 { NextStepCounts(s, id); }
  }

  lemma {:induction false} NextStepCounts(s: State, id: Id)
    requires Threads(s.c) && Channel(s) && Disconnected(s.w) && StepsLeft(s, id) > 0
    ensures Enabled(s, NextStep(s, id)) && StepsLeft(Step(s, NextStep(s, id)), id) < StepsLeft(s, id)
  {
    var a := NextStep(s, id);
    assert Enabled(s, a);
    if s.w.reader == Done {
      assert WireStep(s, a).reader == Done;
    } else {
      assert FetchSteps(ClientStep(s, a), id) == FetchSteps(s.c, id);
    }
  }

  // ----- draining ends

  function MsgWeight(l: seq<Msg>): nat {
    if l == [] then 0 else (if l[0].FetchMsg? then 6 else 1) + MsgWeight(l[1..])
  }

  lemma {:induction false} MsgWeightSnoc(l: seq<Msg>, m: Msg)
    ensures MsgWeight(l + [m]) == MsgWeight(l) + (if m.FetchMsg? then 6 else 1)
  {
    if l == [] {
      assert [m][1..] == [];
    } else {
      MsgWeightSnoc(l[1..], m);
      assert (l + [m])[1..] == l[1..] + [m];
    }
  }

  lemma {:induction false} MsgWeightFront(l: seq<Msg>, k: nat)
    requires k <= |l|
    ensures MsgWeight(l[..k]) <= MsgWeight(l)
  {
    if k > 0 {
      MsgWeightFront(l[1..], k - 1);
      assert l[..k][1..] == l[1..][..k - 1];
    }
  }

  function ReaderWeight(r: Reader): nat {
    match r
    case NotRunning => 0 case Connecting => 6 case Idle => 4 case Got(_) => 5
    case Lost => 3 case Shut => 2 case Marked => 1 case Done => 0
  }

  function ClientWeight(c: Client): nat {
    13 * |c.begun| + 12 * |c.checked| + 9 * |c.registered| + 2 * |c.sentOk| + 2 * |c.sentErr| + |c.failing|
    + 2 * |c.aborting| + 2 * |c.pending| + |c.claimed|
  }

  function WireWeight(w: Wire): nat {
    MsgWeight(w.toService) + 2 * |w.toClient| + ReaderWeight(w.reader)
  }

  function ServerWeight(v: Server): nat {
    5 * |v.working| + 4 * |v.wanted| + 3 * |v.out| + Count(v.phase != Gone) + Count(v.writer)
  }

  function Weight(s: State): nat {
    ClientWeight(s.c) + WireWeight(s.w) + ServerWeight(s.v)
  }

  lemma {:induction false} SetLess<T>(s: set<T>, x: T)
    ensures |s - {x}| == |s| - Count(x in s)
    ensures |s + {x}| <= |s| + 1
  {
  }

  /** How much an action takes off the client's share at least. */
  function ClientDrop(a: Action): nat {
    match a
    case CheckOk(_) => 1 case CheckFail(_) => 12 case Register(_) => 1 case SendOk(_) => 7 case SendErr(_) => 7
    case TooBig(_) => 8 case RecheckOk(_) => 2 case RecheckFail(_) => 1 case TakeBack(_) => 1
    case AbortSend(_) => 2 case Dispatch(_) => 1 case _ => 0
  }

  lemma {:induction false} ClaimWeight(c: Client, id: Id)
    ensures ClientWeight(Claim(c, id)) <= ClientWeight(c)
  {
    SetLess(c.pending, id);
  }

  lemma {:induction false} RecheckDrop(s: State, id: Id)
    requires Threads(s.c) && Enabled(s, RecheckFail(id))
    ensures ClientWeight(ClientStep(s, RecheckFail(id))) + 1 <= ClientWeight(s.c)
  {
    SetLess(s.c.sentOk, id);
    SetLess(s.c.sentErr, id);
    SetLess(s.c.failing, id);
  }

  lemma {:induction false} DropsUpToSend(s: State, a: Action)
    requires Threads(s.c) && Enabled(s, a) && Internal(a) && UpToSend(a)
    ensures ClientWeight(ClientStep(s, a)) + ClientDrop(a) <= ClientWeight(s.c)
  {
    match a
    case CheckOk(id) => SetLess(s.c.begun, id); SetLess(s.c.checked, id);
    case CheckFail(id) => SetLess(s.c.begun, id);
    case Register(id) => SetLess(s.c.checked, id); SetLess(s.c.registered, id); SetLess(s.c.pending, id);
    case SendOk(id) => SetLess(s.c.registered, id); SetLess(s.c.sentOk, id);
    case SendErr(id) => SetLess(s.c.registered, id); SetLess(s.c.sentErr, id);
    case TooBig(id) => SetLess(s.c.registered, id); SetLess(s.c.failing, id);
    case _ =>
  }

  lemma {:induction false} DropsAfterSend(s: State, a: Action)
    requires Threads(s.c) && Enabled(s, a) && Internal(a) && !UpToSend(a)
    ensures ClientWeight(ClientStep(s, a)) + ClientDrop(a) <= ClientWeight(s.c)
  {
    match a
    case RecheckOk(id) => SetLess(s.c.sentOk, id);
    case RecheckFail(id) => RecheckDrop(s, id);
    case TakeBack(id) => ClaimWeight(s.c, id); SetLess(s.c.failing, id);
    case Handle => ClaimWeight(s.c, s.w.reader.id);
    case _ =>
  }

  lemma {:induction false} WireMoves(s: State, a: Action)
    requires Channel(s) && Enabled(s, a) && Internal(a)
    ensures var d := WireWeight(WireStep(s, a)) - WireWeight(s.w);
      match a
      case SendOk(_) => d <= 6 case AbortSend(_) => d <= 1 case Write => d == 2
      case Serve => d == -(if s.w.toService[0].FetchMsg? then 6 else 1)
      case Connect => d < 0 case ConnectFail => d < 0 case ConnectPart(_) => d < 0
      case Receive => d < 0 case Handle => d < 0 case Lose => d < 0
      case CloseSender => d < 0 case Mark => d < 0 case Drain => d < 0
      case _ => d == 0
  {
    match a
    case SendOk(id) => MsgWeightSnoc(s.w.toService, FetchMsg(id));
    case AbortSend(id) => MsgWeightSnoc(s.w.toService, AbortMsg(id));
    case ConnectPart(k) => MsgWeightFront(s.w.toService, k);
    case _ =>
  }

  lemma {:induction false} ServerMoves(s: State, a: Action)
    requires Inv(s) && Enabled(s, a) && Internal(a)
    ensures var d := ServerWeight(ServerStep(s, a)) - ServerWeight(s.v);
      match a
      case Serve => d <= (if s.w.toService[0].FetchMsg? then 5 else 0)
      case Leave => d < 0 case TaskDone(_) => d < 0 case TaskStopped(_) => d < 0 case Answer(_) => d < 0
      case Write => d == -3 case WriteFail => d < 0
      case _ => d <= 0
  {
    match a
    case TaskDone(g) => TaskMoves(s, a);
    case TaskStopped(g) => TaskMoves(s, a);
    case Answer(g) => TaskMoves(s, a);
    case Serve => if s.w.toService[0].FetchMsg? { MapMore(s.v.working, s.v.gen, s.w.toService[0].id); }
    case _ =>
  }

  lemma {:induction false} TaskMoves(s: State, a: Action)
    requires Enabled(s, a) && ByTask(a)
    ensures ServerWeight(ServerStep(s, a)) < ServerWeight(s.v)
  {
    match a
    case TaskDone(g) => TaskDoneMoves(s.v, g, s.v.working[g]);
    case TaskStopped(g) => MapLess(s.v.working, g);
    case Answer(g) => MapLess(s.v.wanted, g);
  }

  lemma {:induction false} TaskDoneMoves(v: Server, g: Gen, id: Id)
    requires g in v.working && v.working[g] == id
    ensures |v.working - {g}| == |v.working| - 1 && |v.wanted[g := id]| <= |v.wanted| + 1
  {
    MapLess(v.working, g);
    MapMore(v.wanted, g, id);
  }

  lemma {:induction false} MapLess<K, V>(m: map<K, V>, k: K)
    requires k in m
    ensures |m - {k}| == |m| - 1
  {
    assert (m - {k}).Keys == m.Keys - {k};
    assert |m| == |m.Keys| && |m - {k}| == |(m - {k}).Keys|;
  }

  lemma {:induction false} MapMore<K, V>(m: map<K, V>, k: K, v: V)
    ensures |m[k := v]| <= |m| + 1
  {
    assert m[k := v].Keys == m.Keys + {k};
    assert |m| == |m.Keys| && |m[k := v]| == |m[k := v].Keys|;
  }

  lemma {:induction false} Progress(s: State, a: Action)
    requires Inv(s) && Enabled(s, a) && Internal(a)
    ensures Weight(Step(s, a)) < Weight(s)
  {
    if UpToSend(a) { DropsUpToSend(s, a); } else { DropsAfterSend(s, a); }
    WireMoves(s, a);
    ServerMoves(s, a);
  }

  /** However the internal steps are scheduled, they come to an end. */
  lemma {:induction false} DrainingEnds(s: State, run: seq<Action>)
    requires Inv(s) && Allowed(s, run) && forall k :: 0 <= k < |run| ==> Internal(run[k])
    ensures |run| <= Weight(s)
    decreases |run|
  {
    if run != [] {
      Progress(s, run[0]);
      InvStep(s, run[0]);
      forall k | 0 <= k < |run| - 1 ensures Internal(run[1..][k]) { assert run[1..][k] == run[k + 1]; }
      DrainingEnds(Step(s, run[0]), run[1..]);
    }
  }
}
