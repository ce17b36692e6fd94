/** The WebSocket hub as a state machine over its atomic actions: calls that enqueue, the run loop
    with its free choice among ready queues, any number of Stop callers, and connections that their
    own handlers close at any time.  `accepted`, `offered`, `processed` and `log` are history. */
module Hub {

  type Conn = nat
  type Message = nat

  const QUEUE_CAPACITY: nat := 256

  datatype Request = Register(conn: Conn) | Unregister(conn: Conn) | Broadcast(message: Message)

  datatype Runner =
    | NotStarted
    | Choosing                                   // at the select
    | Inserting(conn: Conn)                      // taken from the register queue
    | Removing(conn: Conn)                       // taken from the unregister queue
    | Holding(message: Message)                  // taken from the broadcast queue
    | Casting(message: Message, todo: set<Conn>) // holds the lock on the connections
    | Draining
    | Discarding(conn: Conn)                     // taken from a queue while draining
    | ClosingAll
    | AllClosed
    | Finished

  /** The one Stop that runs the body of stopOnce. */
  datatype Stopper =
    | Idle
    | WantsLock
    | Locked
    | FlagSet
    | ChannelClosed
    | StopDraining
    | StopDiscarding(conn: Conn)
    | StopClosingAll
    | Unlocking
    | OnceDone

  datatype Caller = AtOnce | PastOnce | AwaitingRun | Returned

  /** What a connection got from the hub: the slice lo..hi of the processed broadcasts, and how many
      had been processed when it was last inserted. */
  datatype Delivery = Delivery(received: seq<Message>, lo: nat, hi: nat, joined: nat)

  datatype State = State(
    register: seq<Conn>,
    unregister: seq<Conn>,
    broadcast: seq<Message>,
    members: set<Conn>,
    closed: set<Conn>,
    pending: map<nat, Request>,   // enqueue calls that hold the read lock and passed their checks
    stopped: bool,
    stopClosed: bool,
    runStarted: bool,
    runner: Runner,
    stopper: Stopper,
    callers: map<nat, Caller>,
    accepted: set<Conn>,
    offered: seq<Message>,        // broadcasts accepted
    processed: seq<Message>,
    log: map<Conn, Delivery>)

  datatype Queue = RegisterQueue | UnregisterQueue | BroadcastQueue

  datatype ClientAction =
    | BeginEnqueue(id: nat, request: Request, requireStarted: bool)
    | FinishEnqueue(id: nat)
    | CloseConnection(conn: Conn)

  datatype RunAction =
    | Starts
    | SeesStop
    | Takes(queue: Queue)
    | Inserts
    | Removes
    | Casts
    | Sends(conn: Conn, room: bool)
    | CastDone
    | Drains(queue: Queue)
    | Discards
    | Drained
    | ClosesAll
    | Finishes

  datatype StopAction =
    | Enters
    | Locks
    | SetsFlag
    | ClosesChannel
    | ChecksRun
    | Drains(queue: Queue)
    | Discards
    | Drained
    | ClosesAll
    | Unlocks

  datatype CallerAction =
    | Call(id: nat)
    | PassOnce(id: nat)
    | CheckRun(id: nat)
    | RunAwaited(id: nat)

  datatype Action = Client(c: ClientAction) | Run(r: RunAction) | Stop(s: StopAction) | Caller(w: CallerAction)

  /** The Stop that closes the hub holds the lifecycle lock exclusively. */
  predicate StopHoldsLock(s: State) {
    match s.stopper
    case Idle => false
    case WantsLock => false
    case OnceDone => false
    case _ => true
  }

  predicate QueuesEmpty(s: State) { s.register == [] && s.unregister == [] && s.broadcast == [] }

  predicate NonEmpty(s: State, q: Queue) {
    match q
    case RegisterQueue => s.register != []
    case UnregisterQueue => s.unregister != []
    case BroadcastQueue => s.broadcast != []
  }

  predicate ClientEnabled(s: State, a: ClientAction) {
    match a
    case BeginEnqueue(id, _, _) => !StopHoldsLock(s) && id !in s.pending
    case FinishEnqueue(id) => id in s.pending
    case CloseConnection(_) => true
  }

  predicate RunEnabled(s: State, a: RunAction) {
    match a
    case Starts => s.runner == NotStarted
    case SeesStop => s.runner == Choosing && s.stopClosed
    case Takes(q) => s.runner == Choosing && NonEmpty(s, q)
    case Inserts => s.runner.Inserting?
    case Removes => s.runner.Removing?
    case Casts => s.runner.Holding?
    case Sends(c, _) => s.runner.Casting? && c in s.runner.todo
    case CastDone => s.runner.Casting? && s.runner.todo == {}
    case Drains(q) => s.runner == Draining && NonEmpty(s, q)
    case Discards => s.runner.Discarding?
    case Drained => s.runner == Draining && QueuesEmpty(s)
    case ClosesAll => s.runner == ClosingAll
    case Finishes => s.runner == AllClosed
  }

  predicate StopEnabled(s: State, a: StopAction) {
    match a
    case Enters => s.stopper == Idle && s.callers != map[]
    case Locks => s.stopper == WantsLock && s.pending == map[]
    case SetsFlag => s.stopper == Locked
    case ClosesChannel => s.stopper == FlagSet
    case ChecksRun => s.stopper == ChannelClosed
    case Drains(q) => s.stopper == StopDraining && NonEmpty(s, q)
    case Discards => s.stopper.StopDiscarding?
    case Drained => s.stopper == StopDraining && QueuesEmpty(s)
    case ClosesAll => s.stopper == StopClosingAll && !s.runner.Casting?
    case Unlocks => s.stopper == Unlocking
  }

  predicate CallerEnabled(s: State, a: CallerAction) {
    match a
    case Call(id) => id !in s.callers
    case PassOnce(id) => id in s.callers && s.callers[id] == AtOnce && s.stopper == OnceDone
    case CheckRun(id) => id in s.callers && s.callers[id] == PastOnce
    case RunAwaited(id) => id in s.callers && s.callers[id] == AwaitingRun && s.runner == Finished
  }

  predicate Enabled(s: State, a: Action) {
    match a
    case Client(c) => ClientEnabled(s, c)
    case Run(r) => RunEnabled(s, r)
    case Stop(p) => StopEnabled(s, p)
    case Caller(w) => CallerEnabled(s, w)
  }

  /** A refused connection is closed; a refused anything else is just refused. */
  function Refused(s: State, r: Request): State {
    if r.Register? then s.(closed := s.closed + {r.conn}) else s
  }

  predicate RoomFor(s: State, r: Request) {
    match r
    case Register(_) => |s.register| < QUEUE_CAPACITY
    case Unregister(_) => |s.unregister| < QUEUE_CAPACITY
    case Broadcast(_) => |s.broadcast| < QUEUE_CAPACITY
  }

  /** The request goes to the end of its queue; without room it is refused. */
  function Enqueued(s: State, r: Request): State {
    if !RoomFor(s, r) then Refused(s, r)
    else s.(
      register := if r.Register? then s.register + [r.conn] else s.register,
      unregister := if r.Unregister? then s.unregister + [r.conn] else s.unregister,
      broadcast := if r.Broadcast? then s.broadcast + [r.message] else s.broadcast,
      accepted := if r.Register? then s.accepted + {r.conn} else s.accepted,
      offered := if r.Broadcast? then s.offered + [r.message] else s.offered)
  }

  function Dropped(s: State, c: Conn): State { s.(members := s.members - {c}, closed := s.closed + {c}) }

  /** What c got so far; a connection the hub has not met starts from here. */
  function DeliveryTo(s: State, c: Conn): Delivery {
    if c in s.log then s.log[c] else Delivery([], |s.processed|, |s.processed|, |s.processed|)
  }

  function Joined(s: State, c: Conn): map<Conn, Delivery> {
    if c in s.members then s.log else s.log[c := DeliveryTo(s, c).(joined := |s.processed|)]
  }

  function ClientStep(s: State, a: ClientAction): State
    requires ClientEnabled(s, a)
  {
    match a
    case BeginEnqueue(id, r, requireStarted) =>
      if s.stopped || (requireStarted && !s.runStarted) then Refused(s, r)
      else s.(pending := s.pending[id := r])
    case FinishEnqueue(id) => Enqueued(s, s.pending[id]).(pending := s.pending - {id})
    case CloseConnection(c) => s.(closed := s.closed + {c})
  }

  /** The queue without its head. */
  function Popped(s: State, q: Queue): State
    requires NonEmpty(s, q)
  {
    s.(register := if q.RegisterQueue? then s.register[1..] else s.register,
       unregister := if q.UnregisterQueue? then s.unregister[1..] else s.unregister,
       broadcast := if q.BroadcastQueue? then s.broadcast[1..] else s.broadcast)
  }

  function HeadConn(s: State, q: Queue): Conn
    requires NonEmpty(s, q) && !q.BroadcastQueue?
  {
    if q.RegisterQueue? then s.register[0] else s.unregister[0]
  }

  function Taken(s: State, q: Queue): Runner
    requires NonEmpty(s, q)
  {
    match q
    case RegisterQueue => Inserting(s.register[0])
    case UnregisterQueue => Removing(s.unregister[0])
    case BroadcastQueue => Holding(s.broadcast[0])
  }

  function RunStep(s: State, a: RunAction): State
    requires RunEnabled(s, a)
  {
    match a
    case Starts => s.(runStarted := true, runner := Choosing)
    case SeesStop => s.(runner := Draining)
    case Takes(q) => Popped(s, q).(runner := Taken(s, q))
    case Inserts =>
      s.(members := s.members + {s.runner.conn}, log := Joined(s, s.runner.conn), runner := Choosing)
    case Removes => (if s.runner.conn in s.members then Dropped(s, s.runner.conn) else s).(runner := Choosing)
    case Casts =>
      s.(runner := Casting(s.runner.message, s.members), processed := s.processed + [s.runner.message])
    case Sends(c, room) => Sent(s, c, room)
    case CastDone => s.(runner := Choosing)
    case Drains(q) => Popped(s, q).(runner := if q.BroadcastQueue? then Draining else Discarding(HeadConn(s, q)))
    case Discards => s.(closed := s.closed + {s.runner.conn}, runner := Draining)
    case Drained => s.(runner := ClosingAll)
    case ClosesAll => s.(closed := s.closed + s.members, members := {}, runner := AllClosed)
    case Finishes => s.(runner := Finished)
  }

  /** One turn of the broadcast loop: the message is put into the connection's queue, or the
      connection, closed or too slow, is dropped and closed. */
  function Sent(s: State, c: Conn, room: bool): State
    requires s.runner.Casting?
  {
    var next := Casting(s.runner.message, s.runner.todo - {c});
    var d := DeliveryTo(s, c);
    if c !in s.closed && room
    then s.(runner := next, log := s.log[c := d.(received := d.received + [s.runner.message], hi := d.hi + 1)])
    else Dropped(s, c).(runner := next)
  }

  function StopStep(s: State, a: StopAction): State
    requires StopEnabled(s, a)
  {
    match a
    case Enters => s.(stopper := WantsLock)
    case Locks => s.(stopper := Locked)
    case SetsFlag => s.(stopped := true, stopper := FlagSet)
    case ClosesChannel => s.(stopClosed := true, stopper := ChannelClosed)
    case ChecksRun => s.(stopper := if s.runStarted then Unlocking else StopDraining)
    case Drains(q) =>
      Popped(s, q).(stopper := if q.BroadcastQueue? then StopDraining else StopDiscarding(HeadConn(s, q)))
    case Discards => s.(closed := s.closed + {s.stopper.conn}, stopper := StopDraining)
    case Drained => s.(stopper := StopClosingAll)
    case ClosesAll => s.(closed := s.closed + s.members, members := {}, stopper := Unlocking)
    case Unlocks => s.(stopper := OnceDone)
  }

  function CallerStep(s: State, a: CallerAction): State
    requires CallerEnabled(s, a)
  {
    match a
    case Call(id) => s.(callers := s.callers[id := AtOnce])
    case PassOnce(id) => s.(callers := s.callers[id := PastOnce])
    case CheckRun(id) => s.(callers := s.callers[id := if s.runStarted then AwaitingRun else Returned])
    case RunAwaited(id) => s.(callers := s.callers[id := Returned])
  }

  function Apply(s: State, a: Action): State
    requires Enabled(s, a)
  {
    match a
    case Client(c) => ClientStep(s, c)
    case Run(r) => RunStep(s, r)
    case Stop(p) => StopStep(s, p)
    case Caller(w) => CallerStep(s, w)
  }

  predicate Initial(s: State) {
    && QueuesEmpty(s) && s.members == {} && s.closed == {} && s.pending == map[]
    && !s.stopped && !s.stopClosed && !s.runStarted && s.runner == NotStarted && s.stopper == Idle
    && s.callers == map[] && s.accepted == {} && s.offered == [] && s.processed == [] && s.log == map[]
  }

  // ----- nothing accepted gets lost

  /** The connection is between a queue and its next place, in somebody's hands. */
  predicate InHand(s: State, c: Conn) {
    s.runner == Inserting(c) || s.runner == Discarding(c) || s.stopper == StopDiscarding(c)
  }

  predicate Somewhere(s: State, c: Conn) {
    c in s.register || c in s.members || c in s.closed || InHand(s, c)
  }

  ghost predicate Accounted(s: State) {
    forall c :: c in s.accepted ==> Somewhere(s, c)
  }

  predicate RunnerPastDrain(s: State) {
    s.runner == ClosingAll || s.runner == AllClosed || s.runner == Finished
  }

  predicate StopperPastDrain(s: State) {
    s.stopper == StopClosingAll || s.stopper == Unlocking || s.stopper == OnceDone
  }

  /** The flags say how far the stopping call has got; while it holds the lock and ever after,
      nobody is between a check and an enqueue. */
  predicate FlagsOk(s: State) {
    && s.stopClosed == ((StopHoldsLock(s) && s.stopper != Locked && s.stopper != FlagSet) || s.stopper == OnceDone)
    && s.stopped == (s.stopClosed || s.stopper == FlagSet)
    && (StopHoldsLock(s) || s.stopped ==> s.pending == map[])
  }

  predicate RunnerOk(s: State) {
    && s.runStarted == (s.runner != NotStarted)
    && (s.runner == NotStarted ==> s.members == {})
    && (s.runner == Draining || s.runner.Discarding? || RunnerPastDrain(s) ==> s.stopClosed)
    && (RunnerPastDrain(s) ==> QueuesEmpty(s))
    && (s.runner == AllClosed || s.runner == Finished ==> s.members == {})
    && (s.runner.Casting? ==> s.runner.todo <= s.members)
  }

  predicate StopperOk(s: State) {
    && (s.stopper == StopClosingAll ==> QueuesEmpty(s))
    && (s.runner == NotStarted && StopperPastDrain(s) ==> QueuesEmpty(s))
  }

  /** The hub is empty for good: nothing queued, no connection in the set or in anybody's hands, and
      every connection it ever accepted is closed. */
  ghost predicate Quiet(s: State) {
    && s.stopper == OnceDone && QueuesEmpty(s) && s.members == {}
    && !s.runner.Inserting? && !s.runner.Discarding?
    && s.accepted <= s.closed
  }

  ghost predicate CallersOk(s: State) {
    && (forall id :: id in s.callers && s.callers[id] != AtOnce ==> s.stopper == OnceDone)
    && (forall id :: id in s.callers && s.callers[id] == AwaitingRun ==> s.runStarted)
    && (forall id :: id in s.callers && s.callers[id] == Returned ==> Quiet(s))
  }

  ghost predicate Inv(s: State) {
    FlagsOk(s) && RunnerOk(s) && StopperOk(s) && Accounted(s) && CallersOk(s)
  }

  lemma ClientKeeps(s: State, a: ClientAction)
    requires ClientEnabled(s, a) && Inv(s)
    ensures Inv(ClientStep(s, a))
  {
    match a
    case BeginEnqueue(id, r, requireStarted) =>
    case FinishEnqueue(id) => EnqueuedKeeps(s, id);
    case CloseConnection(c) =>
  }

  /** An enqueue that passed its checks finishes before the hub can be stopped. */
  lemma EnqueuedKeeps(s: State, id: nat)
    requires id in s.pending && Inv(s)
    ensures Inv(Enqueued(s, s.pending[id]).(pending := s.pending - {id}))
  {
    var t := Enqueued(s, s.pending[id]).(pending := s.pending - {id});
    assert !StopHoldsLock(s) && !s.stopped && s.stopper != OnceDone by {
      hide Accounted, CallersOk, RunnerOk, StopperOk, Enqueued;
    }
    EnqueuedStands(s, s.pending[id]);
    EnqueuedAccounted(s, s.pending[id]);
    hide CallersOk, RunnerOk, StopperOk, FlagsOk, StopHoldsLock, Enqueued;
    StillOpen(s, t);
  }

  predicate SameStanding(s: State, t: State) {
    && t.runner == s.runner && t.stopper == s.stopper && t.callers == s.callers && t.members == s.members
    && t.stopped == s.stopped && t.stopClosed == s.stopClosed && t.runStarted == s.runStarted
  }

  lemma EnqueuedStands(s: State, r: Request)
    ensures SameStanding(s, Enqueued(s, r))
  {
    hide RoomFor;
  }

  lemma EnqueuedAccounted(s: State, r: Request)
    requires Accounted(s)
    ensures Accounted(Enqueued(s, r))
  {
    forall c | c in Enqueued(s, r).accepted ensures Somewhere(Enqueued(s, r), c) {
      EnqueuedSomewhere(s, r, c);
    }
  }

  lemma EnqueuedSomewhere(s: State, r: Request, c: Conn)
    requires c in s.accepted ==> Somewhere(s, c)
    ensures c in Enqueued(s, r).accepted ==> Somewhere(Enqueued(s, r), c)
  {
    if r.Register? { InAppended(s.register, r.conn, c); }
    EnqueuedStands(s, r);
    hide RoomFor, SameStanding;
  }

  lemma InAppended(q: seq<Conn>, x: Conn, c: Conn)
    ensures c in q + [x] <==> c in q || c == x
  {
  }

  /** As long as nobody has begun to stop the hub, the queues may grow. */
  lemma StillOpen(s: State, t: State)
    requires FlagsOk(s) && RunnerOk(s) && StopperOk(s) && CallersOk(s)
    requires !StopHoldsLock(s) && !s.stopped && s.stopper != OnceDone
    requires SameStanding(s, t)
    ensures FlagsOk(t) && RunnerOk(t) && StopperOk(t) && CallersOk(t)
  {
    assert forall id :: id in s.callers ==> s.callers[id] == AtOnce;
  }

  /** Taking the head of the register queue into one's hands loses nothing. */
  lemma HeadOrTail(q: seq<Conn>, c: Conn)
    requires q != []
    ensures c in q <==> c == q[0] || c in q[1..]
  {
  }

  lemma RunStartsKeeps(s: State)
    requires RunEnabled(s, Starts) && Inv(s)
    ensures Inv(RunStep(s, Starts))
  {
    hide Joined;
  }

  lemma RunSeesStopKeeps(s: State)
    requires RunEnabled(s, SeesStop) && Inv(s)
    ensures Inv(RunStep(s, SeesStop))
  {
    hide Joined;
  }

  lemma RunTakesKeeps(s: State, queue: Queue)
    requires RunEnabled(s, Takes(queue)) && Inv(s)
    ensures Inv(RunStep(s, Takes(queue)))
  {
    hide Joined;
    forall c ensures s.register != [] ==> (c in s.register <==> c == s.register[0] || c in s.register[1..]) {
      if s.register != [] { HeadOrTail(s.register, c); }
    }
  }

  lemma RunInsertsKeeps(s: State)
    requires RunEnabled(s, Inserts) && Inv(s)
    ensures Inv(RunStep(s, Inserts))
  {
    hide Joined;
  }

  lemma RunRemovesKeeps(s: State)
    requires RunEnabled(s, Removes) && Inv(s)
    ensures Inv(RunStep(s, Removes))
  {
    hide Joined, CallersOk, Accounted;
    RunRemovesKeepsAccounted(s);
    RunRemovesKeepsCallers(s);
  }

  lemma RunRemovesKeepsAccounted(s: State)
    requires RunEnabled(s, Removes) && Accounted(s)
    ensures Accounted(RunStep(s, Removes))
  {
    var t := RunStep(s, Removes);
    forall c | c in t.accepted ensures Somewhere(t, c) {
      assert Somewhere(s, c);
    }
  }

  lemma RunRemovesKeepsCallers(s: State)
    requires RunEnabled(s, Removes) && RunnerOk(s) && CallersOk(s)
    ensures CallersOk(RunStep(s, Removes))
  {
    hide Joined;
  }

  lemma RunCastsKeeps(s: State)
    requires RunEnabled(s, Casts) && Inv(s)
    ensures Inv(RunStep(s, Casts))
  {
    hide Joined;
  }

  lemma RunSendsKeeps(s: State, conn: Conn, room: bool)
    requires RunEnabled(s, Sends(conn, room)) && Inv(s)
    ensures Inv(RunStep(s, Sends(conn, room)))
  {
    hide DeliveryTo, Accounted, CallersOk, FlagsOk, RunnerOk, StopperOk;
    SentKeepsFlags(s, conn, room);
    SentKeepsRunner(s, conn, room);
    SentKeepsAccounted(s, conn, room);
    SentKeepsCallers(s, conn, room);
  }

  lemma SentKeepsFlags(s: State, conn: Conn, room: bool)
    requires RunEnabled(s, Sends(conn, room)) && FlagsOk(s)
    ensures FlagsOk(Sent(s, conn, room))
  {
    hide DeliveryTo;
    var t := Sent(s, conn, room);
    assert t.stopper == s.stopper && t.pending == s.pending && t.stopped == s.stopped && t.stopClosed == s.stopClosed;
    hide Sent;
  }

  lemma SentKeepsRunner(s: State, conn: Conn, room: bool)
    requires RunEnabled(s, Sends(conn, room)) && RunnerOk(s) && StopperOk(s)
    ensures RunnerOk(Sent(s, conn, room)) && StopperOk(Sent(s, conn, room))
  {
    hide DeliveryTo;
    var t := Sent(s, conn, room);
    assert t.stopper == s.stopper && t.runStarted == s.runStarted && t.runner.Casting? && t.runner.todo <= t.members;
    assert t.register == s.register && t.unregister == s.unregister && t.broadcast == s.broadcast;
    hide Sent;
  }

  lemma SentKeepsAccounted(s: State, conn: Conn, room: bool)
    requires RunEnabled(s, Sends(conn, room)) && Accounted(s)
    ensures Accounted(Sent(s, conn, room))
  {
    hide DeliveryTo;
    var t := Sent(s, conn, room);
    forall c | c in t.accepted ensures Somewhere(t, c) {
      assert Somewhere(s, c);
    }
  }

  /** Nobody has returned from Stop while the loop is still broadcasting to somebody. */
  lemma SentKeepsCallers(s: State, conn: Conn, room: bool)
    requires RunEnabled(s, Sends(conn, room)) && RunnerOk(s) && CallersOk(s)
    ensures CallersOk(Sent(s, conn, room))
  {
    hide DeliveryTo;
  }

  lemma RunCastDoneKeeps(s: State)
    requires RunEnabled(s, CastDone) && Inv(s)
    ensures Inv(RunStep(s, CastDone))
  {
    hide Joined;
  }

  lemma RunDrainsKeeps(s: State, queue: Queue)
    requires RunEnabled(s, RunAction.Drains(queue)) && Inv(s)
    ensures Inv(RunStep(s, RunAction.Drains(queue)))
  {
    hide Joined;
    forall c ensures s.register != [] ==> (c in s.register <==> c == s.register[0] || c in s.register[1..]) {
      if s.register != [] { HeadOrTail(s.register, c); }
    }
  }

  lemma RunDiscardsKeeps(s: State)
    requires RunEnabled(s, RunAction.Discards) && Inv(s)
    ensures Inv(RunStep(s, RunAction.Discards))
  {
    hide Joined;
  }

  lemma RunDrainedKeeps(s: State)
    requires RunEnabled(s, RunAction.Drained) && Inv(s)
    ensures Inv(RunStep(s, RunAction.Drained))
  {
    hide Joined;
  }

  lemma RunClosesAllKeeps(s: State)
    requires RunEnabled(s, RunAction.ClosesAll) && Inv(s)
    ensures Inv(RunStep(s, RunAction.ClosesAll))
  {
    hide Joined;
  }

  lemma RunFinishesKeeps(s: State)
    requires RunEnabled(s, Finishes) && Inv(s)
    ensures Inv(RunStep(s, Finishes))
  {
    hide Joined;
  }

  lemma RunKeeps(s: State, a: RunAction)
    requires RunEnabled(s, a) && Inv(s)
    ensures Inv(RunStep(s, a))
  {
    hide RunStep, Inv;
    match a
    case Starts => RunStartsKeeps(s);
    case SeesStop => RunSeesStopKeeps(s);
    case Takes(queue) => RunTakesKeeps(s, queue);
    case Inserts => RunInsertsKeeps(s);
    case Removes => RunRemovesKeeps(s);
    case Casts => RunCastsKeeps(s);
    case Sends(conn, room) => RunSendsKeeps(s, conn, room);
    case CastDone => RunCastDoneKeeps(s);
    case Drains(queue) => RunDrainsKeeps(s, queue);
    case Discards => RunDiscardsKeeps(s);
    case Drained => RunDrainedKeeps(s);
    case ClosesAll => RunClosesAllKeeps(s);
    case Finishes => RunFinishesKeeps(s);
  }

  lemma StopKeepsAccounted(s: State, a: StopAction)
    requires StopEnabled(s, a) && Accounted(s)
    ensures Accounted(StopStep(s, a))
  {
    if a.Drains? { StopDrainAccounted(s, a.queue); }
  }

  lemma StopDrainAccounted(s: State, queue: Queue)
    requires StopEnabled(s, StopAction.Drains(queue)) && Accounted(s)
    ensures Accounted(StopStep(s, StopAction.Drains(queue)))
  {
    var t := StopStep(s, StopAction.Drains(queue));
    forall c | c in t.accepted ensures Somewhere(t, c) {
      if s.register != [] { HeadOrTail(s.register, c); }
      assert Somewhere(s, c);
    }
  }

  lemma StopKeepsCallers(s: State, a: StopAction)
    requires StopEnabled(s, a) && CallersOk(s)
    ensures CallersOk(StopStep(s, a))
  {
    assert s.stopper != OnceDone && StopStep(s, a).callers == s.callers by { hide CallersOk; }
    hide StopStep, Quiet;
    assert forall id :: id in s.callers ==> s.callers[id] == AtOnce;
  }

  lemma StopKeeps(s: State, a: StopAction)
    requires StopEnabled(s, a) && Inv(s)
    ensures Inv(StopStep(s, a))
  {
    hide Accounted, CallersOk;
    StopKeepsAccounted(s, a);
    StopKeepsCallers(s, a);
  }

  lemma CallerKeeps(s: State, a: CallerAction)
    requires CallerEnabled(s, a) && Inv(s)
    ensures Inv(CallerStep(s, a))
  {
  }

  lemma StepKeeps(s: State, a: Action)
    requires Enabled(s, a) && Inv(s)
    ensures Inv(Apply(s, a))
  {
    hide Inv, ClientStep, RunStep, StopStep, CallerStep, ClientEnabled, RunEnabled, StopEnabled, CallerEnabled;
    match a
    case Client(c) => ClientKeeps(s, c);
    case Run(r) => RunKeeps(s, r);
    case Stop(p) => StopKeeps(s, p);
    case Caller(w) => CallerKeeps(s, w);
  }

  ghost predicate IsRun(run: seq<State>, actions: seq<Action>) {
    && |run| == |actions| + 1 && Initial(run[0])
    && forall i :: 0 <= i < |actions| ==> Enabled(run[i], actions[i]) && run[i + 1] == Apply(run[i], actions[i])
  }

  lemma InitialInv(s: State)
    requires Initial(s)
    ensures Inv(s) && Delivered(s)
  {
  }

  lemma {:induction false} RunInv(run: seq<State>, actions: seq<Action>, i: nat)
    requires IsRun(run, actions) && i < |run|
    ensures Inv(run[i]) && Delivered(run[i])
  {
    hide Inv, Delivered, Enabled, Apply, Initial;
    if i == 0 {
      InitialInv(run[0]);
    } else {
      RunInv(run, actions, i - 1);
      StepKeeps(run[i - 1], actions[i - 1]);
      StepDelivers(run[i - 1], actions[i - 1]);
    }
  }

  /** Every connection the hub ever accepted is queued, in the set, in the hands of the loop or of
      Stop, or closed: none is forgotten. */
  lemma NoneForgotten(run: seq<State>, actions: seq<Action>, i: nat, c: Conn)
    requires IsRun(run, actions) && i < |run| && c in run[i].accepted
    ensures c in run[i].register || c in run[i].members || c in run[i].closed || InHand(run[i], c)
  {
    hide Enabled, Apply, Initial, Delivered, FlagsOk, RunnerOk, StopperOk, CallersOk, InHand;
    RunInv(run, actions, i);
    assert Somewhere(run[i], c);
  }

  predicate HasReturned(s: State, id: nat) { id in s.callers && s.callers[id] == Returned }

  lemma {:induction false} ReturnedForGood(run: seq<State>, actions: seq<Action>, i: nat, j: nat, id: nat)
    requires IsRun(run, actions) && i <= j < |run| && HasReturned(run[i], id)
    ensures HasReturned(run[j], id)
    decreases j
  {
    hide Enabled, Apply, Initial, HasReturned;
    if i < j {
      ReturnedForGood(run, actions, i, j - 1, id);
      ReturnedStays(run[j - 1], actions[j - 1], id);
    }
  }

  lemma ReturnedStays(s: State, a: Action, id: nat)
    requires Enabled(s, a) && HasReturned(s, id)
    ensures HasReturned(Apply(s, a), id)
  {
    hide ClientStep, RunStep, StopStep, ClientEnabled, RunEnabled, StopEnabled;
    match a
    case Client(c) => ClientLeavesCallers(s, c);
    case Run(r) => RunLeavesCallers(s, r);
    case Stop(p) => StopLeavesCallers(s, p);
    case Caller(w) =>
  }

  lemma ClientLeavesCallers(s: State, a: ClientAction)
    requires ClientEnabled(s, a)
    ensures ClientStep(s, a).callers == s.callers
  {
    if a.FinishEnqueue? { EnqueuedStands(s, s.pending[a.id]); }
    hide RoomFor, Enqueued;
  }

  lemma RunLeavesCallers(s: State, a: RunAction)
    requires RunEnabled(s, a)
    ensures RunStep(s, a).callers == s.callers
  {
    if a.Sends? { SentLeavesCallers(s, a.conn, a.room); }
    hide Joined, Sent, HeadConn, Taken, NonEmpty, QueuesEmpty;
  }

  lemma SentLeavesCallers(s: State, c: Conn, room: bool)
    requires s.runner.Casting?
    ensures Sent(s, c, room).callers == s.callers
  {
    hide DeliveryTo;
  }

  lemma StopLeavesCallers(s: State, a: StopAction)
    requires StopEnabled(s, a)
    ensures StopStep(s, a).callers == s.callers
  {
  }

  /** Once any call of Stop has returned, whether the loop was running, had yet to start, started
      meanwhile, or somebody else was stopping the hub: all queues and the set are empty, now and for
      ever, and every connection ever accepted is closed. */
  lemma StopLeavesQuiet(run: seq<State>, actions: seq<Action>, i: nat, j: nat, id: nat)
    requires IsRun(run, actions) && i <= j < |run| && HasReturned(run[i], id)
    ensures QueuesEmpty(run[j]) && run[j].members == {}
    ensures run[j].accepted <= run[j].closed
  {
    hide Enabled, Apply, Initial, Delivered, FlagsOk, RunnerOk, StopperOk, Accounted, QueuesEmpty;
    ReturnedForGood(run, actions, i, j, id);
    RunInv(run, actions, j);
  }

  // ----- broadcasts arrive without gaps

  /** How many of the processed broadcasts the loop is done with as far as c is concerned. */
  function Done(s: State, c: Conn): int {
    |s.processed| - (if s.runner.Casting? && c in s.runner.todo then 1 else 0)
  }

  predicate IsSlice(d: Delivery, processed: seq<Message>) {
    d.lo <= d.hi <= |processed| && d.received == processed[d.lo..d.hi]
  }

  predicate UpToDate(s: State, c: Conn) {
    && c in s.log
    && ((s.log[c].joined == s.log[c].lo && s.log[c].hi == Done(s, c))
        || (c in s.closed && s.log[c].joined == Done(s, c)))
  }

  ghost predicate Delivered(s: State) {
    && (forall c :: c in s.log ==> IsSlice(s.log[c], s.processed))
    && (forall c :: c in s.members ==> UpToDate(s, c))
    && (forall c :: c in s.log ==> c in s.members || c in s.closed)
    && CastOk(s)
  }

  predicate CastOk(s: State) {
    s.runner.Casting? ==>
      s.processed != [] && s.processed[|s.processed| - 1] == s.runner.message && s.runner.todo <= s.members
  }

  /** Nothing is processed or sent: connections may only be closed, and leave the set by being closed. */
  predicate NothingSent(s: State, t: State) {
    && t.log == s.log && t.processed == s.processed && s.closed <= t.closed
    && t.members <= s.members <= t.members + t.closed
    && t.runner.Casting? == s.runner.Casting?
    && (s.runner.Casting? ==> t.runner == s.runner && t.members == s.members)
  }

  lemma NothingSentDelivers(s: State, t: State)
    requires Delivered(s) && NothingSent(s, t)
    ensures Delivered(t)
  {
    hide IsSlice;
    assert forall c :: Done(s, c) == Done(t, c);
  }

  lemma ClientSendsNothing(s: State, a: ClientAction)
    requires ClientEnabled(s, a)
    ensures NothingSent(s, ClientStep(s, a))
  {
    if a.FinishEnqueue? { EnqueuedSendsNothing(s, s.pending[a.id]); }
    hide RoomFor, Enqueued;
  }

  lemma EnqueuedSendsNothing(s: State, r: Request)
    ensures NothingSent(s, Enqueued(s, r))
  {
    hide RoomFor;
  }

  lemma StopSendsNothing(s: State, a: StopAction)
    requires StopEnabled(s, a)
    ensures NothingSent(s, StopStep(s, a))
  {
  }

  predicate Sending(a: RunAction) { a.Inserts? || a.Casts? || a.Sends? || a.CastDone? }

  lemma RunSendsNothing(s: State, a: RunAction)
    requires RunEnabled(s, a) && !Sending(a)
    ensures NothingSent(s, RunStep(s, a))
  {
    hide Sent, Joined, HeadConn, NonEmpty;
  }

  lemma InsertsDelivers(s: State)
    requires RunEnabled(s, Inserts) && Delivered(s)
    ensures Delivered(RunStep(s, Inserts))
  {
    var c, t := s.runner.conn, RunStep(s, Inserts);
    forall d | d in t.log ensures IsSlice(t.log[d], t.processed) && (d in t.members || d in t.closed) {
      hide UpToDate;
      assert d in s.log ==> IsSlice(s.log[d], s.processed);
    }
    forall d | d in t.members ensures UpToDate(t, d) {
      InsertsUpToDate(s, d);
    }
  }

  lemma InsertsUpToDate(s: State, d: Conn)
    requires RunEnabled(s, Inserts) && d in RunStep(s, Inserts).members
    requires d in s.members ==> UpToDate(s, d)
    requires d in s.log ==> d in s.members || d in s.closed
    ensures UpToDate(RunStep(s, Inserts), d)
  {
    assert d in s.members || d == s.runner.conn;
  }

  lemma CastsDelivers(s: State)
    requires RunEnabled(s, Casts) && Delivered(s)
    ensures Delivered(RunStep(s, Casts))
  {
    var t := RunStep(s, Casts);
    forall d | d in t.log ensures IsSlice(t.log[d], t.processed) {
      assert IsSlice(s.log[d], s.processed);
    }
    forall d | d in t.members ensures UpToDate(t, d) {
      assert UpToDate(s, d);
    }
  }

  lemma SendsDelivers(s: State, c: Conn, room: bool)
    requires RunEnabled(s, Sends(c, room)) && Delivered(s)
    ensures Delivered(Sent(s, c, room))
  {
    var t := Sent(s, c, room);
    assert UpToDate(s, c);
    assert IsSlice(s.log[c], s.processed);
    forall d | d in t.log ensures IsSlice(t.log[d], t.processed) && (d in t.members || d in t.closed) {
      assert d != c ==> IsSlice(s.log[d], s.processed);
    }
    forall d | d in t.members ensures UpToDate(t, d) {
      SentUpToDate(s, c, room, d);
    }
    assert CastOk(t) by { hide IsSlice, UpToDate; }
  }

  lemma SentUpToDate(s: State, c: Conn, room: bool, d: Conn)
    requires RunEnabled(s, Sends(c, room)) && d in Sent(s, c, room).members
    requires UpToDate(s, d)
    ensures UpToDate(Sent(s, c, room), d)
  {
  }

  lemma CastDoneDelivers(s: State)
    requires RunEnabled(s, CastDone) && Delivered(s)
    ensures Delivered(RunStep(s, CastDone))
  {
    hide IsSlice;
    var t := RunStep(s, CastDone);
    assert forall c :: Done(s, c) == Done(t, c);
  }

  lemma StepDelivers(s: State, a: Action)
    requires Enabled(s, a) && Delivered(s)
    ensures Delivered(Apply(s, a))
  {
    hide Delivered, ClientEnabled, RunEnabled, StopEnabled, ClientStep, StopStep, NothingSent;
    match a
    case Client(c) => ClientSendsNothing(s, c); NothingSentDelivers(s, ClientStep(s, c));
    case Run(r) => RunDelivers(s, r);
    case Stop(p) => StopSendsNothing(s, p); NothingSentDelivers(s, StopStep(s, p));
    case Caller(w) => CallerSendsNothing(s, w); NothingSentDelivers(s, CallerStep(s, w));
  }

  lemma CallerSendsNothing(s: State, a: CallerAction)
    requires CallerEnabled(s, a)
    ensures NothingSent(s, CallerStep(s, a))
  {
  }

  lemma RunDelivers(s: State, a: RunAction)
    requires RunEnabled(s, a) && Delivered(s)
    ensures Delivered(RunStep(s, a))
  {
    hide Delivered, Joined, NothingSent;
    match a
    case Inserts => InsertsDelivers(s);
    case Casts => CastsDelivers(s);
    case Sends(c, room) => SendsDelivers(s, c, room);
    case CastDone => CastDoneDelivers(s);
    case _ => RunSendsNothing(s, a); NothingSentDelivers(s, RunStep(s, a));
  }

  /** Whatever the order in which the loop takes its queues: the broadcasts put into a connection's
      send queue are a contiguous piece, in order, of the broadcasts processed; and while the
      connection is in the set they end with every broadcast processed since it was inserted, up to
      the one being sent out at that moment. */
  lemma NoGaps(run: seq<State>, actions: seq<Action>, i: nat, c: Conn)
    requires IsRun(run, actions) && i < |run|
    ensures c in run[i].log ==> IsSlice(run[i].log[c], run[i].processed)
    ensures c in run[i].members ==> c in run[i].log && EndsWith(run[i].log[c], run[i].processed, Done(run[i], c))
  {
    hide Enabled, Apply, Initial, Inv;
    RunInv(run, actions, i);
    if c in run[i].members { assert UpToDate(run[i], c); }
  }

  predicate EndsWith(d: Delivery, processed: seq<Message>, done: int) {
    && d.joined <= done <= |processed| && done - d.joined <= |d.received|
    && d.received[|d.received| - (done - d.joined)..] == processed[d.joined..done]
  }

  // ----- order of broadcasts, bounds of queues, and what the single actions are for

  function Held(s: State): seq<Message> { if s.runner.Holding? then [s.runner.message] else [] }

  /** Until the hub is stopped, what was accepted is what was processed, what the loop holds and what is
      queued, in this order. */
  predicate InOrder(s: State) { !s.stopClosed ==> s.offered == s.processed + Held(s) + s.broadcast }

  predicate Bounded(s: State) {
    |s.register| <= QUEUE_CAPACITY && |s.unregister| <= QUEUE_CAPACITY && |s.broadcast| <= QUEUE_CAPACITY
  }

  lemma ClientOrders(s: State, a: ClientAction)
    requires ClientEnabled(s, a) && InOrder(s) && Bounded(s)
    ensures InOrder(ClientStep(s, a)) && Bounded(ClientStep(s, a))
  {
    if a.FinishEnqueue? { EnqueuedOrders(s, s.pending[a.id]); }
    hide RoomFor, Enqueued;
  }

  lemma EnqueuedOrders(s: State, r: Request)
    requires InOrder(s) && Bounded(s)
    ensures InOrder(Enqueued(s, r)) && Bounded(Enqueued(s, r))
  {
    var t := Enqueued(s, r);
    if r.Broadcast? && RoomFor(s, r) {
      assert s.processed + Held(s) + (s.broadcast + [r.message]) == (s.processed + Held(s) + s.broadcast) + [r.message];
    }
  }

  lemma StopOrders(s: State, a: StopAction)
    requires StopEnabled(s, a) && FlagsOk(s) && InOrder(s) && Bounded(s)
    ensures InOrder(StopStep(s, a)) && Bounded(StopStep(s, a))
  {
  }

  lemma RunOrders(s: State, a: RunAction)
    requires RunEnabled(s, a) && RunnerOk(s) && InOrder(s) && Bounded(s)
    ensures InOrder(RunStep(s, a)) && Bounded(RunStep(s, a))
  {
    hide InOrder, Bounded;
    match a
    case Takes(q) => TakesOrders(s, q);
    case Casts => CastsOrders(s);
    case Drains(q) => DrainsOrders(s, q);
    case _ => OtherRunOrders(s, a);
  }

  lemma TakesOrders(s: State, q: Queue)
    requires RunEnabled(s, Takes(q)) && InOrder(s) && Bounded(s)
    ensures InOrder(RunStep(s, Takes(q))) && Bounded(RunStep(s, Takes(q)))
  {
    if q.BroadcastQueue? {
      assert s.broadcast == [s.broadcast[0]] + s.broadcast[1..];
      assert s.processed + [] + s.broadcast == s.processed + [s.broadcast[0]] + s.broadcast[1..];
    }
  }

  lemma CastsOrders(s: State)
    requires RunEnabled(s, Casts) && InOrder(s) && Bounded(s)
    ensures InOrder(RunStep(s, Casts)) && Bounded(RunStep(s, Casts))
  {
    var m := s.runner.message;
    assert s.processed + [m] + s.broadcast == (s.processed + [m]) + [] + s.broadcast;
  }

  lemma DrainsOrders(s: State, q: Queue)
    requires RunEnabled(s, RunAction.Drains(q)) && RunnerOk(s) && InOrder(s) && Bounded(s)
    ensures InOrder(RunStep(s, RunAction.Drains(q))) && Bounded(RunStep(s, RunAction.Drains(q)))
  {
  }

  lemma OtherRunOrders(s: State, a: RunAction)
    requires RunEnabled(s, a) && !a.Takes? && !a.Casts? && !a.Drains?
    requires InOrder(s) && Bounded(s)
    ensures InOrder(RunStep(s, a)) && Bounded(RunStep(s, a))
  {
    if a.Sends? { SentKeepsMessages(s, a.conn, a.room); }
    hide Sent, Joined, Popped, Taken, HeadConn, QueuesEmpty;
  }

  lemma SentKeepsMessages(s: State, c: Conn, room: bool)
    requires s.runner.Casting?
    ensures var t := Sent(s, c, room);
      && t.register == s.register && t.unregister == s.unregister && t.broadcast == s.broadcast
      && t.offered == s.offered && t.processed == s.processed && t.stopClosed == s.stopClosed && t.runner.Casting?
  {
    hide DeliveryTo;
  }

  lemma {:induction false} RunOrdered(run: seq<State>, actions: seq<Action>, i: nat)
    requires IsRun(run, actions) && i < |run|
    ensures InOrder(run[i]) && Bounded(run[i])
  {
    hide Enabled, Apply, Initial, Inv, Delivered;
    if i == 0 {
      assert InOrder(run[0]) && Bounded(run[0]) by { InitialOrder(run[0]); }
    } else {
      RunInv(run, actions, i - 1);
      RunOrdered(run, actions, i - 1);
      StepOrders(run[i - 1], actions[i - 1]);
    }
  }

  lemma InitialOrder(s: State)
    requires Initial(s)
    ensures InOrder(s) && Bounded(s)
  {
  }

  lemma StepOrders(s: State, a: Action)
    requires Enabled(s, a) && Inv(s) && InOrder(s) && Bounded(s)
    ensures InOrder(Apply(s, a)) && Bounded(Apply(s, a))
  {
    hide ClientStep, RunStep, StopStep, ClientEnabled, RunEnabled, StopEnabled;
    hide Accounted, CallersOk, FlagsOk, RunnerOk, StopperOk;
    match a
    case Client(c) => ClientOrders(s, c);
    case Run(r) => RunOrders(s, r);
    case Stop(p) => StopOrders(s, p);
    case Caller(w) =>
  }

  /** Until the hub is stopped, broadcasts are processed in the order in which they were accepted, each once
      and none left out; and no queue ever exceeds its capacity. */
  lemma FirstInFirstOut(run: seq<State>, actions: seq<Action>, i: nat)
    requires IsRun(run, actions) && i < |run|
    ensures !run[i].stopClosed ==> run[i].processed <= run[i].offered
    ensures !run[i].stopClosed && run[i].broadcast == [] && !run[i].runner.Holding? ==>
      run[i].processed == run[i].offered
    ensures Bounded(run[i])
  {
    hide Enabled, Apply, Initial;
    RunOrdered(run, actions, i);
  }

  // ----- a stop is never stuck

  /** Neither a new call nor the loop taking on more work. */
  predicate Winds(a: Action) {
    match a
    case Client(c) => c.FinishEnqueue?
    case Run(r) => !r.Starts? && !r.Takes?
    case Stop(_) => true
    case Caller(w) => !w.Call?
  }

  /** Until a call of Stop has returned, whatever it waits for, somebody has an action to take towards its
      end: an enqueue that holds the lock, the loop, the stop under way, or the call itself. */
  lemma StopNeverStuck(run: seq<State>, actions: seq<Action>, i: nat, id: nat)
    requires IsRun(run, actions) && i < |run| && id in run[i].callers && run[i].callers[id] != Returned
    ensures exists a :: Winds(a) && Enabled(run[i], a)
  {
    hide Enabled, Apply, Initial, Delivered;
    RunInv(run, actions, i);
    hide IsRun;
    var a := WindingAction(run[i], id);
    assert Winds(a) && Enabled(run[i], a);
  }

  lemma WindingAction(s: State, id: nat) returns (a: Action)
    requires Inv(s) && id in s.callers && s.callers[id] != Returned
    ensures Winds(a) && Enabled(s, a)
  {
    hide Accounted, Quiet;
    match s.callers[id]
    case AtOnce =>
      if s.stopper == OnceDone { a := Caller(PassOnce(id)); } else { a := StopsNext(s); }
    case PastOnce => a := Caller(CheckRun(id));
    case AwaitingRun =>
      assert s.stopper == OnceDone && s.stopClosed && s.runner != NotStarted;
      if s.runner == Finished {
        a := Caller(RunAwaited(id));
      } else {
        var r := LoopWinds(s);
        a := Run(r);
      }
  }

  lemma StopsNext(s: State) returns (a: Action)
    requires s.stopper != OnceDone && s.callers != map[]
    ensures Winds(a) && Enabled(s, a)
  {
    match s.stopper
    case Idle => a := Stop(Enters);
    case WantsLock =>
      if p :| p in s.pending { a := Client(FinishEnqueue(p)); } else { a := Stop(Locks); }
    case Locked => a := Stop(SetsFlag);
    case FlagSet => a := Stop(ClosesChannel);
    case ChannelClosed => a := Stop(ChecksRun);
    case StopDraining =>
      if QueuesEmpty(s) { a := Stop(StopAction.Drained); } else { a := Stop(StopAction.Drains(SomeQueue(s))); }
    case StopDiscarding(_) => a := Stop(StopAction.Discards);
    case StopClosingAll =>
      if s.runner.Casting? {
        var r := LoopCasts(s);
        a := Run(r);
      } else {
        a := Stop(StopAction.ClosesAll);
      }
    case Unlocking => a := Stop(Unlocks);
  }

  function SomeQueue(s: State): (q: Queue)
    requires !QueuesEmpty(s)
    ensures NonEmpty(s, q)
  {
    if s.register != [] then RegisterQueue else if s.unregister != [] then UnregisterQueue else BroadcastQueue
  }

  lemma LoopCasts(s: State) returns (r: RunAction)
    requires s.runner.Casting?
    ensures RunEnabled(s, r) && Winds(Run(r))
  {
    if c :| c in s.runner.todo { r := Sends(c, true); } else { r := CastDone; }
  }

  lemma LoopWinds(s: State) returns (r: RunAction)
    requires s.stopClosed && s.runner != NotStarted && s.runner != Finished
    ensures RunEnabled(s, r) && Winds(Run(r))
  {
    match s.runner
    case Choosing => r := SeesStop;
    case Inserting(_) => r := Inserts;
    case Removing(_) => r := Removes;
    case Holding(_) => r := Casts;
    case Casting(_, _) => r := LoopCasts(s);
    case Draining => r := if QueuesEmpty(s) then RunAction.Drained else RunAction.Drains(SomeQueue(s));
    case Discarding(_) => r := RunAction.Discards;
    case ClosingAll => r := RunAction.ClosesAll;
    case AllClosed => r := Finishes;
  }
}
