/** Every step of the hub that is no new call brings its work nearer to an end, so that a Stop, which is never
    stuck, returns after finitely many of them; and a run in which everything happens. */
module HubProgress {
  import opened Hub
  import opened Totals

  /** Somebody asks for something new, or a connection closes by itself. */
  predicate NewCall(a: Action) {
    match a
    case Client(c) => !c.FinishEnqueue?
    case Run(r) => r.Starts?
    case Stop(_) => false
    case Caller(w) => w.Call?
  }

  function RunnerLeft(r: Runner): nat {
    match r
    case NotStarted => 0
    case Finished => 0
    case AllClosed => 1
    case ClosingAll => 2
    case Draining => 3
    case Discarding(_) => 4
    case Choosing => 5
    case Inserting(_) => 6
    case Removing(_) => 6
    case Casting(_, _) => 6
    case Holding(_) => 7
  }

  function Todo(r: Runner): nat { if r.Casting? then |r.todo| else 0 }

  function StopperLeft(p: Stopper): nat {
    match p
    case Idle => 9
    case WantsLock => 8
    case Locked => 7
    case FlagSet => 6
    case ChannelClosed => 5
    case StopDiscarding(_) => 4
    case StopDraining => 3
    case StopClosingAll => 2
    case Unlocking => 1
    case OnceDone => 0
  }

  function CallerLeft(c: Caller): nat {
    match c
    case AtOnce => 3
    case PastOnce => 2
    case AwaitingRun => 1
    case Returned => 0
  }

  ghost function CallersLeft(callers: map<nat, Caller>): nat {
    Total(map id | id in callers :: CallerLeft(callers[id]))
  }

  lemma OneCallerOn(callers: map<nat, Caller>, id: nat, c: Caller)
    requires id in callers && CallerLeft(c) < CallerLeft(callers[id])
    ensures CallersLeft(callers[id := c]) < CallersLeft(callers)
  {
    var before := map i | i in callers :: CallerLeft(callers[i]);
    var next := callers[id := c];
    var later := map i | i in next :: CallerLeft(next[i]);
    assert later - {id} == before - {id};
    TotalFalls(before, later, id);
  }

  /** What is left to do, compared from the left: enqueues under way, queued requests, the loop, the messages it
      is sending, the stop under way, its callers. */
  datatype Left = Left(pending: nat, queued: nat, runner: nat, todo: nat, stopper: nat, callers: nat)

  ghost function LeftIn(s: State): Left {
    Left(|s.pending|, |s.register| + |s.unregister| + |s.broadcast|, RunnerLeft(s.runner), Todo(s.runner),
         StopperLeft(s.stopper), CallersLeft(s.callers))
  }

  predicate Less(a: Left, b: Left) {
    || a.pending < b.pending
    || (a.pending == b.pending && a.queued < b.queued)
    || (a.pending == b.pending && a.queued == b.queued && a.runner < b.runner)
    || (a.pending == b.pending && a.queued == b.queued && a.runner == b.runner && a.todo < b.todo)
    || (a.pending == b.pending && a.queued == b.queued && a.runner == b.runner && a.todo == b.todo
        && (a.stopper < b.stopper || (a.stopper == b.stopper && a.callers < b.callers)))
  }

  lemma FinishCounts(s: State, id: nat)
    requires id in s.pending
    ensures |Enqueued(s, s.pending[id]).(pending := s.pending - {id}).pending| < |s.pending|
  {
    assert (s.pending - {id}).Keys == s.pending.Keys - {id};
    assert |s.pending - {id}| == |(s.pending - {id}).Keys| && |s.pending| == |s.pending.Keys|;
  }

  lemma RunCounts(s: State, a: RunAction)
    requires RunEnabled(s, a) && !a.Starts?
    ensures Less(LeftIn(RunStep(s, a)), LeftIn(s))
  {
    hide CallersLeft, Joined, Sent, RunnerLeft, Todo, StopperLeft;
    var t := RunStep(s, a);
    if a.Sends? {
      SentCounts(s, a.conn, a.room);
    } else if !a.Takes? && !a.Drains? {
      RunLeavesRest(s, a);
      MovesOn(s, t);
    }
  }

  predicate SameWork(s: State, t: State) {
    && t.pending == s.pending && t.register == s.register && t.unregister == s.unregister && t.broadcast == s.broadcast
    && t.stopper == s.stopper && t.callers == s.callers
  }

  lemma SentCounts(s: State, c: Conn, room: bool)
    requires s.runner.Casting? && c in s.runner.todo
    ensures Less(LeftIn(Sent(s, c, room)), LeftIn(s))
  {
    hide Sent, LeftIn, Less;
    SentLeavesRest(s, c, room);
    FewerTodo(s, Sent(s, c, room), c);
  }

  lemma SentLeavesRest(s: State, c: Conn, room: bool)
    requires s.runner.Casting? && c in s.runner.todo
    ensures SameWork(s, Sent(s, c, room))
    ensures Sent(s, c, room).runner == Casting(s.runner.message, s.runner.todo - {c})
  {
    hide DeliveryTo;
  }

  lemma FewerTodo(s: State, t: State, c: Conn)
    requires SameWork(s, t) && s.runner.Casting? && c in s.runner.todo
    requires t.runner == Casting(s.runner.message, s.runner.todo - {c})
    ensures Less(LeftIn(t), LeftIn(s))
  {
    hide CallersLeft;
    OneLessTodo(s.runner.todo, c);
  }

  lemma RunLeavesRest(s: State, a: RunAction)
    requires RunEnabled(s, a) && !a.Starts? && !a.Sends? && !a.Takes? && !a.Drains?
    ensures SameWork(s, RunStep(s, a)) && RunnerLeft(RunStep(s, a).runner) < RunnerLeft(s.runner)
  {
    hide Joined, Sent, Popped, Taken, HeadConn, QueuesEmpty, NonEmpty;
  }

  lemma MovesOn(s: State, t: State)
    requires SameWork(s, t) && RunnerLeft(t.runner) < RunnerLeft(s.runner)
    ensures Less(LeftIn(t), LeftIn(s))
  {
    hide CallersLeft, RunnerLeft;
  }

  lemma OneLessTodo(todo: set<Conn>, c: Conn)
    requires c in todo
    ensures |todo - {c}| < |todo|
  {
  }

  lemma StopCounts(s: State, a: StopAction)
    requires StopEnabled(s, a)
    ensures Less(LeftIn(StopStep(s, a)), LeftIn(s))
  {
    hide CallersLeft;
  }

  lemma CallerCounts(s: State, a: CallerAction)
    requires CallerEnabled(s, a) && !a.Call?
    ensures Less(LeftIn(CallerStep(s, a)), LeftIn(s))
  {
    match a
    case PassOnce(id) => OneCallerOn(s.callers, id, PastOnce);
    case CheckRun(id) => OneCallerOn(s.callers, id, if s.runStarted then AwaitingRun else Returned);
    case RunAwaited(id) => OneCallerOn(s.callers, id, Returned);
  }

  /** Every action that is no new call lowers what is left to do. */
  lemma EveryStepCounts(s: State, a: Action)
    requires Enabled(s, a) && !NewCall(a)
    ensures Less(LeftIn(Apply(s, a)), LeftIn(s))
  {
    hide RunStep, StopStep, CallerStep, RunEnabled, StopEnabled, CallerEnabled, LeftIn, Less;
    match a
    case Client(c) =>
      FinishCounts(s, c.id);
      FewerPending(s, Apply(s, a));
    case Run(r) => RunCounts(s, r);
    case Stop(p) => StopCounts(s, p);
    case Caller(w) => CallerCounts(s, w);
  }

  lemma FewerPending(s: State, t: State)
    requires |t.pending| < |s.pending|
    ensures Less(LeftIn(t), LeftIn(s))
  {
  }

  // ----- a run in which everything happens

  const NEW_HUB := State([], [], [], {}, {}, map[], false, false, false, NotStarted, Idle, map[], {}, [], [], map[])

  const SERVING: seq<Action> :=
    [Run(Starts), Client(BeginEnqueue(0, Register(7), true)), Client(FinishEnqueue(0)),
     Run(RunAction.Takes(RegisterQueue)), Run(Inserts)]

  const TAKING: seq<Action> :=
    SERVING
    + [Client(BeginEnqueue(1, Broadcast(42), true)), Client(FinishEnqueue(1)), Run(RunAction.Takes(BroadcastQueue))]

  const CASTING: seq<Action> := TAKING + [Run(Casts), Run(Sends(7, true)), Run(CastDone)]

  const STOPPING: seq<Action> :=
    CASTING
    + [Caller(CallerAction.Call(0)), Stop(Enters), Stop(Locks), Stop(SetsFlag), Stop(ClosesChannel),
       Stop(ChecksRun), Stop(Unlocks)]

  const STOPPED: seq<Action> :=
    STOPPING
    + [Run(SeesStop), Run(RunAction.Drained), Run(RunAction.ClosesAll), Run(Finishes),
       Caller(PassOnce(0)), Caller(CheckRun(0)), Caller(RunAwaited(0))]

  const SERVED := NEW_HUB.(
    runStarted := true, runner := Choosing, members := {7}, accepted := {7}, log := map[7 := Delivery([], 0, 0, 0)])

  const CASTED := SERVED.(offered := [42], processed := [42], log := map[7 := Delivery([42], 0, 1, 0)])

  const LEFT_OFF := CASTED.(stopped := true, stopClosed := true, stopper := OnceDone, callers := map[0 := AtOnce])

  const AT_REST := LEFT_OFF.(members := {}, closed := {7}, runner := Finished, callers := map[0 := Returned])

  lemma OneMore(run: seq<State>, actions: seq<Action>, a: Action) returns (longer: seq<State>)
    requires IsRun(run, actions) && Enabled(run[|actions|], a)
    ensures IsRun(longer, actions + [a]) && longer[|actions| + 1] == Apply(run[|actions|], a)
  {
    longer := run + [Apply(run[|actions|], a)];
  }

  lemma NewHubRuns()
    ensures IsRun([NEW_HUB], [])
  {
  }

  /** A connection registers and is in the set. */
  lemma Serves() returns (run: seq<State>)
    ensures IsRun(run, SERVING) && run[|SERVING|] == SERVED
  {
    hide IsRun;
    NewHubRuns();
    run := [NEW_HUB];
    var done: seq<Action> := [];
    run := OneMore(run, done, Run(Starts));
    done := done + [Run(Starts)];
    run := OneMore(run, done, Client(BeginEnqueue(0, Register(7), true)));
    done := done + [Client(BeginEnqueue(0, Register(7), true))];
    run := OneMore(run, done, Client(FinishEnqueue(0)));
    done := done + [Client(FinishEnqueue(0))];
    run := OneMore(run, done, Run(RunAction.Takes(RegisterQueue)));
    done := done + [Run(RunAction.Takes(RegisterQueue))];
    run := OneMore(run, done, Run(Inserts));
    done := done + [Run(Inserts)];
    assert done == SERVING;
  }

  lemma TakesMessage() returns (run: seq<State>)
    ensures IsRun(run, TAKING) && run[|TAKING|] == SERVED.(offered := [42], runner := Holding(42))
  {
    hide IsRun;
    run := Serves();
    var done: seq<Action> := SERVING;
    run := OneMore(run, done, Client(BeginEnqueue(1, Broadcast(42), true)));
    done := done + [Client(BeginEnqueue(1, Broadcast(42), true))];
    run := OneMore(run, done, Client(FinishEnqueue(1)));
    done := done + [Client(FinishEnqueue(1))];
    run := OneMore(run, done, Run(RunAction.Takes(BroadcastQueue)));
    done := done + [Run(RunAction.Takes(BroadcastQueue))];
    assert done == TAKING;
  }

  /** It gets a broadcast. */
  lemma CastsOnce() returns (run: seq<State>)
    ensures IsRun(run, CASTING) && run[|CASTING|] == CASTED
  {
    hide IsRun;
    run := TakesMessage();
    var done: seq<Action> := TAKING;
    run := OneMore(run, done, Run(Casts));
    done := done + [Run(Casts)];
    run := OneMore(run, done, Run(Sends(7, true)));
    done := done + [Run(Sends(7, true))];
    run := OneMore(run, done, Run(CastDone));
    done := done + [Run(CastDone)];
    assert done == CASTING;
  }

  lemma StopsOnce() returns (run: seq<State>)
    ensures IsRun(run, STOPPING) && run[|STOPPING|] == LEFT_OFF
  {
    hide IsRun;
    run := CastsOnce();
    var done: seq<Action> := CASTING;
    run := OneMore(run, done, Caller(CallerAction.Call(0)));
    done := done + [Caller(CallerAction.Call(0))];
    run := OneMore(run, done, Stop(Enters));
    done := done + [Stop(Enters)];
    run := OneMore(run, done, Stop(Locks));
    done := done + [Stop(Locks)];
    run := OneMore(run, done, Stop(SetsFlag));
    done := done + [Stop(SetsFlag)];
    run := OneMore(run, done, Stop(ClosesChannel));
    done := done + [Stop(ClosesChannel)];
    run := OneMore(run, done, Stop(ChecksRun));
    done := done + [Stop(ChecksRun)];
    run := OneMore(run, done, Stop(Unlocks));
    done := done + [Stop(Unlocks)];
    assert done == STOPPING;
  }

  /** A hub starts, takes a connection in, sends it a message, is stopped, closes it and lets the Stop return. */
  lemma WholeLife() returns (run: seq<State>)
    ensures IsRun(run, STOPPED) && run[|STOPPED|] == AT_REST
  {
    hide IsRun;
    run := StopsOnce();
    var done: seq<Action> := STOPPING;
    run := OneMore(run, done, Run(SeesStop));
    done := done + [Run(SeesStop)];
    run := OneMore(run, done, Run(RunAction.Drained));
    done := done + [Run(RunAction.Drained)];
    run := OneMore(run, done, Run(RunAction.ClosesAll));
    done := done + [Run(RunAction.ClosesAll)];
    run := OneMore(run, done, Run(Finishes));
    done := done + [Run(Finishes)];
    run := OneMore(run, done, Caller(PassOnce(0)));
    done := done + [Caller(PassOnce(0))];
    run := OneMore(run, done, Caller(CheckRun(0)));
    done := done + [Caller(CheckRun(0))];
    run := OneMore(run, done, Caller(RunAwaited(0)));
    done := done + [Caller(RunAwaited(0))];
    assert done == STOPPED;
  }
}
