/** The life of one application as a state machine over its atomic actions: any number of callers of
    Init, Shutdown and Go, the mutex that serialises the first two, the reader-writer lock around the
    state, and the wait group of the background goroutines.  The counters of runs are history. */
module AppLifecycle {
  import opened Text

  datatype Stage = Created | Initializing | Initialized | Stopping | Stopped

  function Rank(stage: Stage): nat {
    match stage
    case Created => 0
    case Initializing => 1
    case Initialized => 2
    case Stopping => 3
    case Stopped => 4
  }

  datatype Outcome = Success | InitError | AppClosed

  /** What the caller of Init that holds the mutex is about to do. */
  datatype InitPhase =
    | CheckingStage
    | InDoInit
    | Succeeded
    | Failed
    | AwaitingWork        // stopping, waits for the goroutines or ten seconds
    | RollingBack
    | Leaving(outcome: Outcome)

  datatype DownPhase =
    | CheckingState
    | Hooks               // doShutdown up to the cancelling of the root context
    | Awaiting            // waits for the goroutines or the timeout
    | Closing
    | LeavingDown

  datatype Holder = Free | InitBy(id: nat, phase: InitPhase) | DownBy(id: nat, down: DownPhase)

  datatype Once = Unused | Entered(id: nat) | Over

  datatype State = State(
    stage: Stage,
    holder: Holder,                 // of the mutex
    initWaiting: set<nat>,
    initResults: map<nat, Outcome>,
    once: Once,
    downWaiting: set<nat>,
    downReturned: set<nat>,
    readers: set<nat>,              // calls of Go under the read lock, state not yet looked at
    admitted: set<nat>,             // calls of Go under the read lock that found the app running
    live: set<nat>,                 // background goroutines
    wg: int,
    waitBegun: bool,
    doInits: nat,
    doShutdowns: nat,
    rollbacks: nat,
    doInitOk: Option<bool>)

  datatype InitAction =
    | Call(id: nat)
    | Lock(id: nat)
    | ChecksStage
    | DoInitEnds(ok: bool)
    | MarksInitialized
    | MarksStopping
    | WorkAwaited(timedOut: bool)
    | RolledBack
    | Unlocks

  datatype DownAction =
    | Call(id: nat)
    | Locks
    | ChecksState
    | HooksDone
    | WorkAwaited(timedOut: bool)
    | ResourcesClosed
    | Unlocks
    | OnceReturns(id: nat)

  datatype GoAction =
    | Call(id: nat)
    | Checks(id: nat)
    | Adds(id: nat)
    | WorkEnds(id: nat)

  datatype Action = Init(i: InitAction) | Down(d: DownAction) | Go(g: GoAction)

  /** The state can be written: nobody holds the read lock. */
  predicate Writable(s: State) { s.readers == {} && s.admitted == {} }

  predicate InitAt(s: State, phase: InitPhase) { s.holder.InitBy? && s.holder.phase == phase }

  predicate DownAt(s: State, down: DownPhase) { s.holder.DownBy? && s.holder.down == down }

  predicate InitEnabled(s: State, a: InitAction) {
    match a
    case Call(id) => id !in s.initWaiting && id !in s.initResults && !(s.holder.InitBy? && s.holder.id == id)
    case Lock(id) => id in s.initWaiting && s.holder == Free
    case ChecksStage => InitAt(s, CheckingStage) && Writable(s)
    case DoInitEnds(_) => InitAt(s, InDoInit)
    case MarksInitialized => InitAt(s, Succeeded) && Writable(s)
    case MarksStopping => InitAt(s, Failed) && Writable(s)
    case WorkAwaited(timedOut) => InitAt(s, AwaitingWork) && (s.wg == 0 || timedOut)
    case RolledBack => InitAt(s, RollingBack) && Writable(s)
    case Unlocks => s.holder.InitBy? && s.holder.phase.Leaving?
  }

  predicate DownEnabled(s: State, a: DownAction) {
    match a
    case Call(id) => id !in s.downWaiting && id !in s.downReturned && s.once != Entered(id)
    case Locks => s.once.Entered? && s.holder == Free
    case ChecksState => DownAt(s, CheckingState) && Writable(s)
    case HooksDone => DownAt(s, Hooks)
    case WorkAwaited(timedOut) => DownAt(s, Awaiting) && (s.wg == 0 || timedOut)
    case ResourcesClosed => DownAt(s, Closing) && Writable(s)
    case Unlocks => DownAt(s, LeavingDown)
    case OnceReturns(id) => id in s.downWaiting && s.once == Over
  }

  predicate GoEnabled(s: State, a: GoAction) {
    match a
    case Call(id) => id !in s.readers && id !in s.admitted && id !in s.live
    case Checks(id) => id in s.readers
    case Adds(id) => id in s.admitted
    case WorkEnds(id) => id in s.live
  }

  predicate Enabled(s: State, a: Action) {
    match a
    case Init(i) => InitEnabled(s, i)
    case Down(d) => DownEnabled(s, d)
    case Go(g) => GoEnabled(s, g)
  }

  function InitMoves(s: State, phase: InitPhase): State
    requires s.holder.InitBy?
  {
    s.(holder := InitBy(s.holder.id, phase))
  }

  function DownMoves(s: State, down: DownPhase): State
    requires s.holder.DownBy?
  {
    s.(holder := DownBy(s.holder.id, down))
  }

  /** Init looks at the state, with the state lock held. */
  function StageChecked(s: State): State
    requires s.holder.InitBy?
  {
    match s.stage
    case Created => InitMoves(s, InDoInit).(stage := Initializing, doInits := s.doInits + 1)
    case Initialized => InitMoves(s, Leaving(Success))
    case Initializing => InitMoves(s, Leaving(Success))
    case _ => InitMoves(s, Leaving(AppClosed))
  }

  function StateChecked(s: State): State
    requires s.holder.DownBy?
  {
    if Rank(s.stage) >= Rank(Stopping) then DownMoves(s, LeavingDown)
    else DownMoves(s, Hooks).(stage := Stopping, doShutdowns := s.doShutdowns + 1)
  }

  function InitStep(s: State, a: InitAction): State
    requires InitEnabled(s, a)
  {
    match a
    case Call(id) => s.(initWaiting := s.initWaiting + {id})
    case Lock(id) => s.(initWaiting := s.initWaiting - {id}, holder := InitBy(id, CheckingStage))
    case ChecksStage => StageChecked(s)
    case DoInitEnds(ok) => InitMoves(s, if ok then Succeeded else Failed).(doInitOk := Some(ok))
    case MarksInitialized => InitMoves(s, Leaving(Success)).(stage := Initialized)
    case MarksStopping => InitMoves(s, AwaitingWork).(stage := Stopping, waitBegun := true)
    case WorkAwaited(_) => InitMoves(s, RollingBack).(rollbacks := s.rollbacks + 1)
    case RolledBack => InitMoves(s, Leaving(InitError)).(stage := Stopped)
    case Unlocks => s.(holder := Free, initResults := s.initResults[s.holder.id := s.holder.phase.outcome])
  }

  function DownStep(s: State, a: DownAction): State
    requires DownEnabled(s, a)
  {
    match a
    case Call(id) => if s.once == Unused then s.(once := Entered(id)) else s.(downWaiting := s.downWaiting + {id})
    case Locks => s.(holder := DownBy(s.once.id, CheckingState))
    case ChecksState => StateChecked(s)
    case HooksDone => DownMoves(s, Awaiting).(waitBegun := true)
    case WorkAwaited(_) => DownMoves(s, Closing)
    case ResourcesClosed => DownMoves(s, LeavingDown).(stage := Stopped)
    case Unlocks => s.(holder := Free, once := Over, downReturned := s.downReturned + {s.holder.id})
    case OnceReturns(id) => s.(downWaiting := s.downWaiting - {id}, downReturned := s.downReturned + {id})
  }

  function GoStep(s: State, a: GoAction): State
    requires GoEnabled(s, a)
  {
    match a
    case Call(id) => s.(readers := s.readers + {id})
    case Checks(id) =>
      s.(readers := s.readers - {id},
         admitted := if Rank(s.stage) < Rank(Stopping) then s.admitted + {id} else s.admitted)
    case Adds(id) => s.(admitted := s.admitted - {id}, live := s.live + {id}, wg := s.wg + 1)
    case WorkEnds(id) => s.(live := s.live - {id}, wg := s.wg - 1)
  }

  function Apply(s: State, a: Action): State
    requires Enabled(s, a)
  {
    match a
    case Init(i) => InitStep(s, i)
    case Down(d) => DownStep(s, d)
    case Go(g) => GoStep(s, g)
  }

  predicate Initial(s: State) {
    && s.stage == Created && s.holder == Free && s.initWaiting == {} && s.initResults == map[]
    && s.once == Unused && s.downWaiting == {} && s.downReturned == {}
    && s.readers == {} && s.admitted == {} && s.live == {} && s.wg == 0 && !s.waitBegun
    && s.doInits == 0 && s.doShutdowns == 0 && s.rollbacks == 0 && s.doInitOk == None
  }

  // ----- invariants

  predicate InInit(s: State) { InitAt(s, InDoInit) || InitAt(s, Succeeded) || InitAt(s, Failed) }

  predicate InRollback(s: State) { InitAt(s, AwaitingWork) || InitAt(s, RollingBack) }

  predicate InShutdown(s: State) { DownAt(s, Hooks) || DownAt(s, Awaiting) || DownAt(s, Closing) }

  /** Where the state is, and who may be working on the resources. */
  predicate StageOk(s: State) {
    && (s.stage == Initializing <==> InInit(s))
    && (s.stage == Stopping <==> InRollback(s) || InShutdown(s))
    && (DownAt(s, LeavingDown) || s.once == Over ==> s.stage == Stopped)
    && (s.holder.DownBy? ==> s.once == Entered(s.holder.id))
    && (s.downReturned != {} ==> s.once == Over)
    && (s.downWaiting != {} ==> s.once != Unused)
  }

  predicate CountsOk(s: State) {
    && s.doInits == (if s.stage == Created || (Rank(s.stage) >= 3 && s.doInitOk == None) then 0 else 1)
    && s.doShutdowns + s.rollbacks == (if Rank(s.stage) < 3 || InitAt(s, AwaitingWork) then 0 else 1)
    && (InitAt(s, RollingBack) ==> s.doShutdowns == 0)
    && (InShutdown(s) ==> s.rollbacks == 0)
  }

  predicate OutcomeOk(s: State) {
    && (s.stage == Created || InitAt(s, InDoInit) ==> s.doInitOk == None)
    && (s.stage == Initialized || InitAt(s, Succeeded) ==> s.doInitOk == Some(true))
    && (InitAt(s, Failed) || InRollback(s) || s.rollbacks > 0 ==> s.doInitOk == Some(false))
    && (s.holder.InitBy? && s.holder.phase.Leaving? ==> Explains(s, s.holder.phase.outcome))
  }

  predicate Explains(s: State, outcome: Outcome) {
    match outcome
    case Success => s.doInitOk == Some(true)
    case InitError => s.doInitOk == Some(false) && s.stage == Stopped && s.rollbacks == 1
    case AppClosed => s.stage == Stopped
  }

  ghost predicate ResultsOk(s: State) {
    forall id :: id in s.initResults ==> Explains(s, s.initResults[id])
  }

  predicate WorkOk(s: State) {
    && s.wg == |s.live| && s.readers !! s.admitted && s.readers !! s.live && s.admitted !! s.live
    && (s.admitted != {} ==> Rank(s.stage) < Rank(Stopping))
    && (s.waitBegun ==> Rank(s.stage) >= Rank(Stopping))
  }

  /** doShutdown belongs to the one Shutdown that has checked the state; a doInit that failed has stopped
      the app, or is about to. */
  predicate BranchOk(s: State) {
    && (s.doShutdowns > 0 ==> InShutdown(s) || DownAt(s, LeavingDown) || s.once == Over)
    && (s.doInitOk == Some(false) ==> InitAt(s, Failed) || Rank(s.stage) >= Rank(Stopping))
  }

  ghost predicate Inv(s: State) {
    StageOk(s) && CountsOk(s) && OutcomeOk(s) && ResultsOk(s) && WorkOk(s) && BranchOk(s)
  }

  lemma InitKeepsBranch(s: State, a: InitAction)
    requires InitEnabled(s, a) && StageOk(s) && CountsOk(s) && BranchOk(s)
    ensures BranchOk(InitStep(s, a))
  {
  }

  lemma DownKeepsBranch(s: State, a: DownAction)
    requires DownEnabled(s, a) && StageOk(s) && BranchOk(s)
    ensures BranchOk(DownStep(s, a))
  {
  }

  lemma InitKeepsStage(s: State, a: InitAction)
    requires InitEnabled(s, a) && StageOk(s)
    ensures StageOk(InitStep(s, a))
  {
  }

  lemma DownKeepsStage(s: State, a: DownAction)
    requires DownEnabled(s, a) && StageOk(s)
    ensures StageOk(DownStep(s, a))
  {
  }

  lemma InitKeepsCounts(s: State, a: InitAction)
    requires InitEnabled(s, a) && StageOk(s) && CountsOk(s) && OutcomeOk(s)
    ensures CountsOk(InitStep(s, a))
  {
  }

  lemma DownKeepsCounts(s: State, a: DownAction)
    requires DownEnabled(s, a) && StageOk(s) && CountsOk(s) && OutcomeOk(s)
    ensures CountsOk(DownStep(s, a))
  {
  }

  lemma InitKeepsOutcome(s: State, a: InitAction)
    requires InitEnabled(s, a) && StageOk(s) && CountsOk(s) && OutcomeOk(s)
    ensures OutcomeOk(InitStep(s, a))
  {
  }

  lemma DownKeepsOutcome(s: State, a: DownAction)
    requires DownEnabled(s, a) && StageOk(s) && CountsOk(s) && OutcomeOk(s)
    ensures OutcomeOk(DownStep(s, a))
  {
  }

  lemma InitKeepsWork(s: State, a: InitAction)
    requires InitEnabled(s, a) && StageOk(s) && WorkOk(s)
    ensures WorkOk(InitStep(s, a))
  {
  }

  lemma DownKeepsWork(s: State, a: DownAction)
    requires DownEnabled(s, a) && StageOk(s) && WorkOk(s)
    ensures WorkOk(DownStep(s, a))
  {
  }

  lemma GoKeepsWork(s: State, a: GoAction)
    requires GoEnabled(s, a) && WorkOk(s)
    ensures WorkOk(GoStep(s, a))
  {
  }

  predicate SameRest(s: State, t: State) {
    && t.stage == s.stage && t.holder == s.holder && t.once == s.once && t.initResults == s.initResults
    && t.downWaiting == s.downWaiting && t.downReturned == s.downReturned && t.doInits == s.doInits
    && t.doShutdowns == s.doShutdowns && t.rollbacks == s.rollbacks && t.doInitOk == s.doInitOk
  }

  /** Go touches neither the state nor the mutex. */
  lemma GoLeavesRest(s: State, a: GoAction)
    requires GoEnabled(s, a)
    ensures SameRest(s, GoStep(s, a))
  {
    match a
    case Call(id) =>
    case Checks(id) =>
    case Adds(id) =>
    case WorkEnds(id) =>
  }

  lemma GoKeepsRest(s: State, a: GoAction)
    requires GoEnabled(s, a) && Inv(s)
    ensures StageOk(GoStep(s, a)) && CountsOk(GoStep(s, a)) && OutcomeOk(GoStep(s, a)) && ResultsOk(GoStep(s, a))
    ensures BranchOk(GoStep(s, a))
  {
    GoLeavesRest(s, a);
    hide GoStep, GoEnabled, WorkOk;
  }

  lemma InitKeepsResults(s: State, a: InitAction)
    requires InitEnabled(s, a) && Inv(s)
    ensures ResultsOk(InitStep(s, a))
  {
  }

  lemma DownKeepsResults(s: State, a: DownAction)
    requires DownEnabled(s, a) && Inv(s)
    ensures ResultsOk(DownStep(s, a))
  {
  }

  lemma StepKeeps(s: State, a: Action)
    requires Enabled(s, a) && Inv(s)
    ensures Inv(Apply(s, a))
  {
    match a
    case Init(i) =>
      InitKeepsStage(s, i);
      InitKeepsCounts(s, i);
      InitKeepsOutcome(s, i);
      InitKeepsResults(s, i);
      InitKeepsWork(s, i);
      InitKeepsBranch(s, i);
    case Down(d) =>
      DownKeepsStage(s, d);
      DownKeepsCounts(s, d);
      DownKeepsOutcome(s, d);
      DownKeepsResults(s, d);
      DownKeepsWork(s, d);
      DownKeepsBranch(s, d);
    case Go(g) =>
      GoKeepsRest(s, g);
      GoKeepsWork(s, g);
    hide StageOk, CountsOk, OutcomeOk, ResultsOk, WorkOk, BranchOk;
    hide InitStep, DownStep, GoStep, InitEnabled, DownEnabled, GoEnabled;
  }

  ghost predicate IsRun(run: seq<State>, actions: seq<Action>) {
    && |run| == |actions| + 1 && Initial(run[0])
    && forall i :: 0 <= i < |actions| ==> Enabled(run[i], actions[i]) && run[i + 1] == Apply(run[i], actions[i])
  }

  lemma {:induction false} RunInv(run: seq<State>, actions: seq<Action>, i: nat)
    requires IsRun(run, actions) && i < |run|
    ensures Inv(run[i])
  {
    hide Enabled, Apply;
    if i > 0 {
      hide Inv;
      RunInv(run, actions, i - 1);
      StepKeeps(run[i - 1], actions[i - 1]);
    }
  }

  // ----- the results

  /** doInit and doShutdown each run at most once and never at the same time; at most one of the
      rollback of a failed Init and doShutdown ever runs. */
  lemma AtMostOnce(run: seq<State>, actions: seq<Action>, i: nat)
    requires IsRun(run, actions) && i < |run|
    ensures run[i].doInits <= 1 && run[i].doShutdowns <= 1
    ensures run[i].rollbacks + run[i].doShutdowns <= 1
    ensures (InInit(run[i]) || InRollback(run[i])) ==> !InShutdown(run[i]) && run[i].doShutdowns == 0
  {
    hide Enabled, Apply;
    RunInv(run, actions, i);
  }

  lemma StepAdvances(s: State, a: Action)
    requires Enabled(s, a) && StageOk(s)
    ensures Rank(s.stage) <= Rank(Apply(s, a).stage)
  {
    if a.Init? { InitAdvances(s, a.i); }
    if a.Down? { DownAdvances(s, a.d); }
    hide InitStep, DownStep, InitEnabled, DownEnabled, Rank;
  }

  lemma InitAdvances(s: State, a: InitAction)
    requires InitEnabled(s, a) && StageOk(s)
    ensures Rank(s.stage) <= Rank(InitStep(s, a).stage)
  {
  }

  lemma DownAdvances(s: State, a: DownAction)
    requires DownEnabled(s, a) && StageOk(s)
    ensures Rank(s.stage) <= Rank(DownStep(s, a).stage)
  {
  }

  /** The state only ever advances. */
  lemma {:induction false} StageAdvances(run: seq<State>, actions: seq<Action>, i: nat, j: nat)
    requires IsRun(run, actions) && i <= j < |run|
    ensures Rank(run[i].stage) <= Rank(run[j].stage)
    decreases j
  {
    hide Enabled, Apply, Rank;
    if i < j {
      RunInv(run, actions, j - 1);
      StageAdvances(run, actions, i, j - 1);
      StepAdvances(run[j - 1], actions[j - 1]);
    }
  }

  lemma StepAddsNoWork(s: State, a: Action)
    requires Enabled(s, a) && WorkOk(s) && Rank(s.stage) >= Rank(Stopping)
    ensures Apply(s, a).wg <= s.wg
  {
    if a.Init? { InitAddsNoWork(s, a.i); }
    if a.Down? { DownAddsNoWork(s, a.d); }
    hide InitStep, DownStep, InitEnabled, DownEnabled;
  }

  lemma InitAddsNoWork(s: State, a: InitAction)
    requires InitEnabled(s, a)
    ensures InitStep(s, a).wg == s.wg
  {
  }

  lemma DownAddsNoWork(s: State, a: DownAction)
    requires DownEnabled(s, a)
    ensures DownStep(s, a).wg == s.wg
  {
  }

  /** Once the app is stopping the wait group only counts down, so no Add can race with the Wait of a
      shutdown or of a failed Init. */
  lemma {:induction false} NoWorkOnceStopping(run: seq<State>, actions: seq<Action>, i: nat, j: nat)
    requires IsRun(run, actions) && i <= j < |run| && Rank(run[i].stage) >= Rank(Stopping)
    ensures 0 <= run[j].wg <= run[i].wg
    decreases j
  {
    hide Enabled, Apply;
    RunInv(run, actions, j);
    if i < j {
      NoWorkOnceStopping(run, actions, i, j - 1);
      RunInv(run, actions, j - 1);
      StageAdvances(run, actions, i, j - 1);
      StepAddsNoWork(run[j - 1], actions[j - 1]);
    }
  }

  lemma NoAddDuringWait(run: seq<State>, actions: seq<Action>, i: nat, id: nat)
    requires IsRun(run, actions) && i < |actions| && actions[i] == Go(Adds(id))
    ensures !run[i].waitBegun && run[i].wg >= 0
  {
    hide Apply;
    RunInv(run, actions, i);
  }

  /** What a returned call of Init tells its caller: success means that doInit ran and succeeded, the
      initialisation error that it failed and was rolled back, so no two callers are told both. */
  lemma InitResults(run: seq<State>, actions: seq<Action>, i: nat, id: nat)
    requires IsRun(run, actions) && i < |run| && id in run[i].initResults
    ensures run[i].initResults[id] == Success ==> run[i].doInitOk == Some(true) && run[i].rollbacks == 0
    ensures run[i].initResults[id] == InitError ==>
      run[i].doInitOk == Some(false) && run[i].rollbacks == 1 && run[i].doShutdowns == 0 && run[i].stage == Stopped
    ensures run[i].initResults[id] == AppClosed ==> run[i].stage == Stopped
  {
    hide Enabled, Apply;
    RunInv(run, actions, i);
    assert Explains(run[i], run[i].initResults[id]);
  }

  /** Once any call of Shutdown has returned the app is stopped for good: nobody is initialising, rolling
      back or shutting down, and nothing of that kind ever starts again. */
  lemma ShutdownIsFinal(run: seq<State>, actions: seq<Action>, i: nat, j: nat)
    requires IsRun(run, actions) && i <= j < |run| && run[i].downReturned != {}
    ensures run[j].stage == Stopped && !InInit(run[j]) && !InRollback(run[j]) && !InShutdown(run[j])
  {
    hide Enabled, Apply;
    RunInv(run, actions, i);
    RunInv(run, actions, j);
    StageAdvances(run, actions, i, j);
  }

  /** The branch of Shutdown for an app that is already stopping or stopped is taken exactly if doInit has
      failed; a comment in the code takes it for unreachable. */
  lemma StoppedBranchIff(run: seq<State>, actions: seq<Action>, i: nat)
    requires IsRun(run, actions) && i < |actions| && actions[i] == Down(ChecksState)
    ensures Rank(run[i].stage) >= Rank(Stopping) <==> run[i].doInitOk == Some(false)
    ensures run[i + 1].doShutdowns == if run[i].doInitOk == Some(false) then 0 else 1
  {
    RunInv(run, actions, i);
    hide IsRun, ResultsOk, WorkOk;
    ActionsApply(run, actions, i);
  }

  lemma ActionsApply(run: seq<State>, actions: seq<Action>, i: nat)
    requires IsRun(run, actions) && i < |actions|
    ensures Enabled(run[i], actions[i]) && run[i + 1] == Apply(run[i], actions[i])
  {
  }

  lemma OneMore(run: seq<State>, actions: seq<Action>, a: Action) returns (longer: seq<State>)
    requires IsRun(run, actions) && Enabled(run[|actions|], a)
    ensures IsRun(longer, actions + [a]) && longer[|actions| + 1] == Apply(run[|actions|], a)
    ensures longer[|actions|] == run[|actions|]
  {
    longer := run + [Apply(run[|actions|], a)];
  }

  const NEW_APP := State(Created, Free, {}, map[], Unused, {}, {}, {}, {}, {}, 0, false, 0, 0, 0, None)

  const INIT_TO_FAILURE: seq<Action> :=
    [Init(InitAction.Call(0)), Init(Lock(0)), Init(ChecksStage), Init(DoInitEnds(false))]

  const FAILED_INIT: seq<Action> :=
    INIT_TO_FAILURE
    + [Init(MarksStopping), Init(InitAction.WorkAwaited(false)), Init(RolledBack), Init(InitAction.Unlocks)]

  lemma InitFails() returns (run: seq<State>)
    ensures IsRun(run, INIT_TO_FAILURE)
    ensures run[4] == NEW_APP.(
      stage := Initializing, holder := InitBy(0, Failed), doInits := 1, doInitOk := Some(false))
  {
    hide IsRun;
    run := [NEW_APP];
    assert IsRun(run, []) by { NewAppRuns(); }
    var actions: seq<Action> := [];
    run := OneMore(run, actions, Init(InitAction.Call(0)));
    actions := actions + [Init(InitAction.Call(0))];
    run := OneMore(run, actions, Init(Lock(0)));
    actions := actions + [Init(Lock(0))];
    run := OneMore(run, actions, Init(ChecksStage));
    actions := actions + [Init(ChecksStage)];
    run := OneMore(run, actions, Init(DoInitEnds(false)));
    assert actions + [Init(DoInitEnds(false))] == INIT_TO_FAILURE;
  }

  lemma NewAppRuns()
    ensures IsRun([NEW_APP], [])
  {
  }

  /** A failed Init, from the call to the return. */
  lemma InitFailsAndReturns() returns (run: seq<State>)
    ensures IsRun(run, FAILED_INIT)
    ensures run[8] == NEW_APP.(stage := Stopped, initResults := map[0 := InitError], waitBegun := true,
                               doInits := 1, rollbacks := 1, doInitOk := Some(false))
  {
    hide IsRun;
    run := InitFails();
    var actions := INIT_TO_FAILURE;
    run := OneMore(run, actions, Init(MarksStopping));
    actions := actions + [Init(MarksStopping)];
    run := OneMore(run, actions, Init(InitAction.WorkAwaited(false)));
    actions := actions + [Init(InitAction.WorkAwaited(false))];
    run := OneMore(run, actions, Init(RolledBack));
    actions := actions + [Init(RolledBack)];
    run := OneMore(run, actions, Init(InitAction.Unlocks));
    assert actions + [Init(InitAction.Unlocks)] == FAILED_INIT;
  }

  /** A Shutdown that follows a failed Init takes that branch: doShutdown never runs. */
  lemma ShutdownAfterFailedInit() returns (run: seq<State>, actions: seq<Action>)
    ensures IsRun(run, actions) && |actions| == 11 && actions[10] == Down(ChecksState)
    ensures Rank(run[10].stage) >= Rank(Stopping) && run[11].doShutdowns == 0 && DownAt(run[11], LeavingDown)
  {
    hide IsRun;
    run := InitFailsAndReturns();
    actions := FAILED_INIT;
    run := OneMore(run, actions, Down(DownAction.Call(1)));
    actions := actions + [Down(DownAction.Call(1))];
    run := OneMore(run, actions, Down(Locks));
    actions := actions + [Down(Locks)];
    run := OneMore(run, actions, Down(ChecksState));
    actions := actions + [Down(ChecksState)];
  }

  // ----- no deadlock

  predicate Unfinished(s: State) {
    s.holder != Free || s.initWaiting != {} || s.once.Entered? || s.downWaiting != {}
  }

  predicate NewCall(a: Action) { (a.Init? && a.i.Call?) || (a.Down? && a.d.Call?) || (a.Go? && a.g.Call?) }

  function PhaseLeft(h: Holder): nat {
    match h
    case Free => 0
    case InitBy(_, phase) =>
      (match phase
       case CheckingStage => 6
       case InDoInit => 5
       case Succeeded => 4
       case Failed => 4
       case AwaitingWork => 3
       case RollingBack => 2
       case Leaving(_) => 1)
    case DownBy(_, down) =>
      (match down
       case CheckingState => 5
       case Hooks => 4
       case Awaiting => 3
       case Closing => 2
       case LeavingDown => 1)
  }

  function CallsLeft(h: Holder, once: Once): nat {
    PhaseLeft(h) + (if once.Entered? && !h.DownBy? then 6 else 0)
  }

  /** Actions still to be taken before every call has returned, if no new ones come. */
  function Remaining(s: State): nat {
    CallsLeft(s.holder, s.once) + 7 * |s.initWaiting| + |s.downWaiting| + 3 * |s.readers| + 2 * |s.admitted| + |s.live|
  }

  /** Whatever is under way, until every call of Init and Shutdown has returned somebody has an action to
      take that is not a new call. */
  lemma NeverStuck(run: seq<State>, actions: seq<Action>, i: nat)
    requires IsRun(run, actions) && i < |run| && Unfinished(run[i])
    ensures exists a :: Enabled(run[i], a) && !NewCall(a)
  {
    hide Apply;
    RunInv(run, actions, i);
    var s := run[i];
    var a := SomeAction(s);
    assert Enabled(s, a) && !NewCall(a);
  }

  lemma SomeAction(s: State) returns (a: Action)
    requires StageOk(s) && Unfinished(s)
    ensures Enabled(s, a) && !NewCall(a)
  {
    if id :| id in s.readers {
      a := Go(Checks(id));
    } else if id :| id in s.admitted {
      a := Go(Adds(id));
    } else if s.holder.InitBy? {
      a := Init(match s.holder.phase
        case CheckingStage => ChecksStage
        case InDoInit => DoInitEnds(true)
        case Succeeded => MarksInitialized
        case Failed => MarksStopping
        case AwaitingWork => InitAction.WorkAwaited(true)
        case RollingBack => RolledBack
        case Leaving(_) => InitAction.Unlocks);
    } else if s.holder.DownBy? {
      a := Down(match s.holder.down
        case CheckingState => ChecksState
        case Hooks => HooksDone
        case Awaiting => DownAction.WorkAwaited(true)
        case Closing => ResourcesClosed
        case LeavingDown => DownAction.Unlocks);
    } else if s.once.Entered? {
      a := Down(Locks);
    } else if id :| id in s.initWaiting {
      a := Init(Lock(id));
    } else {
      var id :| id in s.downWaiting;
      a := Down(OnceReturns(id));
    }
  }

  /** And every such action brings the end nearer: without new calls all return. */
  lemma EveryStepCounts(s: State, a: Action)
    requires Enabled(s, a) && StageOk(s) && !NewCall(a)
    ensures Remaining(Apply(s, a)) < Remaining(s)
  {
    match a
    case Init(i) => InitStepCounts(s, i);
    case Down(d) => DownStepCounts(s, d);
    case Go(g) => GoStepCounts(s, g);
    hide Remaining, InitStep, DownStep, GoStep, InitEnabled, DownEnabled, GoEnabled, StageOk;
  }

  lemma InitStepCounts(s: State, a: InitAction)
    requires InitEnabled(s, a) && !a.Call?
    ensures Remaining(InitStep(s, a)) < Remaining(s)
  {
    var t := InitStep(s, a);
    assert t.downWaiting == s.downWaiting && t.readers == s.readers && t.admitted == s.admitted && t.live == s.live;
    if a.Lock? {
      assert |t.initWaiting| == |s.initWaiting| - 1;
    } else {
      assert t.initWaiting == s.initWaiting;
      assert CallsLeft(t.holder, t.once) < CallsLeft(s.holder, s.once);
    }
  }

  lemma DownStepCounts(s: State, a: DownAction)
    requires DownEnabled(s, a) && !a.Call?
    requires s.holder.DownBy? ==> s.once.Entered?
    ensures Remaining(DownStep(s, a)) < Remaining(s)
  {
    var t := DownStep(s, a);
    if !a.OnceReturns? {
      assert CallsLeft(t.holder, t.once) < CallsLeft(s.holder, s.once);
      assert t.initWaiting == s.initWaiting && t.downWaiting == s.downWaiting;
      assert t.readers == s.readers && t.admitted == s.admitted && t.live == s.live;
    }
  }

  lemma GoStepCounts(s: State, a: GoAction)
    requires GoEnabled(s, a) && !a.Call?
    ensures Remaining(GoStep(s, a)) < Remaining(s)
  {
  }
}
