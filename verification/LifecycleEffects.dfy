/** What the steps of an application's life do to its state, to one goroutine and to one caller of Init. */
module LifecycleEffects {
  import opened AppLifecycle
  import opened Text

  predicate Open(stage: Stage) { stage == Created || stage == Initializing || stage == Initialized }

  /** The state moves when Init begins, succeeds or fails, when Shutdown begins, and when either has cleaned up. */
  predicate StageChanges(s: State, a: Action, t: State) {
    t.stage == (if a == Init(ChecksStage) && s.stage == Created then Initializing
                else if a == Init(MarksInitialized) then Initialized
                else if a == Init(MarksStopping) || (a == Down(ChecksState) && Open(s.stage)) then Stopping
                else if a == Init(RolledBack) || a == Down(ResourcesClosed) then Stopped
                else s.stage)
  }

  /** A call of Go is admitted exactly if it looks while the app is open; what is admitted is then started, and
      runs until it ends. */
  predicate WorkChanges(s: State, a: Action, t: State, id: nat) {
    && (id in t.readers <==> a == Go(GoAction.Call(id)) || (id in s.readers && a != Go(Checks(id))))
    && (id in t.admitted <==> (a == Go(Checks(id)) && Open(s.stage)) || (id in s.admitted && a != Go(Adds(id))))
    && (id in t.live <==> a == Go(Adds(id)) || (id in s.live && a != Go(WorkEnds(id))))
  }

  /** The counters count what runs once: doInit from the look that finds the app new, the rollback after the
      wait, doShutdown from the look that finds the app open. */
  predicate CountersChange(s: State, a: Action, t: State) {
    && t.doInits == s.doInits + (if a == Init(ChecksStage) && s.stage == Created then 1 else 0)
    && t.rollbacks == s.rollbacks + (if a.Init? && a.i.WorkAwaited? then 1 else 0)
    && t.doShutdowns == s.doShutdowns + (if a == Down(ChecksState) && Open(s.stage) then 1 else 0)
    && t.doInitOk == (if a.Init? && a.i.DoInitEnds? then Some(a.i.ok) else s.doInitOk)
  }

  /** Callers come, wait for the mutex or for the one Shutdown, and return; a wait for the goroutines begins once
      the app is stopping. */
  predicate CallsChange(s: State, a: Action, t: State, id: nat) {
    && (id in t.initWaiting <==> a == Init(InitAction.Call(id)) || (id in s.initWaiting && a != Init(Lock(id))))
    && (id in t.initResults <==>
          id in s.initResults || (a == Init(InitAction.Unlocks) && s.holder.InitBy? && s.holder.id == id))
    && (id in t.downWaiting <==>
          (a == Down(DownAction.Call(id)) && s.once != Unused) || (id in s.downWaiting && a != Down(OnceReturns(id))))
    && (id in t.downReturned <==>
          a == Down(OnceReturns(id)) || id in s.downReturned
          || (a == Down(DownAction.Unlocks) && s.holder.DownBy? && s.holder.id == id))
    && (t.waitBegun <==> s.waitBegun || a == Init(MarksStopping) || a == Down(HooksDone))
  }

  lemma InitExact(s: State, a: InitAction, id: nat)
    requires InitEnabled(s, a)
    ensures StageChanges(s, Init(a), InitStep(s, a)) && WorkChanges(s, Init(a), InitStep(s, a), id)
    ensures CountersChange(s, Init(a), InitStep(s, a)) && CallsChange(s, Init(a), InitStep(s, a), id)
  {
  }

  lemma DownExact(s: State, a: DownAction, id: nat)
    requires DownEnabled(s, a)
    ensures StageChanges(s, Down(a), DownStep(s, a)) && WorkChanges(s, Down(a), DownStep(s, a), id)
    ensures CountersChange(s, Down(a), DownStep(s, a)) && CallsChange(s, Down(a), DownStep(s, a), id)
  {
  }

  lemma GoExact(s: State, a: GoAction, id: nat)
    requires GoEnabled(s, a)
    ensures StageChanges(s, Go(a), GoStep(s, a)) && WorkChanges(s, Go(a), GoStep(s, a), id)
    ensures CountersChange(s, Go(a), GoStep(s, a)) && CallsChange(s, Go(a), GoStep(s, a), id)
  {
  }

  /** In every run: what one action does to the state, to the goroutine of one call of Go and to the counters. */
  lemma ChangesExactly(run: seq<State>, actions: seq<Action>, i: nat, id: nat)
    requires IsRun(run, actions) && i < |actions|
    ensures StageChanges(run[i], actions[i], run[i + 1]) && WorkChanges(run[i], actions[i], run[i + 1], id)
    ensures CountersChange(run[i], actions[i], run[i + 1]) && CallsChange(run[i], actions[i], run[i + 1], id)
  {
    hide InitEnabled, DownEnabled, GoEnabled, InitStep, DownStep, GoStep, StageChanges, WorkChanges, CountersChange;
    hide CallsChange;
    match actions[i]
    case Init(a) => InitExact(run[i], a, id);
    case Down(a) => DownExact(run[i], a, id);
    case Go(a) => GoExact(run[i], a, id);
  }

  /** A call of Go that looks before the app is stopping is admitted and can be started, as long as it has not
      been: the state cannot become stopping in between. */
  lemma {:induction false} AdmittedUntilStarted(run: seq<State>, actions: seq<Action>, i: nat, j: nat, id: nat)
    requires IsRun(run, actions) && i < j < |run| && actions[i] == Go(Checks(id)) && Open(run[i].stage)
    requires forall k :: i < k < j ==> actions[k] != Go(Adds(id))
    ensures id in run[j].admitted && Open(run[j].stage) && Enabled(run[j], Go(Adds(id)))
  {
    hide Enabled, Apply, Initial;
    ChangesExactly(run, actions, j - 1, id);
    if j > i + 1 { AdmittedUntilStarted(run, actions, i, j - 1, id); }
    StaysOpen(run[j - 1], actions[j - 1], id);
    AddsEnabled(run[j], id);
  }

  lemma AddsEnabled(s: State, id: nat)
    requires id in s.admitted
    ensures Enabled(s, Go(Adds(id)))
  {
  }

  lemma StaysOpen(s: State, a: Action, id: nat)
    requires Enabled(s, a) && (id in s.admitted || a == Go(Checks(id))) && Open(s.stage)
    ensures Open(Apply(s, a).stage)
  {
  }

  /** A wait for the goroutines that does not give up ends only when none is alive. */
  lemma AwaitedMeansIdle(run: seq<State>, actions: seq<Action>, i: nat)
    requires IsRun(run, actions) && i < |actions|
    requires actions[i] == Init(InitAction.WorkAwaited(false)) || actions[i] == Down(DownAction.WorkAwaited(false))
    ensures run[i].live == {}
  {
    RunInv(run, actions, i);
    hide StageOk, CountsOk, OutcomeOk, ResultsOk, BranchOk;
  }

  // ----- what a caller of Init is told

  /** The caller of Init that saw this state when it looked, on its way out or still at work. */
  predicate OnItsWay(s: State, id: nat, saw: Stage) {
    && s.holder.InitBy? && s.holder.id == id
    && match saw
       case Created => s.holder.phase != CheckingStage
                       && (s.holder.phase.Leaving? ==> s.holder.phase == Leaving(OutcomeOf(s.doInitOk)))
       case Initialized => s.holder.phase == Leaving(Success)
       case Stopping => s.holder.phase == Leaving(AppClosed)
       case Stopped => s.holder.phase == Leaving(AppClosed)
       case Initializing => true
  }

  function OutcomeOf(ok: Option<bool>): Outcome { if ok == Some(true) then Success else InitError }

  /** What a caller that saw this state is to be told. */
  function ToTell(saw: Stage, ok: Option<bool>): Outcome {
    match saw
    case Created => OutcomeOf(ok)
    case Initialized => Success
    case _ => AppClosed
  }

  lemma LookedAtStage(s: State)
    requires Enabled(s, Init(ChecksStage)) && Inv(s)
    ensures s.holder.InitBy? && s.stage != Initializing
    ensures OnItsWay(Apply(s, Init(ChecksStage)), s.holder.id, s.stage)
  {
    hide CountsOk, ResultsOk, WorkOk, BranchOk;
  }

  lemma GoesOn(s: State, a: Action, id: nat, saw: Stage)
    requires Enabled(s, a) && Inv(s) && OnItsWay(s, id, saw) && saw != Initializing && a != Init(InitAction.Unlocks)
    ensures OnItsWay(Apply(s, a), id, saw)
  {
    hide CountsOk, ResultsOk, WorkOk, BranchOk, StageOk;
  }

  lemma {:induction false} StaysOnItsWay(run: seq<State>, actions: seq<Action>, i: nat, j: nat)
    requires IsRun(run, actions) && i < j < |run| && actions[i] == Init(ChecksStage)
    requires forall k :: i < k < j ==> actions[k] != Init(InitAction.Unlocks)
    ensures run[i].holder.InitBy? && run[i].stage != Initializing
    ensures OnItsWay(run[j], run[i].holder.id, run[i].stage)
  {
    hide Enabled, Apply, Initial, Inv, OnItsWay;
    RunInv(run, actions, j - 1);
    if j > i + 1 {
      StaysOnItsWay(run, actions, i, j - 1);
      GoesOn(run[j - 1], actions[j - 1], run[i].holder.id, run[i].stage);
    } else {
      LookedAtStage(run[i]);
    }
  }

  /** A caller of Init is told what the state was when it looked: it runs doInit if the app was new, and is told
      how that went; it is told of success if the app was initialised, and that it is closed if it was stopping
      or stopped. */
  lemma InitTellsExactly(run: seq<State>, actions: seq<Action>, i: nat, j: nat)
    requires IsRun(run, actions) && i < j < |actions| && actions[i] == Init(ChecksStage)
    requires actions[j] == Init(InitAction.Unlocks)
    requires forall k :: i < k < j ==> actions[k] != Init(InitAction.Unlocks)
    ensures run[i].holder.InitBy? && run[i].holder.id in run[j + 1].initResults
    ensures run[j + 1].initResults[run[i].holder.id] == ToTell(run[i].stage, run[j].doInitOk)
  {
    StaysOnItsWay(run, actions, i, j);
    assert Enabled(run[j], actions[j]) && run[j + 1] == Apply(run[j], actions[j]);
  }

  // ----- a run in which everything happens

  const INITIALISING: seq<Action> :=
    [Init(InitAction.Call(0)), Init(Lock(0)), Init(ChecksStage), Init(DoInitEnds(true)),
     Init(MarksInitialized), Init(InitAction.Unlocks)]

  const WORKING: seq<Action> :=
    INITIALISING
    + [Go(GoAction.Call(7)), Go(Checks(7)), Go(Adds(7)), Down(DownAction.Call(1)), Down(Locks),
       Down(ChecksState)]

  const SHUT_DOWN: seq<Action> :=
    WORKING
    + [Down(HooksDone), Go(WorkEnds(7)), Down(DownAction.WorkAwaited(false)), Down(ResourcesClosed),
       Down(DownAction.Unlocks)]

  const UP := NEW_APP.(stage := Initialized, initResults := map[0 := Success], doInits := 1, doInitOk := Some(true))

  const BUSY := UP.(
    stage := Stopping, holder := DownBy(1, Hooks), once := Entered(1), live := {7}, wg := 1, doShutdowns := 1)

  const AT_REST := BUSY.(
    stage := Stopped, holder := Free, once := Over, downReturned := {1}, live := {}, wg := 0, waitBegun := true)

  lemma Initialises() returns (run: seq<State>)
    ensures IsRun(run, INITIALISING) && run[|INITIALISING|] == UP
  {
    hide IsRun;
    NewAppRuns();
    run := [NEW_APP];
    var done: seq<Action> := [];
    run := OneMore(run, done, Init(InitAction.Call(0)));
    done := done + [Init(InitAction.Call(0))];
    run := OneMore(run, done, Init(Lock(0)));
    done := done + [Init(Lock(0))];
    run := OneMore(run, done, Init(ChecksStage));
    done := done + [Init(ChecksStage)];
    run := OneMore(run, done, Init(DoInitEnds(true)));
    done := done + [Init(DoInitEnds(true))];
    run := OneMore(run, done, Init(MarksInitialized));
    done := done + [Init(MarksInitialized)];
    run := OneMore(run, done, Init(InitAction.Unlocks));
    done := done + [Init(InitAction.Unlocks)];
    assert done == INITIALISING;
  }

  lemma Starts() returns (run: seq<State>)
    ensures IsRun(run, WORKING) && run[|WORKING|] == BUSY
  {
    hide IsRun;
    run := Initialises();
    var done: seq<Action> := INITIALISING;
    run := OneMore(run, done, Go(GoAction.Call(7)));
    done := done + [Go(GoAction.Call(7))];
    run := OneMore(run, done, Go(Checks(7)));
    done := done + [Go(Checks(7))];
    run := OneMore(run, done, Go(Adds(7)));
    done := done + [Go(Adds(7))];
    run := OneMore(run, done, Down(DownAction.Call(1)));
    done := done + [Down(DownAction.Call(1))];
    run := OneMore(run, done, Down(Locks));
    done := done + [Down(Locks)];
    run := OneMore(run, done, Down(ChecksState));
    done := done + [Down(ChecksState)];
    assert done == WORKING;
  }

  /** An app initialises, starts a goroutine, and is shut down once that has ended. */
  lemma WholeLife() returns (run: seq<State>)
    ensures IsRun(run, SHUT_DOWN) && run[|SHUT_DOWN|] == AT_REST
  {
    hide IsRun;
    run := Starts();
    var done: seq<Action> := WORKING;
    run := OneMore(run, done, Down(HooksDone));
    done := done + [Down(HooksDone)];
    run := OneMore(run, done, Go(WorkEnds(7)));
    done := done + [Go(WorkEnds(7))];
    run := OneMore(run, done, Down(DownAction.WorkAwaited(false)));
    done := done + [Down(DownAction.WorkAwaited(false))];
    run := OneMore(run, done, Down(ResourcesClosed));
    done := done + [Down(ResourcesClosed)];
    run := OneMore(run, done, Down(DownAction.Unlocks));
    done := done + [Down(DownAction.Unlocks)];
    assert done == SHUT_DOWN;
  }
}
