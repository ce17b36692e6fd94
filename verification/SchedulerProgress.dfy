/** Every step that a Stop of the scheduler waits for brings its return nearer. */
module SchedulerProgress {
  import opened CronNext
  import opened Scheduler
  import opened Text
  import opened Totals

  function PhaseLeft(phase: Phase): nat {
    match phase
    case Claimed => 4
    case Executing => 3
    case Recorded => 2
    case Released => 1
  }

  function StopLeft(l: Lifecycle): nat {
    match l
    case Cancelling(_) => 3
    case Draining => 2
    case Drained => 1
    case Free => 0
  }

  ghost function ExecsLeft(execs: map<nat, Exec>): nat {
    Total(map e | e in execs :: PhaseLeft(execs[e].phase))
  }

  /** Live loops, what the executions have still to do, and the steps of the stop itself. */
  ghost function LeftIn(s: State): nat { |s.loops| + ExecsLeft(s.execs) + StopLeft(s.lifecycle) }

  lemma OneExecOn(execs: map<nat, Exec>, later: map<nat, Exec>, e: nat)
    requires e in execs && later - {e} == execs - {e}
    requires e in later ==> PhaseLeft(later[e].phase) < PhaseLeft(execs[e].phase)
    ensures ExecsLeft(later) < ExecsLeft(execs)
  {
    var before := map i | i in execs :: PhaseLeft(execs[i].phase);
    var after := map i | i in later :: PhaseLeft(later[i].phase);
    forall i | i != e ensures i in after <==> i in before {
      assert i in later - {e} <==> i in execs - {e};
    }
    forall i | i in before && i != e ensures after[i] == before[i] {
      assert (later - {e})[i] == (execs - {e})[i];
    }
    assert after - {e} == before - {e};
    TotalFalls(before, after, e);
  }

  predicate Works(a: Action) { a.Spawn? || a.Record? || a.Release? || a.Done? }

  lemma WorkMoves(s: State, a: Action)
    requires Enabled(s, a) && Works(a)
    ensures var t := Apply(s, a);
      && t.loops == s.loops && t.lifecycle == s.lifecycle && a.exec in s.execs
      && t.execs - {a.exec} == s.execs - {a.exec}
      && (a.exec in t.execs ==> PhaseLeft(t.execs[a.exec].phase) < PhaseLeft(s.execs[a.exec].phase))
  {
  }

  lemma StopMoves(s: State, a: Action)
    requires Enabled(s, a) && (a == StopCancel || a == StopSeesZero || a == StopReturnsTrue || a.LoopExit?)
    ensures var t := Apply(s, a);
      && t.execs == s.execs
      && (if a.LoopExit? then a.loop in s.loops && t.loops == s.loops - {a.loop} && t.lifecycle == s.lifecycle
          else t.loops == s.loops && StopLeft(t.lifecycle) < StopLeft(s.lifecycle))
  {
  }

  /** Every step towards the end of a stop lowers what is left; with `Scheduler.StopNeverStuck`, a stop returns
      after finitely many of them unless somebody asks for something new meanwhile. */
  lemma EveryStepCounts(s: State, a: Action)
    requires Enabled(s, a) && Winds(a)
    ensures LeftIn(Apply(s, a)) < LeftIn(s)
  {
    hide ExecsLeft, Enabled, Apply, PhaseLeft, StopLeft;
    var t := Apply(s, a);
    if Works(a) {
      WorkMoves(s, a);
      OneExecOn(s.execs, t.execs, a.exec);
    } else {
      StopMoves(s, a);
      if a.LoopExit? { SizeDown(s.loops, a.loop); }
    }
  }

  // ----- a run in which everything happens

  const NEW_SCHEDULER := State(0, map[], map[], false, 0, {}, 0, map[], map[], None, Free)

  const CHECKING: seq<Action> :=
    [AddTask("t", 0, Interval(60), 0), Start(0, 1), Tick(61), LoopLock(0, 61)]

  const CLAIMED: seq<Action> := CHECKING + [LoopClaim(0, 0, 0)]

  const SPAWNED: seq<Action> := CLAIMED + [LoopUnlock(0), Spawn(0)]

  const RECORDED: seq<Action> := SPAWNED + [Record(0), Release(0)]

  const RUN_ONCE: seq<Action> := RECORDED + [Done(0)]

  const LOOP_GONE: seq<Action> := RUN_ONCE + [StopFlip, StopCancel, LoopExit(0)]

  const STOPPED: seq<Action> := LOOP_GONE + [StopSeesZero, StopReturnsTrue]

  const AT_CHECK := State(
    61, map["t" := 0], map[0 := Task(Interval(60), true, 60, 0, false, 0, 60, 0, None)], true, 0, {}, 1,
    map[0 := Checking(0, 61, {0})], map[], Some(0), Free)

  const JUST_CLAIMED := AT_CHECK.(
    tasks := map[0 := Task(Interval(60), true, 120, 0, true, 1, 60, 1, Some(0))], waitGroup := 2,
    loops := map[0 := Checking(0, 61, {})], execs := map[0 := Exec(0, true, 0, Claimed)])

  const AT_WORK := JUST_CLAIMED.(
    loops := map[0 := Waiting(0)], execs := map[0 := Exec(0, true, 0, Executing)], mutex := None)

  const WORKED := AT_WORK.(
    tasks := map[0 := Task(Interval(60), true, 120, 1, false, 1, 60, 1, None)],
    execs := map[0 := Exec(0, true, 0, Released)])

  const AFTER_WORK := WORKED.(waitGroup := 1, execs := map[])

  const AT_REST := AFTER_WORK.(running := false, cancelled := {0}, waitGroup := 0, loops := map[])

  lemma OneMore(run: seq<State>, actions: seq<Action>, a: Action) returns (longer: seq<State>)
    requires IsRun(run, actions) && Enabled(run[|actions|], a)
    ensures IsRun(longer, actions + [a]) && longer[|actions| + 1] == Apply(run[|actions|], a)
  {
    longer := run + [Apply(run[|actions|], a)];
  }

  lemma NewSchedulerRuns()
    ensures IsRun([NEW_SCHEDULER], [])
  {
  }

  /** A task is added, and a loop begins a check after its time has come. */
  lemma Checks() returns (run: seq<State>)
    ensures IsRun(run, CHECKING) && run[|CHECKING|] == AT_CHECK
  {
    hide IsRun;
    NewSchedulerRuns();
    run := [NEW_SCHEDULER];
    var done: seq<Action> := [];
    run := OneMore(run, done, AddTask("t", 0, Interval(60), 0));
    done := done + [AddTask("t", 0, Interval(60), 0)];
    run := OneMore(run, done, Start(0, 1));
    done := done + [Start(0, 1)];
    run := OneMore(run, done, Tick(61));
    done := done + [Tick(61)];
    run := OneMore(run, done, LoopLock(0, 61));
    done := done + [LoopLock(0, 61)];
    assert run[|done|].names.Values == {0} && run[|done|].tasks.Keys == {0};
    assert run[|done|].loops[0] == Checking(0, 61, {0});
    assert done == CHECKING;
  }

  lemma Claims() returns (run: seq<State>)
    ensures IsRun(run, CLAIMED) && run[|CLAIMED|] == JUST_CLAIMED
  {
    hide IsRun;
    run := Checks();
    var done: seq<Action> := CHECKING;
    run := OneMore(run, done, LoopClaim(0, 0, 0));
    done := done + [LoopClaim(0, 0, 0)];
    assert run[|done|].loops[0] == Checking(0, 61, {});
    assert done == CLAIMED;
  }

  lemma Spawns() returns (run: seq<State>)
    ensures IsRun(run, SPAWNED) && run[|SPAWNED|] == AT_WORK
  {
    hide IsRun, LookedAt, NextRun, ValidSchedule;
    run := Claims();
    var done: seq<Action> := CLAIMED;
    run := OneMore(run, done, LoopUnlock(0));
    done := done + [LoopUnlock(0)];
    run := OneMore(run, done, Spawn(0));
    done := done + [Spawn(0)];
    assert done == SPAWNED;
  }

  lemma Records() returns (run: seq<State>)
    ensures IsRun(run, RECORDED) && run[|RECORDED|] == WORKED
  {
    hide IsRun, LookedAt, NextRun, ValidSchedule;
    run := Spawns();
    var done: seq<Action> := SPAWNED;
    run := OneMore(run, done, Record(0));
    done := done + [Record(0)];
    run := OneMore(run, done, Release(0));
    done := done + [Release(0)];
    assert done == RECORDED;
  }

  lemma RunsOnce() returns (run: seq<State>)
    ensures IsRun(run, RUN_ONCE) && run[|RUN_ONCE|] == AFTER_WORK
  {
    hide IsRun, LookedAt, NextRun, ValidSchedule;
    run := Records();
    var done: seq<Action> := RECORDED;
    run := OneMore(run, done, Done(0));
    done := done + [Done(0)];
    assert done == RUN_ONCE;
  }

  lemma EndsLoop() returns (run: seq<State>)
    ensures IsRun(run, LOOP_GONE) && run[|LOOP_GONE|] == AT_REST.(lifecycle := Draining)
  {
    hide IsRun, LookedAt, NextRun, ValidSchedule, Take;
    run := RunsOnce();
    var done: seq<Action> := RUN_ONCE;
    run := OneMore(run, done, StopFlip);
    done := done + [StopFlip];
    run := OneMore(run, done, StopCancel);
    done := done + [StopCancel];
    run := OneMore(run, done, LoopExit(0));
    done := done + [LoopExit(0)];
    assert done == LOOP_GONE;
  }

  /** A scheduler is given a task, starts, runs it once when it is due, and is stopped. */
  lemma WholeLife() returns (run: seq<State>)
    ensures IsRun(run, STOPPED) && run[|STOPPED|] == AT_REST
  {
    hide IsRun, LookedAt, NextRun, ValidSchedule, Take;
    run := EndsLoop();
    var done: seq<Action> := LOOP_GONE;
    run := OneMore(run, done, StopSeesZero);
    done := done + [StopSeesZero];
    run := OneMore(run, done, StopReturnsTrue);
    done := done + [StopReturnsTrue];
    assert done == STOPPED;
  }
}
