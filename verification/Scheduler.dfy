/** The cron scheduler as a state machine over its atomic actions: the sections under the two
    locks, the compare-and-swap on a task's guard, and what each goroutine does in between.  Any
    number of loops, executions, manual runs and callers interleave.  `starts`, `base`, `claims`
    and `holder` are history: they record what happened and never decide what happens. */
module Scheduler {
  import opened Arith
  import opened CronNext
  import opened Text

  type TaskId = nat

  datatype Task = Task(
    schedule: Schedule,
    enabled: bool,
    nextRun: int,
    runCount: nat,
    guard: bool,
    starts: nat,            // successful claims of the guard, scheduled or manual
    base: int,              // nextRun when last added or enabled
    claims: nat,            // scheduled claims since then
    holder: Option<nat>)    // the execution that holds the guard

  /** Claimed: not yet spawned.  Recorded: the run is counted.  Released: the guard is given back,
      the wait group not yet signalled. */
  datatype Phase = Claimed | Executing | Recorded | Released

  datatype Exec = Exec(task: TaskId, scheduled: bool, loop: nat, phase: Phase)

  datatype Loop = Waiting(ctx: nat) | Checking(ctx: nat, at: int, todo: set<TaskId>)

  /** Who holds the lifecycle lock across actions: a Stop that has flipped `running`. */
  datatype Lifecycle = Free | Cancelling(ctx: nat) | Draining | Drained

  datatype State = State(
    now: int,
    names: map<string, TaskId>,
    tasks: map<TaskId, Task>,
    running: bool,
    ctx: nat,
    cancelled: set<nat>,
    waitGroup: int,
    loops: map<nat, Loop>,
    execs: map<nat, Exec>,
    mutex: Option<nat>,     // the loop that holds the scheduler lock across actions
    lifecycle: Lifecycle)

  datatype Action =
    | Tick(now: int)
    | AddTask(name: string, id: TaskId, schedule: Schedule, at: int)
    | RemoveTask(name: string)
    | EnableTask(name: string)
    | DisableTask(name: string)
    | RunTask(id: TaskId, exec: nat)
    | Start(loop: nat, freshCtx: nat)
    | StopFlip
    | StopCancel
    | StopSeesZero
    | StopReturnsTrue
    | StopTimesOut
    | LoopLock(loop: nat, at: int)
    | LoopClaim(loop: nat, id: TaskId, exec: nat)
    | LoopUnlock(loop: nat)
    | LoopExit(loop: nat)
    | Spawn(exec: nat)
    | Record(exec: nat)
    | Release(exec: nat)
    | Done(exec: nat)

  predicate Unlocked(s: State) { s.mutex.None? }

  predicate Due(t: Task, at: int) {
    t.enabled && t.nextRun != ZERO_TIME && at > t.nextRun
  }

  predicate Enabled(s: State, a: Action) {
    match a
    case Tick(now) => s.now <= now
    case AddTask(name, id, schedule, at) =>
      Unlocked(s) && id !in s.tasks && ValidSchedule(schedule) && at <= s.now
    case RemoveTask(name) => Unlocked(s)
    case EnableTask(name) => Unlocked(s) && name in s.names && s.names[name] in s.tasks
    case DisableTask(name) => Unlocked(s) && name in s.names && s.names[name] in s.tasks
    case RunTask(id, exec) => id in s.tasks && !s.tasks[id].guard && exec !in s.execs
    case Start(loop, freshCtx) =>
      Unlocked(s) && s.lifecycle == Free && loop !in s.loops && freshCtx !in s.cancelled
    case StopFlip => Unlocked(s) && s.lifecycle == Free && s.running
    case StopCancel => s.lifecycle.Cancelling?
    case StopSeesZero => s.lifecycle == Draining && s.waitGroup == 0
    case StopReturnsTrue => s.lifecycle == Drained
    case StopTimesOut => s.lifecycle == Draining || s.lifecycle == Drained
    case LoopLock(loop, at) =>
      Unlocked(s) && loop in s.loops && s.loops[loop].Waiting? && at <= s.now
    case LoopClaim(loop, id, exec) =>
      s.mutex == Some(loop) && loop in s.loops && s.loops[loop].Checking?
      && id in s.loops[loop].todo && id in s.tasks && exec !in s.execs
    case LoopUnlock(loop) =>
      s.mutex == Some(loop) && loop in s.loops && s.loops[loop].Checking? && s.loops[loop].todo == {}
    case LoopExit(loop) => loop in s.loops && s.loops[loop].Waiting? && s.loops[loop].ctx in s.cancelled
    case Spawn(exec) =>
      exec in s.execs && s.execs[exec].phase == Claimed && s.mutex != Some(s.execs[exec].loop)
    case Record(exec) =>
      Unlocked(s) && exec in s.execs && s.execs[exec].phase == Executing && s.execs[exec].task in s.tasks
    case Release(exec) => exec in s.execs && s.execs[exec].phase == Recorded && s.execs[exec].task in s.tasks
    case Done(exec) => exec in s.execs && s.execs[exec].phase == Released
  }

  /** A claim takes the guard and counts one more start. */
  function Take(t: Task, exec: nat): Task {
    t.(guard := true, starts := t.starts + 1, holder := Some(exec))
  }

  /** The task is claimed for the execution. */
  function ClaimedBy(t: Task, exec: nat): Task {
    Take(t, exec).(nextRun := NextRun(t.schedule, t.nextRun), claims := t.claims + 1)
  }

  /** The loop looks at one task, and claims it if it is due and its guard free. */
  function LookedAt(s: State, loop: nat, id: TaskId, exec: nat): State
    requires loop in s.loops && s.loops[loop].Checking? && id in s.tasks
  {
    var l, t := s.loops[loop], s.tasks[id];
    var claims := Due(t, l.at) && !t.guard;
    s.(loops := s.loops[loop := l.(todo := l.todo - {id})],
       tasks := if claims then s.tasks[id := ClaimedBy(t, exec)] else s.tasks,
       execs := if claims then s.execs[exec := Exec(id, true, loop, Claimed)] else s.execs,
       waitGroup := if claims then s.waitGroup + 1 else s.waitGroup)
  }

  function Apply(s: State, a: Action): State
    requires Enabled(s, a)
  {
    match a
    case Tick(now) => s.(now := now)
    case AddTask(name, id, schedule, at) =>
      var next := NextRun(schedule, at);
      s.(tasks := s.tasks[id := Task(schedule, true, next, 0, false, 0, next, 0, None)],
         names := s.names[name := id])
    case RemoveTask(name) => s.(names := s.names - {name})
    case EnableTask(name) =>
      var id := s.names[name];
      var next := NextRun(s.tasks[id].schedule, s.now);
      s.(tasks := s.tasks[id := s.tasks[id].(enabled := true, nextRun := next, base := next, claims := 0)])
    case DisableTask(name) =>
      var id := s.names[name];
      s.(tasks := s.tasks[id := s.tasks[id].(enabled := false)])
    case RunTask(id, exec) =>
      s.(tasks := s.tasks[id := Take(s.tasks[id], exec)],
         execs := s.execs[exec := Exec(id, false, 0, Executing)])
    case Start(loop, freshCtx) =>
      if s.running then s
      else
        var ctx := if s.ctx in s.cancelled then freshCtx else s.ctx;
        s.(ctx := ctx, running := true, waitGroup := s.waitGroup + 1, loops := s.loops[loop := Waiting(ctx)])
    case StopFlip => s.(running := false, lifecycle := Cancelling(s.ctx))
    case StopCancel => s.(cancelled := s.cancelled + {s.lifecycle.ctx}, lifecycle := Draining)
    case StopSeesZero => s.(lifecycle := Drained)
    case StopReturnsTrue => s.(lifecycle := Free)
    case StopTimesOut => s.(lifecycle := Free)
    case LoopLock(loop, at) =>
      var ctx := s.loops[loop].ctx;
      if !s.running || ctx in s.cancelled then s
      else s.(mutex := Some(loop), loops := s.loops[loop := Checking(ctx, at, s.names.Values * s.tasks.Keys)])
    case LoopClaim(loop, id, exec) => LookedAt(s, loop, id, exec)
    case LoopUnlock(loop) => s.(mutex := None, loops := s.loops[loop := Waiting(s.loops[loop].ctx)])
    case LoopExit(loop) => s.(loops := s.loops - {loop}, waitGroup := s.waitGroup - 1)
    case Spawn(exec) => s.(execs := s.execs[exec := s.execs[exec].(phase := Executing)])
    case Record(exec) =>
      var e := s.execs[exec];
      var t := s.tasks[e.task];
      s.(execs := s.execs[exec := e.(phase := Recorded)],
         tasks := s.tasks[e.task := t.(runCount := t.runCount + 1)])
    case Release(exec) =>
      var e := s.execs[exec];
      s.(execs := s.execs[exec := e.(phase := Released)],
         tasks := s.tasks[e.task := s.tasks[e.task].(guard := false, holder := None)])
    case Done(exec) =>
      s.(execs := s.execs - {exec}, waitGroup := s.waitGroup - if s.execs[exec].scheduled then 1 else 0)
  }

  predicate Initial(s: State) {
    s.names == map[] && s.tasks == map[] && !s.running && s.cancelled == {} && s.waitGroup == 0
    && s.loops == map[] && s.execs == map[] && s.mutex == None && s.lifecycle == Free
  }

  // ----- the invariant

  /** The scheduled executions that have not signalled the wait group yet. */
  function Unfinished(s: State): set<nat> {
    set e | e in s.execs && s.execs[e].scheduled
  }

  /** `Next` applied k times. */
  function Iterate(schedule: Schedule, from: int, k: nat): int {
    if k == 0 then from else NextRun(schedule, Iterate(schedule, from, k - 1))
  }

  predicate Holds(e: Exec) { e.phase != Released }

  predicate Unrecorded(e: Exec) { e.phase == Claimed || e.phase == Executing }

  ghost predicate TaskOk(s: State, id: TaskId)
    requires id in s.tasks
  {
    var t := s.tasks[id];
    && t.guard == t.holder.Some?
    && (t.holder.Some? ==>
          t.holder.value in s.execs && s.execs[t.holder.value].task == id && Holds(s.execs[t.holder.value]))
    && t.starts == t.runCount + (if t.holder.Some? && Unrecorded(s.execs[t.holder.value]) then 1 else 0)
    && ValidSchedule(t.schedule)
    && t.nextRun == Iterate(t.schedule, t.base, t.claims)
    && (t.claims > 0 ==> Iterate(t.schedule, t.base, t.claims - 1) < s.now)
  }

  ghost predicate ExecOk(s: State, e: nat)
    requires e in s.execs
  {
    var x := s.execs[e];
    x.task in s.tasks && (Holds(x) ==> s.tasks[x.task].holder == Some(e))
  }

  ghost predicate LoopOk(s: State, l: nat)
    requires l in s.loops
  {
    (s.loops[l].Checking? <==> s.mutex == Some(l))
    && (s.loops[l].Checking? ==> s.loops[l].at <= s.now)
  }

  ghost predicate TasksOk(s: State) { forall id :: id in s.tasks ==> TaskOk(s, id) }

  ghost predicate ExecsOk(s: State) { forall e :: e in s.execs ==> ExecOk(s, e) }

  ghost predicate LoopsOk(s: State) {
    (forall l :: l in s.loops ==> LoopOk(s, l))
    && (s.mutex.Some? ==> s.mutex.value in s.loops && s.running)
  }

  /** The wait group counts the live loops and the unfinished scheduled executions. */
  ghost predicate CountOk(s: State) {
    s.waitGroup == |s.loops| + |Unfinished(s)|
  }

  ghost predicate StopOk(s: State) {
    (s.lifecycle != Free ==> !s.running) && (s.lifecycle == Drained ==> s.waitGroup == 0)
  }

  ghost predicate Inv(s: State) {
    TasksOk(s) && ExecsOk(s) && LoopsOk(s) && CountOk(s) && StopOk(s)
  }

  lemma InitialInv(s: State)
    requires Initial(s)
    ensures Inv(s)
  {
    assert Unfinished(s) == {};
  }

  lemma SameSize(a: map<nat, Loop>, b: map<nat, Loop>)
    requires a.Keys == b.Keys
    ensures |a| == |b|
  {
    assert |a| == |a.Keys| && |b| == |b.Keys|;
  }

  lemma SizeUp(a: map<nat, Loop>, k: nat, v: Loop)
    requires k !in a
    ensures |a[k := v]| == |a| + 1
  {
    assert a[k := v].Keys == a.Keys + {k};
  }

  lemma SizeDown(a: map<nat, Loop>, k: nat)
    requires k in a
    ensures |a - {k}| == |a| - 1
  {
    assert (a - {k}).Keys == a.Keys - {k};
  }

  lemma SameLoops(s: State, t: State)
    requires LoopsOk(s) && t.loops == s.loops && t.mutex == s.mutex && s.now <= t.now
    requires t.running == s.running || s.mutex.None?
    ensures LoopsOk(t) && |t.loops| == |s.loops|
  {
    forall l | l in t.loops ensures LoopOk(t, l) { assert LoopOk(s, l); }
  }

  lemma OneLoopLess(s: State, t: State, loop: nat)
    requires CountOk(s) && StopOk(s) && loop in s.loops
    requires t.loops == s.loops - {loop} && t.waitGroup == s.waitGroup - 1 && Unfinished(t) == Unfinished(s)
    requires t.lifecycle == s.lifecycle && t.running == s.running
    ensures CountOk(t) && StopOk(t)
  {
    hide Unfinished;
    SizeDown(s.loops, loop);
  }

  lemma RemainingLoops(s: State, t: State, loop: nat)
    requires LoopsOk(s) && loop in s.loops && s.loops[loop].Waiting?
    requires t.loops == s.loops - {loop} && t.mutex == s.mutex && t.running == s.running && t.now == s.now
    ensures LoopsOk(t)
  {
    forall l | l in t.loops ensures LoopOk(t, l) { assert LoopOk(s, l); }
    assert LoopOk(s, loop);
  }

  /** A task whose record and whose holder's record an action leaves alone stays in order. */
  lemma OtherTask(s: State, t: State, id: TaskId)
    requires id in s.tasks && TaskOk(s, id)
    requires id in t.tasks && t.tasks[id] == s.tasks[id] && s.now <= t.now
    requires s.tasks[id].holder.Some? ==>
      var h := s.tasks[id].holder.value; h in t.execs && (h in s.execs ==> t.execs[h] == s.execs[h])
    ensures TaskOk(t, id)
  {
    hide NextRun, ValidSchedule, Iterate;
  }

  lemma OtherExec(s: State, t: State, e: nat)
    requires e in s.execs && ExecOk(s, e)
    requires e in t.execs && t.execs[e] == s.execs[e]
    requires var id := s.execs[e].task; id in t.tasks && (id in s.tasks ==> t.tasks[id].holder == s.tasks[id].holder)
    ensures ExecOk(t, e)
  {
  }

  lemma SameWork(s: State, t: State)
    requires TasksOk(s) && ExecsOk(s)
    requires t.tasks == s.tasks && t.execs == s.execs && s.now <= t.now
    ensures TasksOk(t) && ExecsOk(t) && Unfinished(t) == Unfinished(s)
  {
    hide TaskOk, ExecOk, Unfinished;
    SameUnfinished(s, t);
    forall i | i in t.tasks ensures TaskOk(t, i) {
      assert TaskOk(s, i); HolderKnown(s, i); OtherTask(s, t, i);
    }
    forall e | e in t.execs ensures ExecOk(t, e) {
      assert ExecOk(s, e); ExecTaskKnown(s, e); OtherExec(s, t, e);
    }
  }

  lemma HolderKnown(s: State, id: TaskId)
    requires id in s.tasks && TaskOk(s, id)
    ensures s.tasks[id].holder.Some? ==> s.tasks[id].holder.value in s.execs
    ensures s.tasks[id].guard == s.tasks[id].holder.Some?
  {
  }

  lemma ExecTaskKnown(s: State, e: nat)
    requires e in s.execs && ExecOk(s, e)
    ensures s.execs[e].task in s.tasks
  {
  }

  lemma GuardFree(s: State, id: TaskId, e: nat)
    requires id in s.tasks && TaskOk(s, id) && !s.tasks[id].guard
    requires e in s.execs && ExecOk(s, e)
    ensures s.execs[e].task == id ==> !Holds(s.execs[e])
  {
  }

  lemma OtherExecOrTask(s: State, t: State, e: nat, id: TaskId)
    requires e in s.execs && ExecOk(s, e) && (s.execs[e].task == id ==> !Holds(s.execs[e]))
    requires e in t.execs && t.execs[e] == s.execs[e]
    requires s.tasks.Keys <= t.tasks.Keys && forall i :: i in s.tasks && i != id ==> t.tasks[i] == s.tasks[i]
    ensures ExecOk(t, e)
  {
  }

  lemma SameUnfinished(s: State, t: State)
    requires s.execs.Keys == t.execs.Keys
    requires forall e :: e in s.execs ==> s.execs[e].scheduled == t.execs[e].scheduled
    ensures Unfinished(s) == Unfinished(t)
  {
  }

  lemma ManualUncounted(s: State, t: State, exec: nat)
    requires exec !in s.execs && exec in t.execs && t.execs == s.execs[exec := t.execs[exec]]
    requires !t.execs[exec].scheduled
    ensures Unfinished(t) == Unfinished(s)
  {
  }

  lemma ClaimedCount(s: State, t: State, exec: nat)
    requires exec !in s.execs && exec in t.execs && t.execs == s.execs[exec := t.execs[exec]] && t.execs[exec].scheduled
    ensures |Unfinished(t)| == |Unfinished(s)| + 1
  {
    assert Unfinished(t) == Unfinished(s) + {exec};
  }

  /** The claim itself: a free guard, one more start, and the next run counted from the last. */
  lemma ClaimedTask(s: State, loop: nat, id: TaskId, exec: nat)
    requires Enabled(s, LoopClaim(loop, id, exec)) && TaskOk(s, id) && LoopOk(s, loop)
    requires exec in Apply(s, LoopClaim(loop, id, exec)).execs
    ensures TaskOk(Apply(s, LoopClaim(loop, id, exec)), id)
    ensures ExecOk(Apply(s, LoopClaim(loop, id, exec)), exec)
  {
    hide NextRun, ValidSchedule;
  }

  lemma SpawnedTask(s: State, exec: nat)
    requires Enabled(s, Spawn(exec)) && ExecOk(s, exec) && TaskOk(s, s.execs[exec].task)
    ensures TaskOk(Apply(s, Spawn(exec)), s.execs[exec].task)
    ensures ExecOk(Apply(s, Spawn(exec)), exec)
  {
    hide NextRun, ValidSchedule, Iterate;
  }

  lemma StartedTask(s: State, id: TaskId, exec: nat)
    requires Enabled(s, RunTask(id, exec)) && TaskOk(s, id)
    ensures TaskOk(Apply(s, RunTask(id, exec)), id)
    ensures ExecOk(Apply(s, RunTask(id, exec)), exec)
  {
    hide NextRun, ValidSchedule, Iterate;
  }

  lemma AddedTask(s: State, name: string, id: TaskId, schedule: Schedule, at: int)
    requires Enabled(s, AddTask(name, id, schedule, at))
    ensures TaskOk(Apply(s, AddTask(name, id, schedule, at)), id)
  {
    hide NextRun, ValidSchedule;
  }

  lemma EnabledTask(s: State, name: string)
    requires Enabled(s, EnableTask(name)) && TaskOk(s, s.names[name])
    ensures TaskOk(Apply(s, EnableTask(name)), s.names[name])
  {
    hide NextRun, ValidSchedule;
  }

  lemma DisabledTask(s: State, name: string)
    requires Enabled(s, DisableTask(name)) && TaskOk(s, s.names[name])
    ensures TaskOk(Apply(s, DisableTask(name)), s.names[name])
  {
    hide NextRun, ValidSchedule, Iterate;
  }

  lemma RecordedTask(s: State, exec: nat)
    requires Enabled(s, Record(exec)) && TaskOk(s, s.execs[exec].task) && ExecOk(s, exec)
    ensures TaskOk(Apply(s, Record(exec)), s.execs[exec].task)
    ensures ExecOk(Apply(s, Record(exec)), exec)
  {
    hide NextRun, ValidSchedule, Iterate;
  }

  lemma ReleasedTask(s: State, exec: nat)
    requires Enabled(s, Release(exec)) && TaskOk(s, s.execs[exec].task) && ExecOk(s, exec)
    ensures TaskOk(Apply(s, Release(exec)), s.execs[exec].task)
    ensures ExecOk(Apply(s, Release(exec)), exec)
  {
    hide NextRun, ValidSchedule, Iterate;
  }

  lemma HeldBySelf(s: State, id: TaskId, exec: nat)
    requires id in s.tasks && TaskOk(s, id) && exec in s.execs && s.execs[exec].task != id
    ensures s.tasks[id].holder.Some? ==> s.tasks[id].holder.value in s.execs && s.tasks[id].holder.value != exec
  {
  }

  lemma SoleHolder(s: State, id: TaskId, exec: nat, e: nat)
    requires exec in s.execs && ExecOk(s, exec) && Holds(s.execs[exec]) && s.execs[exec].task == id
    requires e in s.execs && ExecOk(s, e) && e != exec
    ensures s.execs[e].task == id ==> !Holds(s.execs[e])
  {
  }

  lemma NotHeldBy(s: State, id: TaskId, exec: nat)
    requires id in s.tasks && TaskOk(s, id) && exec in s.execs && !Holds(s.execs[exec])
    ensures s.tasks[id].holder.Some? ==> s.tasks[id].holder.value in s.execs && s.tasks[id].holder.value != exec
  {
  }

  lemma DoneCount(s: State, t: State, exec: nat)
    requires exec in s.execs && t.execs == s.execs - {exec}
    ensures |Unfinished(t)| == |Unfinished(s)| - if s.execs[exec].scheduled then 1 else 0
  {
    assert Unfinished(t) == Unfinished(s) - {exec};
  }

  lemma TickKeeps(s: State, now: int)
    requires Inv(s) && Enabled(s, Tick(now))
    ensures Inv(Apply(s, Tick(now)))
  {
    hide TasksOk, ExecsOk, Unfinished;
    var t := Apply(s, Tick(now));
    SameWork(s, t);
    SameLoops(s, t);
  }

  lemma AddTaskKeeps(s: State, name: string, id: TaskId, schedule: Schedule, at: int)
    requires Inv(s) && Enabled(s, AddTask(name, id, schedule, at))
    ensures Inv(Apply(s, AddTask(name, id, schedule, at)))
  {
    hide NextRun, ValidSchedule, Iterate, TaskOk, ExecOk, Unfinished;
    var t := Apply(s, AddTask(name, id, schedule, at));
    SameLoops(s, t);
    SameUnfinished(s, t);
    AddedTask(s, name, id, schedule, at);
    forall i | i in t.tasks && i != id ensures TaskOk(t, i) {
      assert TaskOk(s, i); HolderKnown(s, i); OtherTask(s, t, i);
    }
    forall e | e in t.execs ensures ExecOk(t, e) {
      assert ExecOk(s, e); ExecTaskKnown(s, e); OtherExec(s, t, e);
    }
  }

  lemma RemoveTaskKeeps(s: State, name: string)
    requires Inv(s) && Enabled(s, RemoveTask(name))
    ensures Inv(Apply(s, RemoveTask(name)))
  {
    hide TasksOk, ExecsOk, Unfinished;
    var t := Apply(s, RemoveTask(name));
    SameWork(s, t);
    SameLoops(s, t);
  }

  lemma EnableTaskKeeps(s: State, name: string)
    requires Inv(s) && Enabled(s, EnableTask(name))
    ensures Inv(Apply(s, EnableTask(name)))
  {
    hide NextRun, ValidSchedule, Iterate, TaskOk, ExecOk, Unfinished;
    var t := Apply(s, EnableTask(name));
    var id := s.names[name];
    assert TaskOk(s, id);
    SameLoops(s, t);
    SameUnfinished(s, t);
    EnabledTask(s, name);
    forall i | i in t.tasks && i != id ensures TaskOk(t, i) {
      assert TaskOk(s, i); HolderKnown(s, i); OtherTask(s, t, i);
    }
    forall e | e in t.execs ensures ExecOk(t, e) {
      assert ExecOk(s, e); ExecTaskKnown(s, e); OtherExec(s, t, e);
    }
  }

  lemma DisableTaskKeeps(s: State, name: string)
    requires Inv(s) && Enabled(s, DisableTask(name))
    ensures Inv(Apply(s, DisableTask(name)))
  {
    hide NextRun, ValidSchedule, Iterate, TaskOk, ExecOk, Unfinished;
    var t := Apply(s, DisableTask(name));
    var id := s.names[name];
    assert TaskOk(s, id);
    SameLoops(s, t);
    SameUnfinished(s, t);
    DisabledTask(s, name);
    forall i | i in t.tasks && i != id ensures TaskOk(t, i) {
      assert TaskOk(s, i); HolderKnown(s, i); OtherTask(s, t, i);
    }
    forall e | e in t.execs ensures ExecOk(t, e) {
      assert ExecOk(s, e); ExecTaskKnown(s, e); OtherExec(s, t, e);
    }
  }

  lemma RunTaskKeeps(s: State, id: TaskId, exec: nat)
    requires Inv(s) && Enabled(s, RunTask(id, exec))
    ensures Inv(Apply(s, RunTask(id, exec)))
  {
    hide NextRun, ValidSchedule, Iterate, TaskOk, ExecOk, Unfinished;
    var t := Apply(s, RunTask(id, exec));
    assert TaskOk(s, id);
    SameLoops(s, t);
    StartedTask(s, id, exec);
    assert Unfinished(t) == Unfinished(s) by { ManualUncounted(s, t, exec); }
    forall i | i in t.tasks && i != id ensures TaskOk(t, i) {
      assert TaskOk(s, i); HolderKnown(s, i); OtherTask(s, t, i);
    }
    forall e | e in s.execs ensures ExecOk(t, e) {
      assert ExecOk(s, e); GuardFree(s, id, e); OtherExecOrTask(s, t, e, id);
    }
  }

  lemma StartKeeps(s: State, loop: nat, freshCtx: nat)
    requires Inv(s) && Enabled(s, Start(loop, freshCtx))
    ensures Inv(Apply(s, Start(loop, freshCtx)))
  {
    hide TasksOk, ExecsOk, Unfinished;
    var t := Apply(s, Start(loop, freshCtx));
    SameWork(s, t);
    SizeUp(s.loops, loop, Waiting(t.ctx));
    forall l | l in t.loops ensures LoopOk(t, l) { assert l in s.loops ==> LoopOk(s, l); }
  }

  lemma StopFlipKeeps(s: State)
    requires Inv(s) && Enabled(s, StopFlip)
    ensures Inv(Apply(s, StopFlip))
  {
    hide TasksOk, ExecsOk, Unfinished;
    var t := Apply(s, StopFlip);
    SameWork(s, t);
    SameLoops(s, t);
  }

  lemma StopCancelKeeps(s: State)
    requires Inv(s) && Enabled(s, StopCancel)
    ensures Inv(Apply(s, StopCancel))
  {
    hide TasksOk, ExecsOk, Unfinished;
    var t := Apply(s, StopCancel);
    SameWork(s, t);
    SameLoops(s, t);
  }

  lemma StopSeesZeroKeeps(s: State)
    requires Inv(s) && Enabled(s, StopSeesZero)
    ensures Inv(Apply(s, StopSeesZero))
  {
    hide TasksOk, ExecsOk, Unfinished;
    var t := Apply(s, StopSeesZero);
    SameWork(s, t);
    SameLoops(s, t);
  }

  lemma StopReturnsTrueKeeps(s: State)
    requires Inv(s) && Enabled(s, StopReturnsTrue)
    ensures Inv(Apply(s, StopReturnsTrue))
  {
    hide TasksOk, ExecsOk, Unfinished;
    var t := Apply(s, StopReturnsTrue);
    SameWork(s, t);
    SameLoops(s, t);
  }

  lemma StopTimesOutKeeps(s: State)
    requires Inv(s) && Enabled(s, StopTimesOut)
    ensures Inv(Apply(s, StopTimesOut))
  {
    hide TasksOk, ExecsOk, Unfinished;
    var t := Apply(s, StopTimesOut);
    SameWork(s, t);
    SameLoops(s, t);
  }

  lemma LoopLockKeeps(s: State, loop: nat, at: int)
    requires Inv(s) && Enabled(s, LoopLock(loop, at))
    ensures Inv(Apply(s, LoopLock(loop, at)))
  {
    hide TasksOk, ExecsOk, Unfinished;
    var t := Apply(s, LoopLock(loop, at));
    SameWork(s, t);
    SameSize(s.loops, t.loops);
    forall l | l in t.loops ensures LoopOk(t, l) { assert l in s.loops ==> LoopOk(s, l); }
  }

  lemma LoopClaimKeeps(s: State, loop: nat, id: TaskId, exec: nat)
    requires Inv(s) && Enabled(s, LoopClaim(loop, id, exec))
    ensures Inv(Apply(s, LoopClaim(loop, id, exec)))
  {
    hide NextRun, ValidSchedule, Iterate, TaskOk, ExecOk, Unfinished;
    var t := Apply(s, LoopClaim(loop, id, exec));
    SameSize(s.loops, t.loops);
    forall l | l in t.loops ensures LoopOk(t, l) { assert LoopOk(s, l); }
    if exec in t.execs {
      ClaimedTask(s, loop, id, exec);
      forall i | i in t.tasks && i != id ensures TaskOk(t, i) {
        assert TaskOk(s, i); HolderKnown(s, i); OtherTask(s, t, i);
      }
      forall e | e in s.execs ensures ExecOk(t, e) {
        assert ExecOk(s, e); GuardFree(s, id, e); OtherExecOrTask(s, t, e, id);
      }
      ClaimedCount(s, t, exec);
    } else {
      forall i | i in t.tasks ensures TaskOk(t, i) {
        assert TaskOk(s, i); HolderKnown(s, i); OtherTask(s, t, i);
      }
      forall e | e in t.execs ensures ExecOk(t, e) {
        assert ExecOk(s, e); ExecTaskKnown(s, e); OtherExec(s, t, e);
      }
      SameUnfinished(s, t);
    }
  }

  lemma LoopUnlockKeeps(s: State, loop: nat)
    requires Inv(s) && Enabled(s, LoopUnlock(loop))
    ensures Inv(Apply(s, LoopUnlock(loop)))
  {
    hide TasksOk, ExecsOk, Unfinished;
    var t := Apply(s, LoopUnlock(loop));
    SameWork(s, t);
    SameSize(s.loops, t.loops);
    forall l | l in t.loops ensures LoopOk(t, l) { assert l in s.loops ==> LoopOk(s, l); }
  }

  lemma LoopExitKeeps(s: State, loop: nat)
    requires Inv(s) && Enabled(s, LoopExit(loop))
    ensures Inv(Apply(s, LoopExit(loop)))
  {
    hide TasksOk, ExecsOk, Unfinished, LoopsOk, CountOk, StopOk;
    var t := Apply(s, LoopExit(loop));
    SameWork(s, t);
    RemainingLoops(s, t, loop);
    OneLoopLess(s, t, loop);
  }

  lemma SpawnKeeps(s: State, exec: nat)
    requires Inv(s) && Enabled(s, Spawn(exec))
    ensures Inv(Apply(s, Spawn(exec)))
  {
    hide NextRun, ValidSchedule, Iterate, TaskOk, ExecOk, Unfinished;
    var t, id := Apply(s, Spawn(exec)), s.execs[exec].task;
    assert ExecOk(s, exec);
    ExecTaskKnown(s, exec);
    assert TaskOk(s, id);
    SameLoops(s, t);
    SameUnfinished(s, t);
    SpawnedTask(s, exec);
    forall i | i in t.tasks && i != id ensures TaskOk(t, i) {
      assert TaskOk(s, i); HeldBySelf(s, i, exec); OtherTask(s, t, i);
    }
    forall e | e in t.execs && e != exec ensures ExecOk(t, e) {
      assert ExecOk(s, e); ExecTaskKnown(s, e); OtherExec(s, t, e);
    }
  }

  lemma RecordKeeps(s: State, exec: nat)
    requires Inv(s) && Enabled(s, Record(exec))
    ensures Inv(Apply(s, Record(exec)))
  {
    hide NextRun, ValidSchedule, Iterate, TaskOk, ExecOk, Unfinished;
    var t, id := Apply(s, Record(exec)), s.execs[exec].task;
    assert TaskOk(s, id) && ExecOk(s, exec);
    SameLoops(s, t);
    SameUnfinished(s, t);
    RecordedTask(s, exec);
    forall i | i in t.tasks && i != id ensures TaskOk(t, i) {
      assert TaskOk(s, i); HeldBySelf(s, i, exec); OtherTask(s, t, i);
    }
    forall e | e in t.execs && e != exec ensures ExecOk(t, e) {
      assert ExecOk(s, e); ExecTaskKnown(s, e); OtherExec(s, t, e);
    }
  }

  lemma ReleaseKeeps(s: State, exec: nat)
    requires Inv(s) && Enabled(s, Release(exec))
    ensures Inv(Apply(s, Release(exec)))
  {
    hide NextRun, ValidSchedule, Iterate, TaskOk, ExecOk, Unfinished;
    var t, id := Apply(s, Release(exec)), s.execs[exec].task;
    assert TaskOk(s, id) && ExecOk(s, exec);
    SameLoops(s, t);
    SameUnfinished(s, t);
    ReleasedTask(s, exec);
    forall i | i in t.tasks && i != id ensures TaskOk(t, i) {
      assert TaskOk(s, i); HeldBySelf(s, i, exec); OtherTask(s, t, i);
    }
    forall e | e in t.execs && e != exec ensures ExecOk(t, e) {
      assert ExecOk(s, e); ExecTaskKnown(s, e); SoleHolder(s, id, exec, e); OtherExecOrTask(s, t, e, id);
    }
  }

  /** The end of an execution changes nothing but its record and the wait group. */
  lemma DoneIs(s: State, exec: nat)
    requires Enabled(s, Done(exec))
    ensures exec in s.execs && !Holds(s.execs[exec])
    ensures Apply(s, Done(exec)) == s.(execs := s.execs - {exec}, waitGroup := Apply(s, Done(exec)).waitGroup)
    ensures Apply(s, Done(exec)).waitGroup == s.waitGroup - if s.execs[exec].scheduled then 1 else 0
  {
  }

  lemma DoneKeeps(s: State, exec: nat)
    requires Inv(s) && Enabled(s, Done(exec))
    ensures Inv(Apply(s, Done(exec)))
  {
    hide NextRun, ValidSchedule, Iterate, TaskOk, ExecOk, Unfinished, LoopOk;
    DoneIs(s, exec);
    hide Apply, Enabled, Holds;
    var t := Apply(s, Done(exec));
    assert ExecOk(s, exec);
    SameLoops(s, t);
    DoneCount(s, t, exec);
    forall i | i in t.tasks ensures TaskOk(t, i) {
      assert TaskOk(s, i); NotHeldBy(s, i, exec); OtherTask(s, t, i);
    }
    forall e | e in t.execs ensures ExecOk(t, e) {
      assert ExecOk(s, e); ExecTaskKnown(s, e); OtherExec(s, t, e);
    }
  }

  lemma StepKeeps(s: State, a: Action)
    requires Inv(s) && Enabled(s, a)
    ensures Inv(Apply(s, a))
  {
    hide Inv, Apply;
    match a
    case Tick(now) => TickKeeps(s, now);
    case AddTask(name, id, schedule, at) => AddTaskKeeps(s, name, id, schedule, at);
    case RemoveTask(name) => RemoveTaskKeeps(s, name);
    case EnableTask(name) => EnableTaskKeeps(s, name);
    case DisableTask(name) => DisableTaskKeeps(s, name);
    case RunTask(id, exec) => RunTaskKeeps(s, id, exec);
    case Start(loop, freshCtx) => StartKeeps(s, loop, freshCtx);
    case StopFlip => StopFlipKeeps(s);
    case StopCancel => StopCancelKeeps(s);
    case StopSeesZero => StopSeesZeroKeeps(s);
    case StopReturnsTrue => StopReturnsTrueKeeps(s);
    case StopTimesOut => StopTimesOutKeeps(s);
    case LoopLock(loop, at) => LoopLockKeeps(s, loop, at);
    case LoopClaim(loop, id, exec) => LoopClaimKeeps(s, loop, id, exec);
    case LoopUnlock(loop) => LoopUnlockKeeps(s, loop);
    case LoopExit(loop) => LoopExitKeeps(s, loop);
    case Spawn(exec) => SpawnKeeps(s, exec);
    case Record(exec) => RecordKeeps(s, exec);
    case Release(exec) => ReleaseKeeps(s, exec);
    case Done(exec) => DoneKeeps(s, exec);
  }

  // ----- whole runs

  /** A run from a fresh scheduler: each state follows from the one before by an enabled action. */
  ghost predicate IsRun(run: seq<State>, actions: seq<Action>) {
    && |run| == |actions| + 1 && Initial(run[0])
    && forall i :: 0 <= i < |actions| ==> Enabled(run[i], actions[i]) && run[i + 1] == Apply(run[i], actions[i])
  }

  lemma {:induction false} RunInv(run: seq<State>, actions: seq<Action>, i: nat)
    requires IsRun(run, actions) && i < |run|
    ensures Inv(run[i])
  {
    hide Inv, Apply, Enabled, Initial;
    if i == 0 {
      InitialInv(run[0]);
    } else {
      RunInv(run, actions, i - 1);
      StepKeeps(run[i - 1], actions[i - 1]);
    }
  }

  /** In every reachable state the wait group is the number of live loops plus unfinished
      scheduled executions, so it is never negative; a task never has two executions in flight;
      and its starts are its recorded runs plus the one that still has to be recorded. */
  lemma RunCounts(run: seq<State>, actions: seq<Action>, i: nat)
    requires IsRun(run, actions) && i < |run|
    ensures var s := run[i];
      && s.waitGroup == |s.loops| + |Unfinished(s)| && s.waitGroup >= 0
      && (forall d, e | d in s.execs && e in s.execs && s.execs[d].task == s.execs[e].task
            :: Holds(s.execs[d]) && Holds(s.execs[e]) ==> d == e)
      && (forall id :: id in s.tasks ==> s.tasks[id].runCount <= s.tasks[id].starts <= s.tasks[id].runCount + 1)
      && (forall id :: id in s.tasks && s.tasks[id].starts == s.tasks[id].runCount + 1
            ==> exists e :: e in s.execs && s.execs[e].task == id && Unrecorded(s.execs[e]))
  {
    RunInv(run, actions, i);
    hide IsRun, NextRun, ValidSchedule, Iterate, Unfinished;
    var s := run[i];
    forall d, e | d in s.execs && e in s.execs && s.execs[d].task == s.execs[e].task
            && Holds(s.execs[d]) && Holds(s.execs[e]) ensures d == e {
      assert ExecOk(s, d) && ExecOk(s, e);
    }
    forall id | id in s.tasks
      ensures s.tasks[id].runCount <= s.tasks[id].starts <= s.tasks[id].runCount + 1
      ensures s.tasks[id].starts == s.tasks[id].runCount + 1 ==>
            exists e :: e in s.execs && s.execs[e].task == id && Unrecorded(s.execs[e])
    {
      assert TaskOk(s, id);
    }
  }

  /** Nothing scheduled is alive and nothing can become so. */
  ghost predicate Quiet(s: State) {
    !s.running && s.loops == map[] && Unfinished(s) == {}
  }

  lemma DrainedIsQuiet(s: State)
    requires Inv(s) && s.lifecycle == Drained
    ensures Quiet(s)
  {
    hide TasksOk, ExecsOk, LoopsOk, Unfinished;
  }

  lemma QuietStays(s: State, a: Action)
    requires Inv(s) && Quiet(s) && Enabled(s, a) && !a.Start?
    ensures Quiet(Apply(s, a))
  {
    hide TaskOk, ExecOk, LoopOk, NextRun, CountOk, StopOk;
    if a.Spawn? || a.Record? || a.Release? || a.Done? || a.RunTask? {
      SameKind(s, a);
    }
  }

  lemma SameKind(s: State, a: Action)
    requires Enabled(s, a) && (a.Spawn? || a.Record? || a.Release? || a.Done? || a.RunTask?)
    ensures Unfinished(Apply(s, a)) <= Unfinished(s)
  {
  }

  /** A Stop that itself turned the scheduler off and returns true leaves no loop and no scheduled
      execution alive, and there is none until the next Start. */
  lemma {:induction false} StoppedMeansQuiet(run: seq<State>, actions: seq<Action>, i: nat, j: nat)
    requires IsRun(run, actions) && i < j < |run|
    requires actions[i] == StopReturnsTrue
    requires forall k :: i < k < j ==> !actions[k].Start?
    ensures Quiet(run[j])
    decreases j
  {
    hide Inv, Apply, Quiet;
    RunInv(run, actions, j - 1);
    if j == i + 1 {
      DrainedIsQuiet(run[i]);
    } else {
      StoppedMeansQuiet(run, actions, i, j - 1);
    }
    QuietStays(run[j - 1], actions[j - 1]);
  }

  /** No task is claimed while the scheduler is stopped, even if the Stop gave up waiting. */
  lemma StoppedClaimsNothing(run: seq<State>, actions: seq<Action>, i: nat)
    requires IsRun(run, actions) && i < |actions|
    ensures !run[i].running ==> !actions[i].LoopClaim?
  {
    RunInv(run, actions, i);
    hide Apply, TasksOk, ExecsOk, CountOk;
  }

  // ----- a stop is never stuck

  /** Every loop that lives on after a stop has a cancelled context, or one that is about to be cancelled. */
  ghost predicate ContextsOk(s: State) {
    && (s.lifecycle.Cancelling? ==> s.lifecycle.ctx == s.ctx)
    && (forall l :: l in s.loops ==> ContextOk(s, s.loops[l].ctx))
  }

  predicate ContextOk(s: State, ctx: nat) {
    ctx in s.cancelled || (ctx == s.ctx && (s.running || s.lifecycle.Cancelling?))
  }

  lemma StepKeepsContexts(s: State, a: Action)
    requires Enabled(s, a) && ContextsOk(s)
    ensures ContextsOk(Apply(s, a))
  {
    hide NextRun, ValidSchedule, Due, Take, ClaimedBy;
  }

  lemma {:induction false} RunContexts(run: seq<State>, actions: seq<Action>, i: nat)
    requires IsRun(run, actions) && i < |run|
    ensures ContextsOk(run[i])
  {
    hide Enabled, Apply;
    if i > 0 {
      hide ContextsOk;
      RunContexts(run, actions, i - 1);
      StepKeepsContexts(run[i - 1], actions[i - 1]);
    }
  }

  /** Neither a new call nor the passing of time, nor giving up. */
  predicate Winds(a: Action) {
    a == StopCancel || a == StopSeesZero || a == StopReturnsTrue || a.LoopExit? || a.Spawn? || a.Record?
    || a.Release? || a.Done?
  }

  /** A Stop that has turned the scheduler off is never stuck, even if it waits for ever: it has a step of its
      own, or a loop may exit, or an execution has a step that brings its end nearer. */
  lemma StopNeverStuck(run: seq<State>, actions: seq<Action>, i: nat)
    requires IsRun(run, actions) && i < |run| && run[i].lifecycle != Free
    ensures exists a :: Winds(a) && Enabled(run[i], a)
  {
    RunInv(run, actions, i);
    RunContexts(run, actions, i);
    hide IsRun;
    var a := WindingAction(run[i]);
    assert Winds(a) && Enabled(run[i], a);
  }

  lemma WindingAction(s: State) returns (a: Action)
    requires Inv(s) && ContextsOk(s) && s.lifecycle != Free
    ensures Winds(a) && Enabled(s, a)
  {
    hide NextRun, ValidSchedule, Iterate, TaskOk, Unfinished;
    assert s.mutex == None && !s.running;
    if s.lifecycle.Cancelling? {
      a := StopCancel;
    } else if s.lifecycle == Drained {
      a := StopReturnsTrue;
    } else if s.waitGroup == 0 {
      a := StopSeesZero;
    } else if l :| l in s.loops {
      assert LoopOk(s, l) && ContextOk(s, s.loops[l].ctx);
      a := LoopExit(l);
    } else {
      var e := SomeUnfinished(s);
      assert ExecOk(s, e);
      a := match s.execs[e].phase
        case Claimed => Spawn(e)
        case Executing => Record(e)
        case Recorded => Release(e)
        case Released => Done(e);
    }
  }

  lemma SomeUnfinished(s: State) returns (e: nat)
    requires CountOk(s) && s.loops == map[] && s.waitGroup != 0
    ensures e in s.execs
  {
    if Unfinished(s) == {} { assert false; }
    e :| e in Unfinished(s);
  }

  // ----- when tasks run

  /** However long handlers take and however often a task is run by hand, after k scheduled claims
      its next run is the schedule applied k times to where it began; and every one of those
      claims was made after its time had come. */
  lemma NextRunIsAnchored(run: seq<State>, actions: seq<Action>, i: nat, id: TaskId)
    requires IsRun(run, actions) && i < |run| && id in run[i].tasks
    ensures var t := run[i].tasks[id];
      && t.nextRun == Iterate(t.schedule, t.base, t.claims)
      && (t.claims > 0 ==> Iterate(t.schedule, t.base, t.claims - 1) < run[i].now)
  {
    RunInv(run, actions, i);
    hide IsRun, NextRun, ValidSchedule;
    assert TaskOk(run[i], id);
  }

  lemma {:induction false} IterateInterval(interval: int, from: int, k: nat)
    ensures Iterate(Interval(interval), from, k) == from + k * interval
  {
    if k > 0 {
      IterateInterval(interval, from, k - 1);
      assert k * interval == (k - 1) * interval + interval;
    }
  }

  /** The least integer not below x / d. */
  function CeilDiv(x: int, d: int): int
    requires d > 0
  {
    (x + d - 1) / d
  }

  /** A task that runs at an interval is claimed by time t at most ceil((t - base) / interval)
      times after the time it was first due. */
  lemma IntervalRunsAreBounded(run: seq<State>, actions: seq<Action>, i: nat, id: TaskId)
    requires IsRun(run, actions) && i < |run| && id in run[i].tasks && run[i].tasks[id].schedule.Interval?
    requires run[i].now > run[i].tasks[id].base
    ensures var t := run[i].tasks[id];
      t.schedule.interval > 0 && t.claims <= CeilDiv(run[i].now - t.base, t.schedule.interval)
  {
    RunInv(run, actions, i);
    var t, now := run[i].tasks[id], run[i].now;
    assert TaskOk(run[i], id);
    hide IsRun, NextRun;
    if t.claims > 0 {
      IterateInterval(t.schedule.interval, t.base, t.claims - 1);
      ClaimsByThen(t.claims - 1, t.schedule.interval, now - t.base);
    } else {
      ClaimsByThen(0, t.schedule.interval, now - t.base);
    }
  }

  lemma ClaimsByThen(k: nat, interval: int, elapsed: int)
    requires interval > 0 && k * interval < elapsed
    ensures k + 1 <= CeilDiv(elapsed, interval)
  {
    var q := (elapsed + interval - 1) / interval;
    assert elapsed + interval - 1 == q * interval + (elapsed + interval - 1) % interval;
    assert (k - q) * interval == k * interval - q * interval;
    if q < k { AtLeastOnce(k - q, interval); }
  }
}
