/** What the steps of the scheduler do to one task, one loop and one execution: when a task is claimed, and
    that a check claims exactly the tasks that are due. */
module SchedulerEffects {
  import opened CronNext
  import opened Scheduler
  import opened Text

  predicate LeadsTo(s: State, name: string, id: TaskId) { name in s.names && s.names[name] == id }

  /** The check that is under way takes the task: it is enabled, its next run is known and over, and nothing
      runs it. */
  predicate Takes(s: State, a: Action, id: TaskId) {
    && a.LoopClaim? && a.id == id && id in s.tasks
    && a.loop in s.loops && s.loops[a.loop].Checking?
    && s.tasks[id].enabled && s.tasks[id].nextRun != ZERO_TIME && s.loops[a.loop].at > s.tasks[id].nextRun
    && !s.tasks[id].guard
  }

  predicate Known(s: State, a: Action, t: State, id: TaskId) {
    id in t.tasks <==> id in s.tasks || (a.AddTask? && a.id == id)
  }

  /** A task that was just added: enabled, and next run at the first time of its schedule. */
  predicate Added(a: Action, t: Task)
    requires a.AddTask?
  {
    t.schedule == a.schedule && t.enabled && t.nextRun == NextRun(a.schedule, a.at) && t.runCount == 0 && !t.guard
    && t.claims == 0
  }

  /** Of a task that was there before, an action changes these fields and in this way. */
  predicate TaskChanges(s: State, a: Action, id: TaskId, old_: Task, new_: Task) {
    && new_.schedule == old_.schedule
    && (new_.enabled <==>
        (a.EnableTask? && LeadsTo(s, a.name, id)) || (old_.enabled && !(a.DisableTask? && LeadsTo(s, a.name, id))))
    && new_.nextRun == (if a.EnableTask? && LeadsTo(s, a.name, id) then NextRun(old_.schedule, s.now)
                        else if Takes(s, a, id) then NextRun(old_.schedule, old_.nextRun)
                        else old_.nextRun)
    && new_.claims == (if a.EnableTask? && LeadsTo(s, a.name, id) then 0
                       else if Takes(s, a, id) then old_.claims + 1
                       else old_.claims)
    && (new_.guard <==>
        Takes(s, a, id) || (a.RunTask? && a.id == id) || (old_.guard && !(a.Release? && RunsTask(s, a.exec, id))))
    && new_.runCount == old_.runCount + (if a.Record? && RunsTask(s, a.exec, id) then 1 else 0)
  }

  predicate RunsTask(s: State, exec: nat, id: TaskId) { exec in s.execs && s.execs[exec].task == id }

  lemma TaskExact(s: State, a: Action, id: TaskId)
    requires Enabled(s, a)
    ensures Known(s, a, Apply(s, a), id)
    ensures a.AddTask? ==> Added(a, Apply(s, a).tasks[a.id])
  {
    hide NextRun, ValidSchedule, Take, ClaimedBy, Due;
  }

  lemma TaskChangesExactly(s: State, a: Action, id: TaskId)
    requires Enabled(s, a) && id in s.tasks && id in Apply(s, a).tasks
    ensures TaskChanges(s, a, id, s.tasks[id], Apply(s, a).tasks[id])
  {
    hide NextRun, ValidSchedule;
  }

  /** Names come and go by adding and removing; a replaced or removed task keeps what it has. */
  predicate NamesChange(s: State, a: Action, t: State) {
    match a
    case AddTask(name, id, _, _) => t.names == s.names[name := id]
    case RemoveTask(name) => t.names == s.names - {name}
    case _ => t.names == s.names
  }

  /** The scheduler is on from a Start to the flip of a Stop. */
  predicate SwitchChanges(s: State, a: Action, t: State) {
    t.running <==> a.Start? || (s.running && a != StopFlip)
  }

  /** A loop begins with a Start that finds the scheduler off, under a context that is not cancelled, and ends
      with its exit. */
  predicate LoopChanges(s: State, a: Action, t: State, l: nat) {
    && (l in t.loops <==> (l in s.loops && a != LoopExit(l)) || (a.Start? && !s.running && a.loop == l))
    && (a.Start? && !s.running && a.loop == l ==> l in t.loops && t.loops[l] == Waiting(t.ctx) && t.ctx !in s.cancelled)
    && (!(a.Start? && !s.running) ==> t.ctx == s.ctx)
  }

  /** A check holds the lock from its beginning, if the scheduler is on and the context of its loop is not
      cancelled, to its end. */
  predicate LockChanges(s: State, a: Action, t: State, l: nat) {
    t.mutex == Some(l) <==>
      (a.LoopLock? && a.loop == l && s.running && l in s.loops && s.loops[l].ctx !in s.cancelled)
      || (s.mutex == Some(l) && a != LoopUnlock(l))
  }

  /** Time passes with its ticks, and contexts are cancelled by a Stop. */
  predicate ClockChanges(s: State, a: Action, t: State) {
    && t.now == (if a.Tick? then a.now else s.now)
    && t.cancelled ==
         (if a.StopCancel? && s.lifecycle.Cancelling? then s.cancelled + {s.lifecycle.ctx} else s.cancelled)
  }

  /** A Stop that finds the scheduler on cancels, waits and returns, in this order or by giving up. */
  predicate StopChanges(s: State, a: Action, t: State) {
    t.lifecycle == (match a
                    case StopFlip => Cancelling(s.ctx)
                    case StopCancel => Draining
                    case StopSeesZero => Drained
                    case StopReturnsTrue => Free
                    case StopTimesOut => Free
                    case _ => s.lifecycle)
  }

  /** An execution begins when a check takes a task or a caller runs it by hand, goes through its phases and
      ends with its signal. */
  predicate ExecChanges(s: State, a: Action, t: State, e: nat) {
    && (e in t.execs <==> (e in s.execs && a != Done(e)) || Begins(s, a, e))
    && (Begins(s, a, e) ==>
          e in t.execs && t.execs[e] == (if a.RunTask? then Exec(a.id, false, 0, Executing)
                                         else Exec(a.id, true, a.loop, Claimed)))
    && (e in s.execs && e in t.execs && !Begins(s, a, e) ==>
          t.execs[e] == s.execs[e].(phase := NextPhase(a, e, s.execs[e].phase)))
  }

  predicate Begins(s: State, a: Action, e: nat) {
    (a.RunTask? && a.exec == e) || (a.LoopClaim? && a.exec == e && Takes(s, a, a.id))
  }

  function NextPhase(a: Action, e: nat, phase: Phase): Phase {
    if a == Spawn(e) then Executing
    else if a == Record(e) then Recorded
    else if a == Release(e) then Released
    else phase
  }

  lemma RestExact(s: State, a: Action, l: nat)
    requires Enabled(s, a)
    ensures NamesChange(s, a, Apply(s, a)) && SwitchChanges(s, a, Apply(s, a)) && ClockChanges(s, a, Apply(s, a))
    ensures StopChanges(s, a, Apply(s, a))
    ensures LoopChanges(s, a, Apply(s, a), l) && LockChanges(s, a, Apply(s, a), l)
  {
    hide NextRun, ValidSchedule, Take, ClaimedBy, Due;
  }

  lemma ExecExact(s: State, a: Action, e: nat)
    requires Enabled(s, a)
    ensures ExecChanges(s, a, Apply(s, a), e)
  {
    hide NextRun, ValidSchedule, Take, ClaimedBy;
  }

  /** In every run: what one action does to the names, the switch, a loop, an execution and a task. */
  lemma ChangesExactly(run: seq<State>, actions: seq<Action>, i: nat, id: TaskId, l: nat, e: nat)
    requires IsRun(run, actions) && i < |actions|
    ensures NamesChange(run[i], actions[i], run[i + 1]) && SwitchChanges(run[i], actions[i], run[i + 1])
    ensures LoopChanges(run[i], actions[i], run[i + 1], l) && LockChanges(run[i], actions[i], run[i + 1], l)
    ensures ExecChanges(run[i], actions[i], run[i + 1], e) && ClockChanges(run[i], actions[i], run[i + 1])
    ensures StopChanges(run[i], actions[i], run[i + 1])
    ensures Known(run[i], actions[i], run[i + 1], id)
    ensures id in run[i].tasks ==>
      TaskChanges(run[i], actions[i], id, run[i].tasks[id], run[i + 1].tasks[id])
    ensures actions[i].AddTask? && actions[i].id == id ==> Added(actions[i], run[i + 1].tasks[id])
  {
    hide Enabled, Apply, Initial, TaskChanges, NamesChange, SwitchChanges, LoopChanges, ExecChanges, Added;
    hide LockChanges, ClockChanges, StopChanges;
    TaskExact(run[i], actions[i], id);
    if id in run[i].tasks { TaskChangesExactly(run[i], actions[i], id); }
    RestExact(run[i], actions[i], l);
    ExecExact(run[i], actions[i], e);
  }

  /** A check starts an execution of a task exactly if the task is enabled, its next run is known and over at
      the time of the check, and nothing runs it. */
  lemma ClaimedExactly(run: seq<State>, actions: seq<Action>, i: nat, loop: nat, id: TaskId, exec: nat)
    requires IsRun(run, actions) && i < |actions| && actions[i] == LoopClaim(loop, id, exec)
    ensures exec !in run[i].execs && id in run[i].tasks && loop in run[i].loops && run[i].loops[loop].Checking?
    ensures var t := run[i].tasks[id];
      exec in run[i + 1].execs <==>
        t.enabled && t.nextRun != ZERO_TIME && run[i].loops[loop].at > t.nextRun && !t.guard
  {
    ChangesExactly(run, actions, i, id, loop, exec);
    hide Apply;
  }

  /** From a DisableTask to the next EnableTask that leads to the same task, nothing claims it. */
  lemma {:induction false} DisabledIsNotClaimed(
    run: seq<State>, actions: seq<Action>, i: nat, j: nat, name: string, id: TaskId)
    requires IsRun(run, actions) && i < j < |run| && actions[i] == DisableTask(name) && LeadsTo(run[i], name, id)
    requires forall k :: i < k < j && actions[k].EnableTask? ==> !LeadsTo(run[k], actions[k].name, id)
    ensures id in run[i].tasks && id in run[j].tasks
    ensures !run[j].tasks[id].enabled && run[j].tasks[id].claims == run[i].tasks[id].claims
  {
    assert id in run[i].tasks by { hide Apply; }
    hide Enabled, Apply, Initial;
    ChangesExactly(run, actions, j - 1, id, 0, 0);
    if j > i + 1 { DisabledIsNotClaimed(run, actions, i, j - 1, name, id); }
  }

  // ----- a task without a name

  ghost predicate NamesOk(s: State) {
    && (forall name :: name in s.names ==> s.names[name] in s.tasks)
    && (forall m, n :: m in s.names && n in s.names && s.names[m] == s.names[n] ==> m == n)
  }

  lemma StepKeepsNames(s: State, a: Action)
    requires Enabled(s, a) && NamesOk(s)
    ensures NamesOk(Apply(s, a))
  {
    RestExact(s, a, 0);
    assert s.tasks.Keys <= Apply(s, a).tasks.Keys by {
      forall id | id in s.tasks ensures id in Apply(s, a).tasks { TaskExact(s, a, id); }
    }
    if a.AddTask? { TaskExact(s, a, a.id); }
    hide Apply;
  }

  lemma {:induction false} RunNames(run: seq<State>, actions: seq<Action>, i: nat)
    requires IsRun(run, actions) && i < |run|
    ensures NamesOk(run[i])
  {
    hide Enabled, Apply;
    if i > 0 {
      hide NamesOk;
      RunNames(run, actions, i - 1);
      StepKeepsNames(run[i - 1], actions[i - 1]);
    }
  }

  /** No name leads to the task, and no check still has it on its list. */
  ghost predicate Unlisted(s: State, id: TaskId) {
    && id in s.tasks && (forall name :: name in s.names ==> s.names[name] != id)
    && forall l :: l in s.loops && s.loops[l].Checking? ==> id !in s.loops[l].todo
  }

  lemma StaysUnlisted(s: State, a: Action, id: TaskId)
    requires Enabled(s, a) && Unlisted(s, id)
    ensures Unlisted(Apply(s, a), id) && !(a.LoopClaim? && a.id == id)
  {
    hide NextRun, ValidSchedule, Take, ClaimedBy, Due;
  }

  lemma BecomesUnlisted(s: State, a: Action, name: string, id: TaskId)
    requires Enabled(s, a) && (a == RemoveTask(name) || (a.AddTask? && a.name == name))
    requires LeadsTo(s, name, id) && NamesOk(s) && LoopsOk(s)
    ensures Unlisted(Apply(s, a), id)
  {
    hide NextRun, ValidSchedule;
    forall l | l in s.loops ensures s.loops[l].Waiting? { assert LoopOk(s, l); }
  }

  lemma {:induction false} RunUnlisted(
    run: seq<State>, actions: seq<Action>, i: nat, j: nat, name: string, id: TaskId)
    requires IsRun(run, actions) && i < j < |run| && LeadsTo(run[i], name, id)
    requires actions[i] == RemoveTask(name) || (actions[i].AddTask? && actions[i].name == name)
    ensures Unlisted(run[j], id)
  {
    hide Enabled, Apply, Unlisted, NamesOk, TasksOk, ExecsOk, LoopsOk, CountOk, StopOk;
    if j > i + 1 {
      RunUnlisted(run, actions, i, j - 1, name, id);
      StaysUnlisted(run[j - 1], actions[j - 1], id);
    } else {
      RunNames(run, actions, i);
      RunInv(run, actions, i);
      BecomesUnlisted(run[i], actions[i], name, id);
    }
  }

  /** A task whose name was removed, or given to a new task, is never claimed again, not even by a check
      that had begun before. */
  lemma RemovedIsNotClaimed(run: seq<State>, actions: seq<Action>, i: nat, j: nat, name: string, id: TaskId)
    requires IsRun(run, actions) && i < j < |actions| && LeadsTo(run[i], name, id)
    requires actions[i] == RemoveTask(name) || (actions[i].AddTask? && actions[i].name == name)
    ensures !(actions[j].LoopClaim? && actions[j].id == id)
  {
    hide Enabled, Apply, Unlisted;
    RunUnlisted(run, actions, i, j, name, id);
    StaysUnlisted(run[j], actions[j], id);
  }

  // ----- a check claims what is due

  /** The check that began at j is under way at m, and has yet to look at the task, or did so at i. */
  predicate Underway(run: seq<State>, actions: seq<Action>, j: nat, m: nat, loop: nat, at: int, id: TaskId, i: int)
    requires j < m < |run| && |run| == |actions| + 1
  {
    && run[m].mutex == Some(loop) && loop in run[m].loops && run[m].loops[loop].Checking? && run[m].loops[loop].at == at
    && id in run[j].tasks && id in run[m].tasks
    && (i < 0 <==> id in run[m].loops[loop].todo)
    && (i < 0 ==> SameTime(run[j].tasks[id], run[m].tasks[id]))
    && (i >= 0 ==> j < i < m && LooksAt(actions[i], loop, id) && id in run[i].tasks
                   && SameTime(run[j].tasks[id], run[i].tasks[id])
                   && loop in run[i].loops && run[i].loops[loop].Checking? && run[i].loops[loop].at == at)
    && forall x :: j < x < m && LooksAt(actions[x], loop, id) ==> x == i
  }

  predicate SameTime(t: Task, u: Task) { t.enabled == u.enabled && t.nextRun == u.nextRun }

  predicate LooksAt(a: Action, loop: nat, id: TaskId) { a.LoopClaim? && a.loop == loop && a.id == id }

  lemma CheckBegins(s: State, loop: nat, at: int, id: TaskId)
    requires Enabled(s, LoopLock(loop, at)) && Apply(s, LoopLock(loop, at)).mutex == Some(loop)
    requires NamesOk(s) && id in s.names.Values
    ensures var t := Apply(s, LoopLock(loop, at));
      && loop in t.loops && t.loops[loop].Checking? && t.loops[loop].at == at && id in t.loops[loop].todo
      && t.tasks == s.tasks && id in t.tasks
  {
  }

  lemma CheckGoesOn(s: State, a: Action, loop: nat, at: int, id: TaskId)
    requires Enabled(s, a) && s.mutex == Some(loop) && a != LoopUnlock(loop)
    requires loop in s.loops && s.loops[loop].Checking? && s.loops[loop].at == at && id in s.tasks
    ensures var t := Apply(s, a);
      && t.mutex == Some(loop) && loop in t.loops && t.loops[loop].Checking? && t.loops[loop].at == at && id in t.tasks
      && (id in t.loops[loop].todo <==> id in s.loops[loop].todo && !LooksAt(a, loop, id))
      && (LooksAt(a, loop, id) ==> id in s.loops[loop].todo)
      && (!LooksAt(a, loop, id) ==> SameTime(s.tasks[id], t.tasks[id]))
  {
    hide NextRun, ValidSchedule;
  }

  lemma {:induction false} CheckSoFar(
    run: seq<State>, actions: seq<Action>, j: nat, m: nat, loop: nat, at: int, id: TaskId) returns (i: int)
    requires IsRun(run, actions) && j < m < |run| && actions[j] == LoopLock(loop, at)
    requires run[j + 1].mutex == Some(loop) && id in run[j].names.Values
    requires forall x :: j < x < m ==> actions[x] != LoopUnlock(loop)
    ensures Underway(run, actions, j, m, loop, at, id, i)
  {
    hide Enabled, Apply, Initial;
    if m == j + 1 {
      i := -1;
      RunNames(run, actions, j);
      CheckBegins(run[j], loop, at, id);
    } else {
      i := CheckSoFar(run, actions, j, m - 1, loop, at, id);
      CheckGoesOn(run[m - 1], actions[m - 1], loop, at, id);
      if LooksAt(actions[m - 1], loop, id) { i := m - 1; }
    }
  }

  /** A check that is carried out looks once at every task that has a name, and starts it exactly if, as the
      check began, it was enabled and its next run known and over, and nothing runs it. */
  lemma CheckStartsTheDue(
    run: seq<State>, actions: seq<Action>, j: nat, k: nat, loop: nat, at: int, name: string) returns (i: nat)
    requires IsRun(run, actions) && j < k < |actions| && name in run[j].names
    requires actions[j] == LoopLock(loop, at) && run[j + 1].mutex == Some(loop) && actions[k] == LoopUnlock(loop)
    requires forall x :: j < x < k ==> actions[x] != LoopUnlock(loop)
    ensures var id := run[j].names[name];
      && j < i < k && LooksAt(actions[i], loop, id)
      && (forall x :: j < x < k && LooksAt(actions[x], loop, id) ==> x == i)
      && id in run[j].tasks && id in run[i].tasks
      && (actions[i].exec in run[i + 1].execs <==>
            run[j].tasks[id].enabled && run[j].tasks[id].nextRun != ZERO_TIME && at > run[j].tasks[id].nextRun
            && !run[i].tasks[id].guard)
  {
    hide Apply, Initial;
    var id := run[j].names[name];
    var found := CheckSoFar(run, actions, j, k, loop, at, id);
    assert Enabled(run[k], LoopUnlock(loop));
    i := found;
    ClaimedExactly(run, actions, i, loop, id, actions[i].exec);
  }
}
