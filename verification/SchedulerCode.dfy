/** The scheduler's own methods, updating its fields in place, proved to perform the actions of the
    state machine in module Scheduler and nothing else. */
module SchedulerCode {
  import opened CronNext
  import opened Scheduler
  import opened Text

  /** The actions are possible one after the other, starting in s. */
  ghost predicate Possible(s: State, actions: seq<Action>)
    decreases |actions|, 0
  {
    actions == [] ||
    var n := |actions| - 1;
    Possible(s, actions[..n]) && Enabled(After(s, actions[..n]), actions[n])
  }

  ghost function After(s: State, actions: seq<Action>): State
    requires Possible(s, actions)
    decreases |actions|, 1
  {
    if actions == [] then s
    else
      var n := |actions| - 1;
      Apply(After(s, actions[..n]), actions[n])
  }

  lemma OneMore(s: State, actions: seq<Action>, a: Action)
    requires Possible(s, actions) && Enabled(After(s, actions), a)
    ensures Possible(s, actions + [a]) && After(s, actions + [a]) == Apply(After(s, actions), a)
  {
    assert (actions + [a])[..|actions|] == actions;
  }

  class SchedulerObject {
    var now: int
    var names: map<string, TaskId>
    var tasks: map<TaskId, Task>
    var running: bool
    var ctx: nat
    var cancelled: set<nat>
    var waitGroup: int
    var loops: map<nat, Loop>
    var execs: map<nat, Exec>
    var mutex: Option<nat>
    var lifecycle: Lifecycle

    constructor (freshCtx: nat)
      ensures Initial(View())
    {
      now, ctx := 0, freshCtx;
      names, tasks := map[], map[];
      running, cancelled, waitGroup := false, {}, 0;
      loops, execs, mutex, lifecycle := map[], map[], None, Free;
    }

    ghost function View(): State
      reads this
    {
      State(now, names, tasks, running, ctx, cancelled, waitGroup, loops, execs, mutex, lifecycle)
    }

    method Add(name: string, id: TaskId, schedule: Schedule)
      requires mutex.None? && id !in tasks && ValidSchedule(schedule)
      modifies this`tasks, this`names
      ensures Enabled(old(View()), AddTask(name, id, schedule, now))
      ensures View() == Apply(old(View()), AddTask(name, id, schedule, now))
    {
      var next := NextRun(schedule, now);
      tasks := tasks[id := Task(schedule, true, next, 0, false, 0, next, 0, None)];
      names := names[name := id];
    }

    method Enable(name: string) returns (ok: bool)
      requires mutex.None? && forall n :: n in names ==> names[n] in tasks
      modifies this`tasks
      ensures ok == (name in names)
      ensures ok ==> Enabled(old(View()), EnableTask(name)) && View() == Apply(old(View()), EnableTask(name))
      ensures !ok ==> View() == old(View())
    {
      ok := name in names;
      if ok {
        var id := names[name];
        var task := tasks[id];
        var next := NextRun(task.schedule, now);
        tasks := tasks[id := task.(enabled := true, nextRun := next, base := next, claims := 0)];
      }
    }

    method Begin(loop: nat, freshCtx: nat)
      requires mutex.None? && lifecycle == Free && loop !in loops && freshCtx !in cancelled
      modifies this`ctx, this`running, this`waitGroup, this`loops
      ensures Enabled(old(View()), Start(loop, freshCtx))
      ensures View() == Apply(old(View()), Start(loop, freshCtx))
    {
      if running {
        return;
      }
      if ctx in cancelled {
        ctx := freshCtx;
      }
      running := true;
      waitGroup := waitGroup + 1;
      loops := loops[loop := Waiting(ctx)];
    }

    method Lock(loop: nat, at: int) returns (checking: bool)
      requires mutex.None? && loop in loops && loops[loop].Waiting? && at <= now
      modifies this`mutex, this`loops
      ensures Enabled(old(View()), LoopLock(loop, at))
      ensures View() == Apply(old(View()), LoopLock(loop, at))
      ensures checking == (running && old(loops[loop]).ctx !in cancelled)
      ensures if checking then mutex == Some(loop) && loop in loops && loops[loop].Checking? && loops[loop].at == at
                && loops[loop].todo == names.Values * tasks.Keys
              else mutex.None?
    {
      var context := loops[loop].ctx;
      checking := running && context !in cancelled;
      if checking {
        mutex := Some(loop);
        loops := loops[loop := Checking(context, at, names.Values * tasks.Keys)];
      }
    }

    method Unlock(loop: nat)
      requires mutex == Some(loop) && loop in loops && loops[loop].Checking? && loops[loop].todo == {}
      modifies this`mutex, this`loops
      ensures mutex.None? && Enabled(old(View()), LoopUnlock(loop))
      ensures View() == Apply(old(View()), LoopUnlock(loop))
    {
      mutex := None;
      loops := loops[loop := Waiting(loops[loop].ctx)];
    }

    /** One task of a check: if it is due and its guard is free, take the guard, move its next run
        on from the last one, and count it in the wait group before the lock is released. */
    method Claim(loop: nat, at: int, id: TaskId, exec: nat) returns (claimed: bool)
      requires mutex == Some(loop) && loop in loops && loops[loop].Checking? && loops[loop].at == at
      requires id in loops[loop].todo && id in tasks && exec !in execs
      modifies this`tasks, this`loops, this`execs, this`waitGroup
      ensures Enabled(old(View()), LoopClaim(loop, id, exec))
      ensures View() == Apply(old(View()), LoopClaim(loop, id, exec))
      ensures tasks.Keys == old(tasks.Keys)
      ensures claimed <==>
        (old(tasks[id]).enabled && old(tasks[id]).nextRun != ZERO_TIME && at > old(tasks[id]).nextRun
         && !old(tasks[id]).guard)
      ensures claimed ==>
        tasks[id].guard && tasks[id].nextRun == NextRun(old(tasks[id]).schedule, old(tasks[id]).nextRun)
      ensures loop in loops && loops[loop].Checking? && loops[loop].at == at
      ensures loops[loop].todo == old(loops[loop].todo) - {id}
      ensures execs.Keys == old(execs.Keys) + if claimed then {exec} else {}
    {
      var task := tasks[id];
      loops := loops[loop := loops[loop].(todo := loops[loop].todo - {id})];
      claimed := Due(task, at) && !task.guard;
      if claimed {
        tasks := tasks[id := ClaimedBy(task, exec)];
        execs := execs[exec := Exec(id, true, loop, Claimed)];
        waitGroup := waitGroup + 1;
      }
    }

    /** The locked part of one check: every task, in whatever order the map yields them, is looked
        at once; the due ones whose guard is free are claimed for spawning.  When it ends the lock
        is free again and the whole section is a sequence of the state machine's actions. */
    method CollectDue(loop: nat, at: int, order: seq<TaskId>, freshExecs: seq<nat>)
      returns (due: seq<nat>, ghost actions: seq<Action>)
      requires mutex.None? && loop in loops && loops[loop].Waiting? && at <= now
      requires |freshExecs| == |order|
      requires forall i :: 0 <= i < |order| ==> order[i] in tasks && freshExecs[i] !in execs
      requires forall i, j :: 0 <= i < j < |order| ==> order[i] != order[j] && freshExecs[i] != freshExecs[j]
      requires (set id | id in order) == names.Values * tasks.Keys
      modifies this`tasks, this`loops, this`execs, this`waitGroup, this`mutex
      ensures mutex.None?
      ensures Possible(old(View()), actions) && View() == After(old(View()), actions)
      ensures forall e :: e in due <==> e in execs && e !in old(execs)
    {
      hide Apply, Enabled, View;
      ghost var s := View();
      due, actions := [], [];
      var checking := Lock(loop, at);
      OneMore(s, actions, LoopLock(loop, at));
      actions := actions + [LoopLock(loop, at)];
      if !checking {
        return;
      }
      hide After, Possible;
      var i := 0;
      while i < |order|
        invariant 0 <= i <= |order|
        invariant mutex == Some(loop) && loop in loops && loops[loop].Checking? && loops[loop].at == at
        invariant forall id :: id in loops[loop].todo <==> id in order[i..]
        invariant forall j :: i <= j < |order| ==> order[j] in tasks && freshExecs[j] !in execs
        invariant Possible(s, actions) && View() == After(s, actions)
        invariant forall e :: e in due <==> e in execs && e !in old(execs)
      {
        var id, exec := order[i], freshExecs[i];
        assert id in order[i..];
        var claimed := Claim(loop, at, id, exec);
        ghost var a := LoopClaim(loop, id, exec);
        OneMore(s, actions, a);
        actions := actions + [a];
        if claimed {
          due := due + [exec];
        }
        i := i + 1;
      }
      Unlock(loop);
      OneMore(s, actions, LoopUnlock(loop));
      actions := actions + [LoopUnlock(loop)];
    }
  }
}
