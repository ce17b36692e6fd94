/** The health flags of the replicas under concurrency: the sections of the database manager that hold
    the state lock are the steps, and probe rounds write, without the lock, into the flag array they
    saw when they began.  Arrays are numbered, because a round may outlive the replicas it probes. */
module DbHealth {
  import opened Text

  type Pool = nat
  type ArrayId = nat

  /** A probe round after its look under the lock: the replicas and flags it saw, and how far it is. */
  datatype Round = Round(replicas: seq<Pool>, flags: ArrayId, next: nat)

  datatype State = State(
    master: Option<Pool>,
    replicas: seq<Pool>,
    flags: Option<ArrayId>,          // replicaHealthy
    healthSet: bool,                 // replicaHealthSet
    arrays: map<ArrayId, seq<bool>>,
    issued: ArrayId,
    rounds: map<nat, Round>)

  datatype Action =
    | InstallMaster(pool: Pool)
    | ClearReplicas
    | InstallReplicas(pools: seq<Pool>)
    | CloseAll
    | InitHealth
    | BeginRound(id: nat)
    | Write(id: nat, ok: bool)
    | EndRound(id: nat)

  predicate Enabled(s: State, a: Action) {
    match a
    case BeginRound(id) => id !in s.rounds
    case Write(id, _) => id in s.rounds && s.rounds[id].next < |s.rounds[id].replicas|
    case EndRound(id) => id in s.rounds && s.rounds[id].next >= |s.rounds[id].replicas|
    case _ => true
  }

  /** One flag per replica, all set, in a new array. */
  function Rebuilt(s: State): State {
    s.(flags := Some(s.issued), healthSet := true, issued := s.issued + 1,
       arrays := s.arrays[s.issued := seq(|s.replicas|, _ => true)])
  }

  function Reset(s: State): State { s.(flags := None, healthSet := false) }

  function Looked(s: State): State {
    if s.replicas != [] && !s.healthSet then Rebuilt(s) else s
  }

  /** The flag is written only if the array is long enough. */
  function Written(arrays: map<ArrayId, seq<bool>>, r: Round, ok: bool): map<ArrayId, seq<bool>> {
    if r.flags in arrays && r.next < |arrays[r.flags]|
    then arrays[r.flags := arrays[r.flags][r.next := ok]] else arrays
  }

  function Apply(s: State, a: Action): State
    requires Enabled(s, a)
  {
    match a
    case InstallMaster(pool) => s.(master := Some(pool))
    case ClearReplicas => Reset(s.(replicas := []))
    case InstallReplicas(pools) => Rebuilt(s.(replicas := pools))
    case CloseAll => Reset(s.(master := None, replicas := []))
    case InitHealth => if s.healthSet then s else Rebuilt(s)
    case BeginRound(id) =>
      var t := Looked(s);
      if t.healthSet && t.flags.Some? then t.(rounds := t.rounds[id := Round(t.replicas, t.flags.value, 0)]) else t
    case Write(id, ok) =>
      var r := s.rounds[id];
      s.(arrays := Written(s.arrays, r, ok), rounds := s.rounds[id := r.(next := r.next + 1)])
    case EndRound(id) => s.(rounds := s.rounds - {id})
  }

  predicate Initial(s: State) {
    && s.master == None && s.replicas == [] && s.flags == None && !s.healthSet
    && s.arrays == map[] && s.issued == 0 && s.rounds == map[]
  }

  /** Marked set, the flags are there and there is exactly one per replica. */
  predicate FlagsOk(s: State) {
    s.healthSet == s.flags.Some?
    && (s.flags.Some? ==> s.flags.value in s.arrays && |s.arrays[s.flags.value]| == |s.replicas|)
  }

  ghost predicate ArraysOk(s: State) { forall k :: k in s.arrays ==> k < s.issued }

  /** A round that writes into the current flags probes the current replicas. */
  predicate RoundOk(s: State, r: Round) {
    && r.flags in s.arrays && |s.arrays[r.flags]| == |r.replicas|
    && (s.flags == Some(r.flags) ==> r.replicas == s.replicas)
  }

  ghost predicate RoundsOk(s: State) { forall id :: id in s.rounds ==> RoundOk(s, s.rounds[id]) }

  ghost predicate Inv(s: State) { FlagsOk(s) && ArraysOk(s) && RoundsOk(s) }

  lemma RebuiltKeeps(s: State, pools: seq<Pool>)
    requires ArraysOk(s) && RoundsOk(s)
    ensures Inv(Rebuilt(s.(replicas := pools)))
  {
    var t := Rebuilt(s.(replicas := pools));
    forall id | id in t.rounds ensures RoundOk(t, t.rounds[id]) {
      assert RoundOk(s, s.rounds[id]);
    }
  }

  lemma ResetKeeps(s: State, t: State)
    requires ArraysOk(s) && RoundsOk(s)
    requires t == Reset(s.(master := t.master, replicas := []))
    ensures Inv(t)
  {
    forall id | id in t.rounds ensures RoundOk(t, t.rounds[id]) {
      assert RoundOk(s, s.rounds[id]);
    }
  }

  lemma WriteKeeps(s: State, id: nat, ok: bool)
    requires Enabled(s, Write(id, ok)) && Inv(s)
    ensures Inv(Apply(s, Write(id, ok)))
  {
    var t := Apply(s, Write(id, ok));
    assert RoundOk(s, s.rounds[id]);
    forall k | k in s.arrays ensures k in t.arrays && |t.arrays[k]| == |s.arrays[k]| {
    }
    forall j | j in t.rounds ensures RoundOk(t, t.rounds[j]) {
      assert RoundOk(s, s.rounds[j]);
    }
  }

  lemma BeginKeeps(s: State, id: nat)
    requires Enabled(s, BeginRound(id)) && Inv(s)
    ensures Inv(Apply(s, BeginRound(id)))
  {
    var t, u := Looked(s), Apply(s, BeginRound(id));
    RebuiltKeeps(s, s.replicas);
    assert s.(replicas := s.replicas) == s;
    forall j | j in u.rounds ensures RoundOk(u, u.rounds[j]) {
      assert j != id ==> RoundOk(t, t.rounds[j]);
    }
  }

  lemma StepKeeps(s: State, a: Action)
    requires Enabled(s, a) && Inv(s)
    ensures Inv(Apply(s, a))
  {
    match a
    case InstallMaster(_) => assert forall r :: RoundOk(s, r) ==> RoundOk(Apply(s, a), r);
    case ClearReplicas => ResetKeeps(s, Apply(s, a));
    case InstallReplicas(pools) => RebuiltKeeps(s, pools);
    case CloseAll => ResetKeeps(s, Apply(s, a));
    case InitHealth => RebuiltKeeps(s, s.replicas); assert s.(replicas := s.replicas) == s;
    case BeginRound(id) => BeginKeeps(s, id);
    case Write(id, ok) => WriteKeeps(s, id, ok);
    case EndRound(_) => assert forall r :: RoundOk(s, r) ==> RoundOk(Apply(s, a), r);
  }

  ghost predicate IsRun(run: seq<State>, actions: seq<Action>) {
    && |run| == |actions| + 1 && Initial(run[0])
    && forall i :: 0 <= i < |actions| ==> Enabled(run[i], actions[i]) && run[i + 1] == Apply(run[i], actions[i])
  }

  lemma {:induction false} RunInv(run: seq<State>, actions: seq<Action>, i: nat)
    requires IsRun(run, actions) && i < |run|
    ensures Inv(run[i])
  {
    hide Enabled, Apply;
    if i > 0 {
      hide Inv;
      RunInv(run, actions, i - 1);
      StepKeeps(run[i - 1], actions[i - 1]);
    }
  }

  /** Whenever the state lock is free: flags that are marked set number exactly the replicas. */
  lemma OneFlagPerReplica(run: seq<State>, actions: seq<Action>, i: nat)
    requires IsRun(run, actions) && i < |run| && run[i].healthSet
    ensures run[i].flags.Some? && run[i].flags.value in run[i].arrays
    ensures |run[i].arrays[run[i].flags.value]| == |run[i].replicas|
  {
    hide Enabled, Apply;
    RunInv(run, actions, i);
  }

  /** A write changes at most the flag of the very replica that was pinged; if the replicas have been
      rebuilt or closed since the round began, it changes no current flag at all. */
  lemma WritesHitTheirReplica(run: seq<State>, actions: seq<Action>, i: nat, id: nat, ok: bool, k: nat)
    requires IsRun(run, actions) && i < |actions| && actions[i] == Write(id, ok)
    requires run[i].flags.Some? && k < |run[i].replicas|
    ensures run[i + 1].flags == run[i].flags && run[i + 1].replicas == run[i].replicas
    ensures var (s, t, r) := (run[i], run[i + 1], run[i].rounds[id]);
      && s.flags.value in s.arrays && k < |s.arrays[s.flags.value]|
      && t.flags.value in t.arrays && k < |t.arrays[s.flags.value]|
      && (t.arrays[s.flags.value][k] != s.arrays[s.flags.value][k] ==>
            r.flags == s.flags.value && k == r.next && s.replicas[k] == r.replicas[k]
            && t.arrays[s.flags.value][k] == ok)
  {
    RunInv(run, actions, i);
    assert RoundOk(run[i], run[i].rounds[id]);
  }

  predicate ReplacesReplicas(a: Action) { a.ClearReplicas? || a.InstallReplicas? || a == CloseAll }

  /** Whenever the replicas are replaced, so is the array: a round begun before never again writes into
      the array in use, however often it is rebuilt. */
  lemma OldRoundsMissNewFlags(run: seq<State>, actions: seq<Action>, i: nat, j: nat, id: nat)
    requires IsRun(run, actions) && i < j < |run|
    requires ReplacesReplicas(actions[i]) && id in run[i].rounds
    requires forall k :: i <= k < j ==> actions[k] != EndRound(id)
    ensures id in run[j].rounds && run[j].rounds[id].flags == run[i].rounds[id].flags
    ensures run[j].flags != Some(run[j].rounds[id].flags)
  {
    RunInv(run, actions, i);
    OldRoundStaysOld(run, actions, i + 1, j, id, run[i].rounds[id].flags);
  }

  lemma {:induction false} OldRoundStaysOld(run: seq<State>, actions: seq<Action>, i: nat, j: nat,
      id: nat, seen: ArrayId)
    requires IsRun(run, actions) && i <= j < |run|
    requires id in run[i].rounds && run[i].rounds[id].flags == seen && seen < run[i].issued
    requires run[i].flags.Some? ==> seen < run[i].flags.value
    requires forall k :: i <= k < j ==> actions[k] != EndRound(id)
    ensures id in run[j].rounds && run[j].rounds[id].flags == seen && seen < run[j].issued
    ensures run[j].flags.Some? ==> seen < run[j].flags.value
    decreases j
  {
    if i < j {
      OldRoundStaysOld(run, actions, i, j - 1, id, seen);
    }
  }

  // ----- what the single steps do

  /** Where the flags in use are built anew: with new replicas, or when there were none to be used. */
  predicate Builds(s: State, a: Action) {
    || a.InstallReplicas?
    || (a == InitHealth && !s.healthSet)
    || (a.BeginRound? && s.replicas != [] && !s.healthSet)
  }

  predicate PoolsChange(s: State, a: Action, t: State) {
    && t.master == (match a case InstallMaster(pool) => Some(pool) case CloseAll => None case _ => s.master)
    && t.replicas == (match a
                      case InstallReplicas(pools) => pools
                      case ClearReplicas => []
                      case CloseAll => []
                      case _ => s.replicas)
  }

  /** The write goes to the k-th flag in use. */
  predicate WritesFlag(s: State, a: Action, k: nat) {
    a.Write? && a.id in s.rounds && s.flags == Some(s.rounds[a.id].flags) && s.rounds[a.id].next == k
  }

  /** Flags are in use from their building to the next clearing; then each is what the last write to it says. */
  predicate FlagsChange(s: State, a: Action, t: State, k: nat) {
    && (t.healthSet <==> Builds(s, a) || (s.healthSet && a != ClearReplicas && a != CloseAll))
    && (Builds(s, a) && k < |t.replicas| ==> Flag(t, k) == Some(true))
    && (t.healthSet && !Builds(s, a) ==>
          t.flags == s.flags
          && Flag(t, k) == (if WritesFlag(s, a, k) && k < |s.replicas| then Some(a.ok) else Flag(s, k)))
  }

  function Flag(s: State, k: nat): Option<bool> {
    if s.flags.Some? && s.flags.value in s.arrays && k < |s.arrays[s.flags.value]|
    then Some(s.arrays[s.flags.value][k]) else None
  }

  /** A round begins with the replicas and flags then in use, if there are flags; its writes go through the
      replicas one by one. */
  predicate RoundsChange(s: State, a: Action, t: State, id: nat) {
    && (id in t.rounds <==> (a == BeginRound(id) && t.healthSet) || (id in s.rounds && a != EndRound(id)))
    && (a == BeginRound(id) && id in t.rounds ==> t.flags.Some? && t.rounds[id] == Round(s.replicas, t.flags.value, 0))
    && (a != BeginRound(id) && id in t.rounds && id in s.rounds ==>
          t.rounds[id] ==
            (if a.Write? && a.id == id then s.rounds[id].(next := s.rounds[id].next + 1) else s.rounds[id]))
  }

  lemma PoolsExact(s: State, a: Action, id: nat)
    requires Enabled(s, a) && Inv(s)
    ensures PoolsChange(s, a, Apply(s, a)) && RoundsChange(s, a, Apply(s, a), id)
  {
    hide ArraysOk, RoundsOk, Written;
  }

  lemma FlagsExact(s: State, a: Action, k: nat)
    requires Enabled(s, a) && Inv(s)
    ensures FlagsChange(s, a, Apply(s, a), k)
  {
    if a.Write? { assert RoundOk(s, s.rounds[a.id]); }
  }

  /** In every run: what one action does to the pools, to one flag and to one round. */
  lemma ChangesExactly(run: seq<State>, actions: seq<Action>, i: nat, k: nat, id: nat)
    requires IsRun(run, actions) && i < |actions|
    ensures PoolsChange(run[i], actions[i], run[i + 1]) && RoundsChange(run[i], actions[i], run[i + 1], id)
    ensures FlagsChange(run[i], actions[i], run[i + 1], k)
  {
    RunInv(run, actions, i);
    PoolsExact(run[i], actions[i], id);
    FlagsExact(run[i], actions[i], k);
    hide Enabled, Apply, Inv, PoolsChange, RoundsChange, FlagsChange;
  }

  /** As long as the replicas are not replaced, a replica is marked as the last ping that was written says,
      whatever other rounds do. */
  lemma {:induction false} LastPingCounts(
    run: seq<State>, actions: seq<Action>, i: nat, j: nat, id: nat, ok: bool, k: nat)
    requires IsRun(run, actions) && i < j < |run| && actions[i] == Write(id, ok) && WritesFlag(run[i], actions[i], k)
    requires forall x :: i < x < j ==> !ReplacesReplicas(actions[x]) && !WritesFlag(run[x], actions[x], k)
    ensures run[j].healthSet && run[j].replicas == run[i].replicas && Flag(run[j], k) == Some(ok)
  {
    hide Enabled, Apply;
    ChangesExactly(run, actions, j - 1, k, id);
    RunInv(run, actions, j - 1);
    if j > i + 1 {
      LastPingCounts(run, actions, i, j - 1, id, ok, k);
    } else {
      InRound(run, actions, i, id, ok);
    }
  }

  lemma InRound(run: seq<State>, actions: seq<Action>, i: nat, id: nat, ok: bool)
    requires IsRun(run, actions) && i < |actions| && actions[i] == Write(id, ok)
    ensures id in run[i].rounds
    ensures run[i].rounds[id].next < |run[i].rounds[id].replicas| && RoundOk(run[i], run[i].rounds[id])
  {
    RunInv(run, actions, i);
  }

  // ----- a run in which everything happens

  const NEW_MANAGER := State(None, [], None, false, map[], 0, map[])

  const PROBING: seq<Action> := [InstallMaster(1), InstallReplicas([5, 6]), BeginRound(0)]

  const PROBED: seq<Action> := PROBING + [Write(0, false), Write(0, true), EndRound(0)]

  const IN_ROUND := State(Some(1), [5, 6], Some(0), true, map[0 := [true, true]], 1, map[0 := Round([5, 6], 0, 0)])

  const AT_REST := IN_ROUND.(arrays := map[0 := [false, true]], rounds := map[])

  lemma OneMore(run: seq<State>, actions: seq<Action>, a: Action) returns (longer: seq<State>)
    requires IsRun(run, actions) && Enabled(run[|actions|], a)
    ensures IsRun(longer, actions + [a]) && longer[|actions| + 1] == Apply(run[|actions|], a)
  {
    longer := run + [Apply(run[|actions|], a)];
  }

  lemma NewManagerRuns()
    ensures IsRun([NEW_MANAGER], [])
  {
  }

  lemma BeginsRound() returns (run: seq<State>)
    ensures IsRun(run, PROBING) && run[|PROBING|] == IN_ROUND
  {
    hide IsRun;
    NewManagerRuns();
    run := [NEW_MANAGER];
    var done: seq<Action> := [];
    run := OneMore(run, done, InstallMaster(1));
    done := done + [InstallMaster(1)];
    run := OneMore(run, done, InstallReplicas([5, 6]));
    done := done + [InstallReplicas([5, 6])];
    run := OneMore(run, done, BeginRound(0));
    done := done + [BeginRound(0)];
    assert run[|done|].arrays[0] == [true, true];
    assert done == PROBING;
  }

  /** A manager gets a master and two replicas, and a round finds one of them away. */
  lemma WholeLife() returns (run: seq<State>)
    ensures IsRun(run, PROBED) && run[|PROBED|] == AT_REST
  {
    hide IsRun;
    run := BeginsRound();
    var done: seq<Action> := PROBING;
    run := OneMore(run, done, Write(0, false));
    done := done + [Write(0, false)];
    run := OneMore(run, done, Write(0, true));
    done := done + [Write(0, true)];
    run := OneMore(run, done, EndRound(0));
    done := done + [EndRound(0)];
    assert run[|done|].arrays[0] == [false, true];
    assert done == PROBED;
  }
}
