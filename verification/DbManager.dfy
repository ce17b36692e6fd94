/** The database manager as its callers see it one operation at a time, which is how the operation lock
    runs them: opening with retries, building replicas, closing, probing, picking a replica. */
module DbManager {
  import opened Arith
  import opened Text

  type Pool = nat

  const MAX_RETRIES := 5

  /** How one attempt to reach a database goes.  `NoPool`: opened, but without a connection pool. */
  datatype Attempt = Cancelled | OpenFails(transient: bool) | NoPool | PingFails | PingsOk

  predicate Retriable(a: Attempt) { a == OpenFails(true) || a == NoPool || a == PingFails }

  /** An initialisation: whether it is cancelled before it begins, whether the TLS settings are bad, what
      each attempt would meet, and in which of the pauses it is cancelled. */
  datatype Weather = Weather(cancelled: bool, badTls: bool, attempts: nat -> Attempt, pauseCancelled: nat -> bool)

  /** From attempt i on, the attempt that connects. */
  function Connects(w: Weather, i: nat): Option<nat>
    decreases MAX_RETRIES - i
  {
    if i >= MAX_RETRIES then None
    else if w.attempts(i) == PingsOk then Some(i)
    else if !Retriable(w.attempts(i)) || i == MAX_RETRIES - 1 || w.pauseCancelled(i) then None
    else Connects(w, i + 1)
  }

  function Connected(w: Weather): Option<nat> { if w.cancelled || w.badTls then None else Connects(w, 0) }

  /** The manager connects with attempt k exactly if it was not cancelled before and its TLS settings are good, k is
      one of the first five and gets its ping through, and each before it failed to open for a passing reason, gave
      no pool or no answer to its ping, and was followed by a pause that was not cancelled. */
  lemma ConnectedIff(w: Weather, k: nat)
    ensures Connected(w) == Some(k) <==>
      (!w.cancelled && !w.badTls && k < 5 && w.attempts(k) == PingsOk
       && forall j :: 0 <= j < k ==>
            (w.attempts(j) == OpenFails(true) || w.attempts(j) == NoPool || w.attempts(j) == PingFails)
            && !w.pauseCancelled(j))
  {
    ConnectsIff(w, 0, k);
  }

  lemma {:induction false} ConnectsIff(w: Weather, i: nat, k: nat)
    requires i <= MAX_RETRIES
    ensures Connects(w, i) == Some(k) <==>
      (i <= k < MAX_RETRIES && w.attempts(k) == PingsOk
       && forall j :: i <= j < k ==> Retriable(w.attempts(j)) && !w.pauseCancelled(j))
    decreases MAX_RETRIES - i
  {
    if i < MAX_RETRIES {
      if w.attempts(i) != PingsOk { ConnectsIff(w, i + 1, k); }
    }
  }

  /** Attempt k of an initialisation opens pool first + k, if it opens one. */
  function Survivors(outcomes: seq<Attempt>, first: Pool): (r: seq<Pool>) {
    if outcomes == [] then []
    else Survivors(outcomes[..|outcomes| - 1], first)
         + (if outcomes[|outcomes| - 1] == PingsOk then [first + |outcomes| - 1] else [])
  }

  /** Exactly the replicas whose ping came through, in the order of their addresses. */
  lemma {:induction false} SurvivorsAre(outcomes: seq<Attempt>, first: Pool)
    ensures forall p :: p in Survivors(outcomes, first) <==>
      first <= p < first + |outcomes| && outcomes[p - first] == PingsOk
    ensures forall i, j :: 0 <= i < j < |Survivors(outcomes, first)| ==>
      Survivors(outcomes, first)[i] < Survivors(outcomes, first)[j]
  {
    if outcomes != [] {
      var before := Survivors(outcomes[..|outcomes| - 1], first);
      SurvivorsAre(outcomes[..|outcomes| - 1], first);
      assert forall i :: 0 <= i < |before| ==> before[i] in before;
    }
  }

  /** What repeated probing makes of the master: its mark and the failures in a row. */
  datatype Health = Health(healthy: bool, failures: nat)

  function Probed(h: Health, ok: bool, threshold: nat): Health {
    if ok then Health(true, 0)
    else Health(if h.failures + 1 >= threshold then false else h.healthy, h.failures + 1)
  }

  function ProbedAll(h: Health, pings: seq<bool>, threshold: nat): Health {
    if pings == [] then h
    else Probed(ProbedAll(h, pings[..|pings| - 1], threshold), pings[|pings| - 1], threshold)
  }

  /** With nothing but rounds since it was healthy and without failures, a master is unhealthy exactly if the
      last `threshold` of them failed. */
  lemma {:induction false} UnhealthyIff(pings: seq<bool>, threshold: nat)
    requires threshold > 0
    ensures var h := ProbedAll(Health(true, 0), pings, threshold);
      && (!h.healthy <==> |pings| >= threshold && forall i :: |pings| - threshold <= i < |pings| ==> !pings[i])
      && h.failures <= |pings| && (forall i :: |pings| - h.failures <= i < |pings| ==> !pings[i])
      && (h.failures < |pings| ==> pings[|pings| - h.failures - 1])
      && (!h.healthy <==> h.failures >= threshold)
  {
    if pings != [] {
      var n := |pings|;
      var before := pings[..n - 1];
      UnhealthyIff(before, threshold);
      var h := ProbedAll(Health(true, 0), pings, threshold);
      if h.failures < threshold && h.failures < n { assert pings[n - h.failures - 1]; }
    }
  }

  // ----- the mark of the master, whatever happens to the manager

  /** What touches the mark: a round of probing, an initialisation that succeeds, and Close. */
  datatype HealthEvent = Round(ok: bool) | Initialised | Closed

  /** An initialisation sets the mark and forgets no failures; Close clears it and counts none. */
  function AfterEvent(h: Health, e: HealthEvent, threshold: nat): Health {
    match e
    case Round(ok) => Probed(h, ok, threshold)
    case Initialised => h.(healthy := true)
    case Closed => h.(healthy := false)
  }

  function AfterEvents(h: Health, es: seq<HealthEvent>, threshold: nat): Health {
    if es == [] then h else AfterEvent(AfterEvents(h, es[..|es| - 1], threshold), es[|es| - 1], threshold)
  }

  /** The results of the rounds alone. */
  function Rounds(es: seq<HealthEvent>): seq<bool> {
    if es == [] then []
    else Rounds(es[..|es| - 1]) + (if es[|es| - 1].Round? then [es[|es| - 1].ok] else [])
  }

  /** The last n rounds failed, whatever lay between them. */
  predicate FailedInARow(pings: seq<bool>, n: nat) {
    |pings| >= n && forall i :: |pings| - n <= i < |pings| ==> !pings[i]
  }

  predicate Revives(e: HealthEvent) { e == Initialised || e == Round(true) }

  /** Event i takes the mark away: a Close, or a failed round that completes `threshold` failed ones. */
  predicate Condemns(es: seq<HealthEvent>, i: nat, threshold: nat)
    requires i < |es|
  {
    es[i] == Closed || (es[i] == Round(false) && FailedInARow(Rounds(es[..i + 1]), threshold))
  }

  predicate NotRevivedSince(es: seq<HealthEvent>, i: nat) { forall j :: i <= j < |es| ==> !Revives(es[j]) }

  predicate LastCondemnation(es: seq<HealthEvent>, i: nat, threshold: nat) {
    i < |es| && Condemns(es, i, threshold) && NotRevivedSince(es, i + 1)
  }

  const NEW_MANAGER := Health(false, 0)

  /** The counter of failures is the number of failed rounds since the last good one. */
  lemma {:induction false} FailuresAreRounds(es: seq<HealthEvent>, threshold: nat)
    ensures var f := AfterEvents(NEW_MANAGER, es, threshold).failures;
      FailedInARow(Rounds(es), f) && !FailedInARow(Rounds(es), f + 1)
  {
    if es != [] {
      var before, e := es[..|es| - 1], es[|es| - 1];
      FailuresAreRounds(before, threshold);
      var f, pings := AfterEvents(NEW_MANAGER, before, threshold).failures, Rounds(before);
      assert pings + [] == pings;
      if e.Round? { OneMoreRound(pings, e.ok, f); }
    }
  }

  lemma OneMoreRound(pings: seq<bool>, ok: bool, f: nat)
    requires FailedInARow(pings, f) && !FailedInARow(pings, f + 1)
    ensures ok ==> FailedInARow(pings + [ok], 0) && !FailedInARow(pings + [ok], 1)
    ensures !ok ==> FailedInARow(pings + [ok], f + 1) && !FailedInARow(pings + [ok], f + 2)
  {
    var all, n := pings + [ok], |pings|;
    assert all[n] == ok && forall i :: 0 <= i < n ==> all[i] == pings[i];
    if f < n { assert pings[n - f - 1] && all[n - f - 1]; }
  }

  lemma RowsNest(pings: seq<bool>, f: nat, n: nat)
    requires FailedInARow(pings, f) && !FailedInARow(pings, f + 1)
    ensures FailedInARow(pings, n) <==> n <= f
  {
    if f < |pings| { assert pings[|pings| - f - 1]; }
  }

  /** Over any history of probe rounds, initialisations and closings: the master is marked unhealthy exactly
      if nothing has marked it healthy yet, or since it was last marked so there was a Close or a failed
      round with which the last `threshold` rounds, counted across initialisations, had all failed. */
  lemma {:induction false} UnhealthyExactly(es: seq<HealthEvent>, threshold: nat)
    ensures !AfterEvents(NEW_MANAGER, es, threshold).healthy <==>
      NotRevivedSince(es, 0) || exists i: nat :: LastCondemnation(es, i, threshold)
  {
    if es != [] {
      var n := |es| - 1;
      UnhealthyExactly(es[..n], threshold);
      FailuresAreRounds(es, threshold);
      RowsNest(Rounds(es), AfterEvents(NEW_MANAGER, es, threshold).failures, threshold);
      assert es[..n + 1] == es;
      hide FailedInARow, Rounds;
      EarlierCondemnations(es, threshold);
      if Condemns(es, n, threshold) { NewestDecides(es, threshold); }
    }
  }

  lemma NewestDecides(es: seq<HealthEvent>, threshold: nat)
    requires es != [] && Condemns(es, |es| - 1, threshold)
    ensures LastCondemnation(es, |es| - 1, threshold)
  {
  }

  /** A last event that neither sets nor clears the mark leaves the earlier condemnations what they were. */
  lemma EarlierCondemnations(es: seq<HealthEvent>, threshold: nat)
    requires es != []
    ensures var before := es[..|es| - 1]; forall i: nat :: i < |before| ==>
      (LastCondemnation(es, i, threshold) <==> LastCondemnation(before, i, threshold) && !Revives(es[|es| - 1]))
  {
    var before := es[..|es| - 1];
    forall i: nat | i < |before|
      ensures LastCondemnation(es, i, threshold) <==> LastCondemnation(before, i, threshold) && !Revives(es[|es| - 1])
    {
      assert before[..i + 1] == es[..i + 1];
    }
  }

  /** Three failed rounds, then a successful initialisation: the master is healthy although its last three
      rounds failed, and the next failed one condemns it at once.  A Close alone condemns it too. */
  lemma FailuresOutliveInit()
    ensures var es := [Initialised, Round(false), Round(false), Round(false), Initialised];
      && FailedInARow(Rounds(es), 3) && AfterEvents(NEW_MANAGER, es, 3).healthy
      && !AfterEvents(NEW_MANAGER, es + [Round(false)], 3).healthy
      && !AfterEvents(NEW_MANAGER, [Initialised, Closed], 3).healthy
  {
    var es := [Initialised];
    Appended([], Initialised);
    Appended(es, Closed);
    Appended(es, Round(false));
    Appended(es + [Round(false)], Round(false));
    Appended(es + [Round(false)] + [Round(false)], Round(false));
    Appended(es + [Round(false)] + [Round(false)] + [Round(false)], Initialised);
    Appended(es + [Round(false)] + [Round(false)] + [Round(false)] + [Initialised], Round(false));
    assert es + [Round(false)] + [Round(false)] + [Round(false)] + [Initialised]
      == [Initialised, Round(false), Round(false), Round(false), Initialised];
    assert es + [Closed] == [Initialised, Closed] && [] + [Initialised] == es;
  }

  lemma Appended(es: seq<HealthEvent>, e: HealthEvent)
    ensures AfterEvents(NEW_MANAGER, es + [e], 3) == AfterEvent(AfterEvents(NEW_MANAGER, es, 3), e, 3)
    ensures Rounds(es + [e]) == Rounds(es) + if e.Round? then [e.ok] else []
  {
    assert (es + [e])[..|es|] == es;
  }

  /** The replicas whose flag is set. */
  function Marked(replicas: seq<Pool>, flags: seq<bool>): (r: seq<Pool>)
    requires |replicas| == |flags|
    ensures forall p :: p in r <==> exists i :: 0 <= i < |replicas| && replicas[i] == p && flags[i]
  {
    if replicas == [] then []
    else
      var n := |replicas| - 1;
      var before := Marked(replicas[..n], flags[..n]);
      assert forall p :: p in before <==> exists i :: 0 <= i < n && replicas[i] == p && flags[i];
      if flags[n] then before + [replicas[n]] else before
  }

  /** The pool has the healthy replicas, each once and in their order: its k-th is the replica numbered ix[k]. */
  ghost predicate HealthyInOrder(pool: seq<Pool>, replicas: seq<Pool>, flags: seq<bool>, ix: seq<nat>)
    requires |replicas| == |flags|
  {
    && |ix| == |pool|
    && (forall k :: 0 <= k < |ix| ==> ix[k] < |replicas| && flags[ix[k]] && pool[k] == replicas[ix[k]])
    && (forall j, k :: 0 <= j < k < |ix| ==> ix[j] < ix[k])
    && (forall i :: 0 <= i < |replicas| && flags[i] ==> i in ix)
  }

  lemma {:induction false} MarkedInOrder(replicas: seq<Pool>, flags: seq<bool>) returns (ix: seq<nat>)
    requires |replicas| == |flags|
    ensures HealthyInOrder(Marked(replicas, flags), replicas, flags, ix)
  {
    hide HealthyInOrder;
    if replicas == [] {
      ix := [];
      NoneInOrder();
    } else {
      var n := |replicas| - 1;
      ix := MarkedInOrder(replicas[..n], flags[..n]);
      OneMoreInOrder(Marked(replicas[..n], flags[..n]), replicas, flags, ix);
      if flags[n] { ix := ix + [n]; }
    }
  }

  lemma NoneInOrder()
    ensures HealthyInOrder([], [], [], [])
  {
  }

  lemma OneMoreInOrder(pool: seq<Pool>, replicas: seq<Pool>, flags: seq<bool>, ix: seq<nat>)
    requires |replicas| == |flags| > 0
    requires var n := |replicas| - 1; HealthyInOrder(pool, replicas[..n], flags[..n], ix)
    ensures var n := |replicas| - 1;
      if flags[n] then HealthyInOrder(pool + [replicas[n]], replicas, flags, ix + [n])
      else HealthyInOrder(pool, replicas, flags, ix)
  {
    var n := |replicas| - 1;
    forall i | 0 <= i < n && flags[i] ensures i in ix { assert flags[..n][i]; }
  }

  class Manager {
    var master: Option<Pool>
    var replicas: seq<Pool>
    var replicaHealthy: array<bool>
    var replicaHealthSet: bool
    var healthy: bool
    var probeFailures: nat
    var open: set<Pool>      // every pool that has been opened and not closed
    var issued: nat

    /** The open pools are exactly the installed ones. */
    ghost predicate PoolsOk()
      reads this
    {
      && (forall p :: p in open <==> master == Some(p) || p in replicas)
      && (forall p :: p in open ==> p < issued)
      && (master.Some? ==> master.value !in replicas)
    }

    ghost predicate FlagsOk()
      reads this
    {
      replicaHealthSet ==> replicaHealthy.Length == |replicas|
    }

    ghost predicate Valid()
      reads this
    {
      PoolsOk() && FlagsOk()
    }

    constructor ()
      ensures Valid() && master == None && replicas == [] && !replicaHealthSet && open == {}
      ensures Health(healthy, probeFailures) == NEW_MANAGER
    {
      master, replicas, replicaHealthSet, healthy, probeFailures := None, [], false, false, 0;
      replicaHealthy := new bool[0];
      open, issued := {}, 0;
    }

    method Open() returns (p: Pool)
      modifies `open, `issued
      ensures p == old(issued) && issued == p + 1 && open == old(open) + {p}
    {
      p := issued;
      open, issued := open + {p}, issued + 1;
    }

    method CloseDb(p: Option<Pool>)
      modifies `open
      ensures open == old(open) - (if p.Some? then {p.value} else {})
    {
      if p.Some? { open := open - {p.value}; }
    }

    method CloseDbs(ps: seq<Pool>)
      modifies `open
      ensures forall p :: p in open <==> p in old(open) && p !in ps
    {
      for i := 0 to |ps|
        invariant forall p :: p in open <==> p in old(open) && p !in ps[..i]
      {
        CloseDb(Some(ps[i]));
        assert ps[..i + 1] == ps[..i] + [ps[i]];
      }
      assert ps[..|ps|] == ps;
    }

    /** Opens the master, with retries.  It succeeds exactly if an attempt connects; then that pool is
        the only new one and the old master's is closed; otherwise nothing changed. */
    method InitMaster(w: Weather) returns (ok: bool)
      requires Valid()
      modifies `master, `healthy, `open, `issued
      ensures Valid() && ok == Connected(w).Some? && issued >= old(issued)
      ensures ok ==> healthy && master.Some? && master.value !in old(open)
      ensures !ok ==> master == old(master) && healthy == old(healthy) && open == old(open)
      ensures ok ==> Health(healthy, probeFailures) == AfterEvent(old(Health(healthy, probeFailures)), Initialised, 0)
    {
      if w.cancelled || w.badTls { return false; }
      for i := 0 to MAX_RETRIES
        invariant Connects(w, 0) == Connects(w, i)
        invariant PoolsOk() && open == old(open) && master == old(master) && healthy == old(healthy)
        invariant issued >= old(issued)
      {
        if w.attempts(i) == Cancelled { return false; }
        if w.attempts(i).OpenFails? {
          if !w.attempts(i).transient { return false; }
        } else if w.attempts(i) == PingFails || w.attempts(i) == PingsOk {
          var db := Open();
          if w.attempts(i) == PingsOk {
            var previous := master;
            master, healthy := Some(db), true;
            CloseDb(previous);
            return true;
          }
          CloseDb(Some(db));
          assert open == old(open);
        }
        if i == MAX_RETRIES - 1 { return false; }
        if w.pauseCancelled(i) { return false; }
      }
      ok := false;
    }

    method ResetReplicaHealth()
      modifies `replicaHealthy, `replicaHealthSet
      ensures !replicaHealthSet && replicaHealthy.Length == 0 && fresh(replicaHealthy)
    {
      replicaHealthy := new bool[0];
      replicaHealthSet := false;
    }

    method EnsureReplicaHealth()
      modifies `replicaHealthy, `replicaHealthSet
      ensures replicaHealthSet && fresh(replicaHealthy) && replicaHealthy.Length == |replicas|
      ensures forall i :: 0 <= i < |replicas| ==> replicaHealthy[i]
    {
      replicaHealthy := new bool[|replicas|](_ => true);
      replicaHealthSet := true;
    }

    method InitReplicaHealth()
      requires Valid()
      modifies `replicaHealthy, `replicaHealthSet
      ensures Valid() && replicaHealthSet
      ensures old(replicaHealthSet) ==> replicaHealthy == old(replicaHealthy)
      ensures !old(replicaHealthSet) ==> forall i :: 0 <= i < |replicas| ==> replicaHealthy[i]
    {
      if !replicaHealthSet { EnsureReplicaHealth(); }
    }

    /** Opens the replicas one after the other into a list of their own.  A cancellation closes them all
        again. */
    method OpenReplicas(outcomes: seq<Attempt>) returns (ok: bool, built: seq<Pool>)
      requires PoolsOk()
      modifies `open, `issued
      ensures ok == (Cancelled !in outcomes)
      ensures built == if ok then Survivors(outcomes, old(issued)) else []
      ensures forall p :: p in open <==> p in old(open) || p in built
      ensures issued >= old(issued) && forall p :: p in built ==> old(issued) <= p < issued
    {
      ok, built := true, [];
      for i := 0 to |outcomes|
        invariant issued == old(issued) + i && Cancelled !in outcomes[..i]
        invariant built == Survivors(outcomes[..i], old(issued))
        invariant forall p :: p in built ==> old(issued) <= p < issued
        invariant forall p :: p in open <==> p in old(open) || p in built
      {
        if outcomes[i] == Cancelled {
          CloseDbs(built);
          return false, [];
        }
        var db := Open();
        if outcomes[i] == PingsOk {
          built := built + [db];
        } else {
          CloseDb(Some(db));
        }
        assert outcomes[..i + 1][..i] == outcomes[..i];
      }
      assert outcomes[..|outcomes|] == outcomes;
    }

    /** Master and replicas.  If the master cannot be reached nothing changed.  Otherwise the old
        replicas are closed; a cancellation leaves none, success those of the given ones that answer,
        each marked healthy. */
    method InitWithReplicas(w: Weather, outcomes: seq<Attempt>) returns (ok: bool, ghost first: Pool)
      requires Valid()
      modifies `master, `replicas, `replicaHealthy, `replicaHealthSet, `healthy, `open, `issued
      ensures Valid() && ok == (Connected(w).Some? && Cancelled !in outcomes)
      ensures Connected(w).None? ==> master == old(master) && replicas == old(replicas) && open == old(open)
      ensures Connected(w).None? ==> replicaHealthy == old(replicaHealthy) && replicaHealthSet == old(replicaHealthSet)
      ensures Connected(w).Some? && !ok ==> replicas == [] && !replicaHealthSet
      ensures Connected(w).Some? ==>
        Health(healthy, probeFailures) == AfterEvent(old(Health(healthy, probeFailures)), Initialised, 0)
      ensures Connected(w).None? ==> healthy == old(healthy) && probeFailures == old(probeFailures)
      ensures ok ==> old(issued) <= first && replicas == Survivors(outcomes, first)
      ensures ok ==> replicaHealthSet == (outcomes != [])
      ensures ok ==> forall i :: 0 <= i < replicaHealthy.Length ==> replicaHealthy[i]
    {
      first := 0;
      ok := InitMaster(w);
      if !ok { return; }
      var oldReplicas := replicas;
      replicas := [];
      ResetReplicaHealth();
      CloseDbs(oldReplicas);
      first := issued;
      if outcomes != [] {
        var built;
        ok, built := OpenReplicas(outcomes);
        if ok {
          replicas := built;
          EnsureReplicaHealth();
        }
      }
    }

    /** Afterwards nothing is open. */
    method Close()
      requires Valid()
      modifies `master, `replicas, `replicaHealthy, `replicaHealthSet, `healthy, `open
      ensures Valid() && open == {} && master == None && replicas == [] && !healthy && !replicaHealthSet
      ensures Health(healthy, probeFailures) == AfterEvent(old(Health(healthy, probeFailures)), Closed, 0)
    {
      var oldMaster, oldReplicas := master, replicas;
      master, replicas, healthy := None, [], false;
      ResetReplicaHealth();
      CloseDb(oldMaster);
      CloseDbs(oldReplicas);
    }

    /** One round of probing, undisturbed. */
    method ProbeOnce(masterPings: bool, pings: seq<bool>, threshold: nat)
      requires Valid() && |pings| == |replicas|
      modifies `healthy, `probeFailures, `replicaHealthy, `replicaHealthSet, replicaHealthy
      ensures Valid()
      ensures Health(healthy, probeFailures)
        == AfterEvent(old(Health(healthy, probeFailures)), Round(masterPings && master.Some?), threshold)
      ensures replicaHealthSet == (old(replicaHealthSet) || replicas != [])
      ensures replicaHealthSet ==> forall i :: 0 <= i < |replicas| ==> replicaHealthy[i] == pings[i]
    {
      if !(masterPings && master.Some?) {
        probeFailures := probeFailures + 1;
        if probeFailures >= threshold { healthy := false; }
      } else {
        probeFailures, healthy := 0, true;
      }
      if replicas != [] && !replicaHealthSet { EnsureReplicaHealth(); }
      if !replicaHealthSet { return; }
      for i := 0 to |replicas|
        invariant replicaHealthSet && replicaHealthy.Length == |replicas|
        invariant fresh(replicaHealthy) || replicaHealthy == old(replicaHealthy)
        invariant Health(healthy, probeFailures)
          == Probed(old(Health(healthy, probeFailures)), masterPings && master.Some?, threshold)
        invariant forall j :: 0 <= j < i ==> replicaHealthy[j] == pings[j]
      {
        if i < replicaHealthy.Length { replicaHealthy[i] := pings[i]; }
      }
    }

    /** Where a read goes: to the master if there is no replica; else to the picker's choice from a pool, or to
        the first of the pool if it has none.  The pool is the healthy replicas, if any is known to be healthy,
        and all replicas otherwise. */
    method Replica(pick: seq<Pool> -> Option<Pool>) returns (r: Option<Pool>, ghost pool: seq<Pool>, ghost ix: seq<nat>)
      requires Valid()
      ensures replicas == [] ==> r == master
      ensures replicas != [] ==> pool != []
      ensures replicas != [] ==> r == (match pick(pool) case Some(p) => Some(p) case None => Some(pool[0]))
      ensures if replicaHealthSet && exists i :: 0 <= i < |replicas| && replicaHealthy[i]
              then HealthyInOrder(pool, replicas, replicaHealthy[..], ix) else pool == replicas
    {
      pool, ix := replicas, [];
      if |replicas| == 0 { return master, pool, ix; }
      var choices := replicas;
      if replicaHealthSet {
        var marked: seq<Pool> := [];
        for i := 0 to |replicas|
          invariant marked == Marked(replicas[..i], replicaHealthy[..i])
        {
          if i < replicaHealthy.Length && replicaHealthy[i] { marked := marked + [replicas[i]]; }
          assert replicas[..i + 1][..i] == replicas[..i] && replicaHealthy[..i + 1][..i] == replicaHealthy[..i];
        }
        assert replicas[..|replicas|] == replicas && replicaHealthy[..|replicas|] == replicaHealthy[..];
        ix := MarkedInOrder(replicas, replicaHealthy[..]);
        assert forall i :: 0 <= i < |replicas| && replicaHealthy[i] ==> replicaHealthy[..][i];
        assert |marked| > 0 ==> replicaHealthy[ix[0]];
        if |marked| > 0 { choices := marked; }
      }
      var choice := pick(choices);
      return if choice.Some? then choice else Some(choices[0]), choices, ix;
    }
  }

  // ----- round robin

  function IndexOf(counter: nat, n: nat): nat
    requires n > 0
  {
    counter % n
  }

  /** The counter after k picks from n replicas. */
  function CounterAfter(counter: nat, n: nat, k: nat): nat
    requires n > 0
  {
    if k == 0 then counter else (IndexOf(CounterAfter(counter, n, k - 1), n) + 1) % n
  }

  lemma NextTurn(x: nat, n: nat)
    requires n > 0
    ensures (x % n + 1) % n == (x + 1) % n
  {
    var q, r := x / n, x % n;
    assert x == q * n + r;
    if r + 1 < n {
      DivModUnique(x + 1, q, r + 1, n);
      DivModUnique(r + 1, 0, r + 1, n);
    } else {
      assert (q + 1) * n == q * n + n;
      DivModUnique(x + 1, q + 1, 0, n);
      DivModUnique(r + 1, 1, 0, n);
    }
  }

  lemma SmallRemainder(r: nat, n: nat)
    requires r < n
    ensures r % n == r
  {
    DivModUnique(r, 0, r, n);
  }

  lemma {:induction false} CounterIs(counter: nat, n: nat, k: nat)
    requires n > 0
    ensures IndexOf(CounterAfter(counter, n, k), n) == (counter + k) % n
  {
    if k > 0 {
      CounterIs(counter, n, k - 1);
      hide IndexOf;
      NextTurn(counter + k - 1, n);
      CounterStep(counter, n, k);
    }
  }

  lemma CounterStep(counter: nat, n: nat, k: nat)
    requires n > 0 && k > 0
    ensures IndexOf(CounterAfter(counter, n, k), n) == (IndexOf(CounterAfter(counter, n, k - 1), n) + 1) % n
  {
    SmallRemainder((IndexOf(CounterAfter(counter, n, k - 1), n) + 1) % n, n);
  }

  /** Any n picks in a row from n replicas take each of them exactly once. */
  lemma EachOnce(counter: nat, n: nat, i: nat)
    requires i < n
    ensures exists k :: 0 <= k < n && IndexOf(CounterAfter(counter, n, k), n) == i
    ensures forall j: nat, m: nat ::
      j < m < n ==> IndexOf(CounterAfter(counter, n, j), n) != IndexOf(CounterAfter(counter, n, m), n)
  {
    hide IndexOf, CounterAfter;
    var c := counter % n;
    var k := if c <= i then i - c else i - c + n;
    CounterIs(counter, n, k);
    Turn(counter, n, k, i);
    forall j: nat, m: nat | j < m < n
      ensures IndexOf(CounterAfter(counter, n, j), n) != IndexOf(CounterAfter(counter, n, m), n)
    {
      CounterIs(counter, n, j);
      CounterIs(counter, n, m);
      Apart(counter + j, counter + m, n);
    }
  }

  lemma Turn(counter: nat, n: nat, k: nat, i: nat)
    requires i < n && k == (if counter % n <= i then i - counter % n else i - counter % n + n)
    ensures (counter + k) % n == i
  {
    var q, c := counter / n, counter % n;
    assert counter == q * n + c;
    if c <= i {
      DivModUnique(counter + k, q, i, n);
    } else {
      assert (q + 1) * n == q * n + n;
      DivModUnique(counter + k, q + 1, i, n);
    }
  }

  lemma Apart(a: nat, b: nat, n: nat)
    requires n > 0 && a < b < a + n
    ensures a % n != b % n
  {
    if a % n == b % n {
      var p, q := a / n, b / n;
      assert a == p * n + a % n && b == q * n + b % n;
      assert (q - p) * n == q * n - p * n;
      if q > p { AtLeastOnce(q - p, n); }
      assert (p - q) * n == p * n - q * n;
      if p > q { AtLeastOnce(p - q, n); }
    }
  }

  class RoundRobinPicker {
    var counter: nat

    method Pick(replicas: seq<Pool>) returns (r: Option<Pool>)
      modifies this
      ensures replicas == [] ==> r == None && counter == old(counter)
      ensures replicas != [] ==> r == Some(replicas[IndexOf(old(counter), |replicas|)])
      ensures replicas != [] ==> counter == CounterAfter(old(counter), |replicas|, 1)
    {
      if |replicas| == 0 { return None; }
      var idx := counter % |replicas|;
      counter := (idx + 1) % |replicas|;
      return Some(replicas[idx]);
    }
  }
}
