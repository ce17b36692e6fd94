/** Any number of applications in one process, each living by the contracts of AppResources: made,
    initialised once with success or without, shut down. */
module AppFleet {
  import opened AppResources

  datatype Status = Fresh | Running | Failed | Down

  datatype Record = Record(created: set<Manager>, status: Status)

  type AppId = nat

  datatype Fleet = Fleet(world: World, apps: map<AppId, Record>)

  datatype Event =
    | Made(app: AppId)
    | Failure(app: AppId)
    | Success(app: AppId)
    | Shutdown(app: AppId)

  /** What the event does to the process and to its app; the other apps do not notice. */
  ghost predicate Step(f: Fleet, e: Event, g: Fleet) {
    && e.app in g.apps && g.apps == f.apps[e.app := g.apps[e.app]]
    && match e
       case Made(a) =>
         && a !in f.apps && g.world == f.world.(issued := f.world.issued + 1)
         && g.apps[a] == Record({f.world.issued}, Fresh)
       case Failure(a) =>
         && a in f.apps && f.apps[a].status == Fresh && g.apps[a].status == Failed
         && InitFailed(f.world, g.world, f.apps[a].created, g.apps[a].created)
       case Success(a) =>
         && a in f.apps && f.apps[a].status == Fresh && g.apps[a].status == Running
         && InitSucceeded(f.world, g.world, f.apps[a].created, g.apps[a].created)
       case Shutdown(a) =>
         && a in f.apps && (f.apps[a].status == Fresh || f.apps[a].status == Running)
         && g.apps[a] == f.apps[a].(status := Down)
         && ShutDown(f.world, g.world, f.apps[a].created)
  }

  ghost predicate IsRun(run: seq<Fleet>, events: seq<Event>) {
    && |run| == |events| + 1 && Initial(run[0])
    && forall i :: 0 <= i < |events| ==> Step(run[i], events[i], run[i + 1])
  }

  ghost predicate Initial(f: Fleet) {
    Sane(f.world) && f.world.closed == {} && f.apps == map[] && forall k: Slot :: f.world.slots[k] < f.world.issued
  }

  predicate Owned(f: Fleet, a: AppId, m: Manager) { a in f.apps && m in f.apps[a].created }

  /** Every manager has one app, and has been numbered already. */
  ghost predicate OwnersOk(f: Fleet) {
    && (forall a: AppId, m: Manager :: Owned(f, a, m) ==> m < f.world.issued)
    && (forall a: AppId, b: AppId, m: Manager :: Owned(f, a, m) && Owned(f, b, m) ==> a == b)
  }

  predicate ClosedBy(f: Fleet, a: AppId) {
    a in f.apps && (f.apps[a].status == Failed || f.apps[a].status == Down)
  }

  /** Whatever is closed was closed by its own app. */
  ghost predicate ClosedOk(f: Fleet) {
    forall m :: m in f.world.closed ==> exists a: AppId :: Owned(f, a, m) && ClosedBy(f, a)
  }

  /** A default is never a manager of an app that has yet to initialise or that failed to. */
  ghost predicate SlotOk(f: Fleet, m: Manager) {
    m < f.world.issued && forall a: AppId :: Owned(f, a, m) ==> f.apps[a].status == Running || f.apps[a].status == Down
  }

  ghost predicate SlotsOk(f: Fleet) {
    forall k: Slot :: k in f.world.slots && SlotOk(f, f.world.slots[k])
  }

  ghost predicate Inv(f: Fleet) { OwnersOk(f) && ClosedOk(f) && SlotsOk(f) }

  /** New managers of one app belong to nobody else. */
  ghost predicate Grows(f: Fleet, g: Fleet, a: AppId) {
    && f.world.issued <= g.world.issued && a in g.apps && g.apps == f.apps[a := g.apps[a]]
    && (forall m: Manager :: Owned(f, a, m) ==> Owned(g, a, m))
    && (forall m: Manager :: Owned(g, a, m) && !Owned(f, a, m) ==> f.world.issued <= m < g.world.issued)
  }

  lemma StepGrows(f: Fleet, e: Event, g: Fleet)
    requires Step(f, e, g) && OwnersOk(f)
    ensures Grows(f, g, e.app)
  {
  }

  lemma OwnersKept(f: Fleet, g: Fleet, a: AppId)
    requires OwnersOk(f) && Grows(f, g, a)
    ensures OwnersOk(g)
    ensures forall b: AppId, m: Manager :: b != a ==> (Owned(f, b, m) <==> Owned(g, b, m))
  {
    forall b: AppId, m: Manager | b != a ensures Owned(f, b, m) <==> Owned(g, b, m) {
      assert b in f.apps <==> b in g.apps;
    }
    forall b: AppId, m: Manager | Owned(g, b, m) ensures m < g.world.issued {
      assert Owned(f, b, m) || b == a;
    }
    forall b: AppId, c: AppId, m: Manager | Owned(g, b, m) && Owned(g, c, m) ensures b == c {
      assert Owned(f, b, m) || b == a;
      assert Owned(f, c, m) || c == a;
    }
  }

  lemma ClosedKept(f: Fleet, e: Event, g: Fleet)
    requires Step(f, e, g) && OwnersOk(f) && ClosedOk(f) && Grows(f, g, e.app)
    ensures ClosedOk(g)
  {
    forall m | m in g.world.closed ensures exists a: AppId :: Owned(g, a, m) && ClosedBy(g, a) {
      if m in f.world.closed {
        var a :| Owned(f, a, m) && ClosedBy(f, a);
        assert Owned(g, a, m) && ClosedBy(g, a);
      } else {
        assert Owned(g, e.app, m) && ClosedBy(g, e.app);
      }
    }
  }

  /** A slot that keeps its manager, or gets one of the app that has just initialised. */
  lemma SlotKept(f: Fleet, e: Event, g: Fleet, before: Manager, now: Manager)
    requires Step(f, e, g) && OwnersOk(f) && Grows(f, g, e.app) && SlotOk(f, before)
    requires now == before || (e.Success? && now in g.apps[e.app].created)
    ensures SlotOk(g, now)
  {
    OwnersKept(f, g, e.app);
    assert now == before || Owned(g, e.app, now);
    forall a: AppId | Owned(g, a, now) ensures g.apps[a].status == Running || g.apps[a].status == Down {
      if a == e.app {
        assert Owned(f, a, now) || f.world.issued <= now;
      } else {
        assert Owned(f, a, now);
        assert now == before || Owned(g, e.app, now);
      }
    }
  }

  lemma SlotsKept(f: Fleet, e: Event, g: Fleet)
    requires Step(f, e, g) && OwnersOk(f) && Grows(f, g, e.app) && SlotsOk(f)
    ensures SlotsOk(g)
  {
    forall k: Slot ensures k in g.world.slots && SlotOk(g, g.world.slots[k]) {
      assert k in f.world.slots && SlotOk(f, f.world.slots[k]);
      assert k in g.world.slots
        && (g.world.slots[k] == f.world.slots[k] || (e.Success? && g.world.slots[k] in g.apps[e.app].created));
      hide SlotOk, OwnersOk, Grows, Step;
      SlotKept(f, e, g, f.world.slots[k], g.world.slots[k]);
    }
  }

  lemma StepKeeps(f: Fleet, e: Event, g: Fleet)
    requires Step(f, e, g) && Inv(f)
    ensures Inv(g)
  {
    StepGrows(f, e, g);
    hide Step, OwnersOk, ClosedOk, SlotsOk, Grows;
    OwnersKept(f, g, e.app);
    ClosedKept(f, e, g);
    SlotsKept(f, e, g);
  }

  lemma {:induction false} RunInv(run: seq<Fleet>, events: seq<Event>, i: nat)
    requires IsRun(run, events) && i < |run|
    ensures Inv(run[i])
  {
    hide Step;
    if i > 0 {
      hide Inv;
      RunInv(run, events, i - 1);
      StepKeeps(run[i - 1], events[i - 1], run[i]);
    }
  }

  /** However many other apps initialise, fail to and shut down: no manager of an app that runs, or has
      yet to initialise, is closed. */
  lemma LiveAppsStayOpen(run: seq<Fleet>, events: seq<Event>, i: nat, a: AppId)
    requires IsRun(run, events) && i < |run| && a in run[i].apps
    requires run[i].apps[a].status == Running || run[i].apps[a].status == Fresh
    ensures run[i].apps[a].created !! run[i].world.closed
  {
    hide Step;
    RunInv(run, events, i);
    var f := run[i];
    forall m | m in f.apps[a].created ensures m !in f.world.closed {
      assert Owned(f, a, m);
    }
  }

  /** A default that is closed belongs to an app that was shut down; a failed Init never leaves one. */
  lemma ClosedDefaultsWereShutDown(run: seq<Fleet>, events: seq<Event>, i: nat, k: Slot, m: Manager)
    requires IsRun(run, events) && i < |run| && m in run[i].world.closed
    requires k in run[i].world.slots && run[i].world.slots[k] == m
    ensures exists a: AppId :: Owned(run[i], a, m) && run[i].apps[a].status == Down
  {
    hide Step;
    RunInv(run, events, i);
    var f := run[i];
    var a: AppId :| Owned(f, a, m) && ClosedBy(f, a);
    assert SlotOk(f, f.world.slots[k]);
  }

  /** A failed Init can be followed by anything the other apps could have done without it: the defaults
      and the closed managers of others are those from before. */
  lemma FailureIsInvisible(run: seq<Fleet>, events: seq<Event>, i: nat, a: AppId)
    requires IsRun(run, events) && i < |events| && events[i] == Failure(a)
    ensures run[i + 1].world.slots == run[i].world.slots
    ensures forall b: AppId, m: Manager :: b != a && Owned(run[i], b, m) ==>
      (m in run[i + 1].world.closed <==> m in run[i].world.closed)
  {
    RunInv(run, events, i);
    RunInv(run, events, i + 1);
    var f, g := run[i], run[i + 1];
    forall b: AppId, m: Manager | b != a && Owned(f, b, m)
      ensures m in g.world.closed <==> m in f.world.closed
    {
      assert Owned(g, b, m);
      assert m in g.apps[a].created ==> Owned(g, a, m);
    }
  }
}
