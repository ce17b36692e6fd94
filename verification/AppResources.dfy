/** The seven process-wide defaults and the application that replaces them while it initialises, puts
    them back when that fails and closes its own managers when it shuts down.  Between any two of its
    accesses other applications may swap defaults and close managers of their own; what holds only if
    they keep quiet is stated under `quiet`. */
module AppResources {
  import opened Text

  type Manager = nat

  datatype Slot = Db | Redis | Storage | Cache | Scheduler | RateLimit | Logger

  /** A cache has nothing to close, and the closing of logs is left out. */
  predicate Closes(k: Slot) { k != Cache && k != Logger }

  type Slots = map<Slot, Manager>

  /** `installed` is history: every manager with something to close that has ever been a default. */
  datatype World = World(slots: Slots, closed: set<Manager>, issued: nat, installed: set<Manager>)

  predicate Sane(w: World) {
    && (forall k: Slot :: k in w.slots && (Closes(k) ==> w.slots[k] in w.installed))
    && (forall m :: m in w.closed ==> m < w.issued) && (forall m :: m in w.installed ==> m < w.issued)
  }

  /** What other apps may do to the process: anything but closing a manager of this app or making one a
      default that never was. */
  predicate Evolves(w: World, w': World, mine: set<Manager>) { EvolvesClosing(w, w', {}, mine) }

  /** This app has closed exactly these of its managers, and otherwise the process evolved. */
  predicate EvolvesClosing(w: World, w': World, closing: set<Manager>, mine: set<Manager>) {
    && Sane(w') && w.issued <= w'.issued && w.closed + closing <= w'.closed && w.installed <= w'.installed
    && (forall m :: m in w'.closed && m in mine ==> m in w.closed || m in closing)
    && (forall m :: m in w'.installed && m in mine ==> m in w.installed)
  }

  lemma ClosingMore(u: World, v: World, w: World, a: set<Manager>, b: set<Manager>, mine: set<Manager>)
    requires EvolvesClosing(u, v, a, mine) && EvolvesClosing(v, w, b, mine)
    ensures EvolvesClosing(u, w, a + b, mine)
  {
  }

  /** The process, whether the others have kept quiet, and what this app has closed. */
  datatype Snapshot = Snapshot(world: World, quiet: bool, closings: set<Manager>)

  /** This app has closed exactly these; and if the others kept quiet, nothing else has changed. */
  predicate ClosedExactly(x: Snapshot, y: Snapshot, closing: set<Manager>, mine: set<Manager>) {
    && EvolvesClosing(x.world, y.world, closing, mine) && y.closings == x.closings + closing
    && (y.quiet ==> x.quiet && y.world == x.world.(closed := x.world.closed + closing))
  }

  lemma ClosedMore(x: Snapshot, y: Snapshot, z: Snapshot, a: set<Manager>, b: set<Manager>, mine: set<Manager>)
    requires ClosedExactly(x, y, a, mine) && ClosedExactly(y, z, b, mine)
    ensures ClosedExactly(x, z, a + b, mine)
  {
    ClosingMore(x.world, y.world, z.world, a, b, mine);
    hide EvolvesClosing;
    assert x.closings + a + b == x.closings + (a + b);
    assert x.world.closed + a + b == x.world.closed + (a + b);
  }

  lemma NothingClosed(x: Snapshot, y: Snapshot, closing: set<Manager>, mine: set<Manager>)
    requires x == y && closing == {} && Sane(x.world)
    ensures ClosedExactly(x, y, closing, mine)
  {
    assert x.world.closed + {} == x.world.closed && x.closings + {} == x.closings;
  }

  /** New managers belong to whoever creates them. */
  ghost predicate Creates(w: World, w': World, had: set<Manager>, created: set<Manager>) {
    && w.issued <= w'.issued && had <= created && Sane(w')
    && forall m :: m in created && m !in had ==> w.issued <= m < w'.issued
  }

  /** A failed Init: every default is what it was, whatever this Init had made a default is closed, and
      nothing but managers of this app is. */
  ghost predicate InitFailed(w: World, w': World, had: set<Manager>, created: set<Manager>) {
    && Creates(w, w', had, created) && w'.slots == w.slots
    && (forall m :: m in w'.installed && m !in w.installed ==> m in w'.closed)
    && w.closed <= w'.closed <= w.closed + created
  }

  /** A successful one closes nothing and makes only its own managers defaults. */
  ghost predicate InitSucceeded(w: World, w': World, had: set<Manager>, created: set<Manager>) {
    && Creates(w, w', had, created) && w'.closed == w.closed
    && forall k: Slot :: k in w.slots && k in w'.slots && (w'.slots[k] == w.slots[k] || w'.slots[k] in created)
  }

  /** A shutdown leaves the defaults alone and closes managers of this app only. */
  ghost predicate ShutDown(w: World, w': World, created: set<Manager>) {
    w' == w.(closed := w'.closed) && w.closed <= w'.closed <= w.closed + created
  }

  /** This app has written a default. */
  datatype Put = Put(slot: Slot, manager: Manager)

  /** What the packages of the framework keep for the whole process; managers are numbered as they are
      created.  `others` is what other apps turn it into at each of their turns; `puts` and `closings`
      record what the calls of this app did. */
  class Process {
    var world: World
    var turn: nat
    const others: nat -> World
    ghost var quiet: bool
    ghost var puts: seq<Put>
    ghost var closings: set<Manager>

    constructor (w: World, o: nat -> World)
      requires Sane(w)
      ensures world == w && others == o && quiet && puts == [] && closings == {}
    {
      world, turn, others, quiet, puts, closings := w, 0, o, true, [], {};
    }

    ghost function Snap(): Snapshot
      reads this
    {
      Snapshot(world, quiet, closings)
    }

    /** A turn of the other apps, whatever they do. */
    method Others(mine: set<Manager>)
      modifies `world, `turn, `quiet
      ensures world == old(world) || Evolves(old(world), world, mine)
      ensures quiet ==> old(quiet) && world == old(world)
    {
      var w := others(turn);
      turn := turn + 1;
      if Evolves(world, w, mine) {
        quiet := quiet && w == world;
        world := w;
      }
    }

    method Create() returns (m: Manager)
      modifies `world
      ensures m == old(world).issued && world == old(world).(issued := m + 1)
    {
      m := world.issued;
      world := world.(issued := m + 1);
    }

    /** Closing twice is harmless. */
    method Close(m: Manager)
      modifies `world, `closings
      ensures world == old(world).(closed := old(world).closed + {m}) && closings == old(closings) + {m}
    {
      world := world.(closed := world.closed + {m});
      closings := closings + {m};
    }

    method Swap(k: Slot, m: Manager) returns (previous: Manager)
      requires k in world.slots
      modifies `world, `puts
      ensures previous == old(world).slots[k] && puts == old(puts) + [Put(k, m)] && world == Swapped(old(world), k, m)
    {
      previous := world.slots[k];
      world := world.(slots := world.slots[k := m],
                      installed := if Closes(k) then world.installed + {m} else world.installed);
      puts := puts + [Put(k, m)];
    }
  }

  function Swapped(w: World, k: Slot, m: Manager): World {
    w.(slots := w.slots[k := m], installed := if Closes(k) then w.installed + {m} else w.installed)
  }

  /** The app's fields for one of the seven: whether it is initialised, the app's manager, and the default
      it replaced. */
  datatype Component = Component(initialized: bool, manager: Option<Manager>, previous: Option<Manager>)

  const ABSENT := Component(false, None, None)

  type Parts = map<Slot, Component>

  datatype Options = Options(
    trace: bool, logger: bool, mysql: bool, redis: bool, storage: bool, migrate: bool, cron: bool)

  /** Is the component enabled?  The cache comes with redis, the rate limiters always. */
  predicate IsEnabled(o: Options, k: Slot) {
    match k
    case Db => o.mysql
    case Redis => o.redis
    case Storage => o.storage
    case Cache => o.redis
    case Scheduler => o.cron
    case RateLimit => true
    case Logger => o.logger
  }

  lemma EnabledFields(o: Options)
    ensures IsEnabled(o, Db) == o.mysql && IsEnabled(o, Redis) == o.redis && IsEnabled(o, Storage) == o.storage
    ensures IsEnabled(o, Cache) == o.redis && IsEnabled(o, Scheduler) == o.cron && IsEnabled(o, RateLimit)
    ensures IsEnabled(o, Logger) == o.logger
  {
  }

  /** Which of the steps that can fail does fail. */
  datatype Faults = Faults(
    config: bool, trace: bool, logger: bool, db: bool, redis: bool, storage: bool, migration: bool, hook: bool)

  function Of(c: Component): set<Manager> { if c.manager.Some? then {c.manager.value} else {} }

  /** The app has the seven, and their managers are its own. */
  predicate Owns(a: Parts, created: set<Manager>) {
    forall k: Slot :: k in a && Of(a[k]) <= created
  }

  /** Absent, or initialised with a manager and what it replaced, which had been a default. */
  predicate Shape(k: Slot, c: Component, installed: set<Manager>) {
    && (if k == RateLimit then c.manager.Some? && !c.initialized
        else c.manager.Some? == c.previous.Some? == c.initialized)
    && (c.previous.Some? && Closes(k) ==> c.previous.value in installed)
  }

  predicate Shaped(a: Parts, installed: set<Manager>) {
    forall k: Slot :: k in a && Shape(k, a[k], installed)
  }

  /** The slot is as it was, or holds this app's manager and the app knows what was there. */
  predicate Undoable(c: Component, now: Manager, base: Manager) {
    if c.previous.Some? then c.previous == Some(base) && c.manager == Some(now) else now == base
  }

  /** Everything replaced so far can be put back, and the defaults were `base` before. */
  predicate CanUndo(a: Parts, slots: Slots, base: Slots) {
    forall k: Slot :: k in a && k in slots && k in base && Undoable(a[k], slots[k], base[k])
  }

  /** This Init has made the manager a default. */
  predicate HasInstalled(a: Parts, m: Manager) {
    exists k: Slot :: k in a && Closes(k) && a[k].previous.Some? && a[k].manager == Some(m)
  }

  /** The app's managers have been numbered. */
  predicate Numbered(created: set<Manager>, w: World) { Sane(w) && forall m :: m in created ==> m < w.issued }

  /** Made and not initialised. */
  predicate Untouched(a: Parts, created: set<Manager>, w: World) {
    && Owns(a, created) && (forall k: Slot :: k in a && (k != RateLimit ==> a[k] == ABSENT))
    && !a[RateLimit].initialized && a[RateLimit].manager.Some? && a[RateLimit].previous.None?
    && Numbered(created, w) && created !! w.closed && created !! w.installed
  }

  /** While doInit runs, whatever others do: nothing of this app is closed, all it has is its own. */
  predicate Underway(a: Parts, created: set<Manager>, w: World, base: World, had: set<Manager>) {
    && Owns(a, created) && Shaped(a, w.installed) && Sane(base) && Numbered(created, w)
    && base.issued <= w.issued && had <= created && created !! w.closed
    && (forall m :: m in created ==> m in had || base.issued <= m)
    && (forall m :: m in created && m in w.installed ==> HasInstalled(a, m))
  }

  /** While doInit runs and the others keep quiet: nothing is closed at all, every replacement undoable. */
  predicate Alone(a: Parts, w: World, base: World) {
    && CanUndo(a, w.slots, base.slots) && w.closed == base.closed
    && (forall m :: m in w.installed ==> m in base.installed || HasInstalled(a, m))
  }

  lemma OthersKeep(a: Parts, created: set<Manager>, w: World, w': World, base: World, had: set<Manager>)
    requires Underway(a, created, w, base, had) && (w' == w || Evolves(w, w', created))
    ensures Underway(a, created, w', base, had)
  {
    hide HasInstalled, Sane;
  }

  lemma CreationKeeps(a: Parts, created: set<Manager>, w: World, base: World, had: set<Manager>)
    requires Underway(a, created, w, base, had)
    ensures w.issued !in w.installed
    ensures Underway(a, created + {w.issued}, w.(issued := w.issued + 1), base, had)
    ensures Alone(a, w, base) ==> Alone(a, w.(issued := w.issued + 1), base)
  {
    hide CanUndo, HasInstalled;
  }

  /** The component after the swap. */
  function Installed(c: Component, k: Slot, m: Manager, previous: Manager): Component {
    Component(k != RateLimit, Some(m), Some(previous))
  }

  /** What it has installed stays so, and now includes m. */
  lemma InstalledMore(a: Parts, k: Slot, m: Manager, previous: Manager, x: Manager)
    requires k in a && a[k].previous.None?
    ensures var b := a[k := Installed(a[k], k, m, previous)];
      HasInstalled(b, x) <==> HasInstalled(a, x) || (Closes(k) && x == m)
  {
    var b := a[k := Installed(a[k], k, m, previous)];
    if HasInstalled(a, x) {
      var l: Slot :| l in a && Closes(l) && a[l].previous.Some? && a[l].manager == Some(x);
      assert l in b && b[l] == a[l];
    }
    if Closes(k) && x == m { assert b[k].previous.Some?; }
  }

  lemma SwapKeeps(a: Parts, created: set<Manager>, w: World, base: World, had: set<Manager>, k: Slot, m: Manager)
    requires Underway(a, created, w, base, had) && k in a && a[k].previous.None? && m in created
    ensures k in w.slots && Underway(a[k := Installed(a[k], k, m, w.slots[k])], created, Swapped(w, k, m), base, had)
  {
    var b, w' := a[k := Installed(a[k], k, m, w.slots[k])], Swapped(w, k, m);
    assert Owns(b, created) && Shaped(b, w'.installed) && Numbered(created, w') by { hide HasInstalled; }
    hide Owns, Shaped, Numbered, HasInstalled, Installed;
    forall x | x in created && x in w'.installed ensures HasInstalled(b, x) {
      InstalledMore(a, k, m, w.slots[k], x);
    }
  }

  lemma SwapUndoable(a: Parts, w: World, base: World, k: Slot, m: Manager)
    requires Alone(a, w, base) && k in a && a[k].previous.None? && k in w.slots
    ensures Alone(a[k := Installed(a[k], k, m, w.slots[k])], Swapped(w, k, m), base)
  {
    var b, w' := a[k := Installed(a[k], k, m, w.slots[k])], Swapped(w, k, m);
    assert CanUndo(b, w'.slots, base.slots) by { hide HasInstalled; }
    hide CanUndo, HasInstalled, Installed;
    forall x | x in w'.installed ensures x in base.installed || HasInstalled(b, x) {
      InstalledMore(a, k, m, w.slots[k], x);
    }
  }

  // ----- rollback

  /** Putting back what a component replaced, and what the slot is then. */
  function PutBack(k: Slot, c: Component): seq<Put> { if c.previous.Some? then [Put(k, c.previous.value)] else [] }

  function Restored(c: Component, now: Manager): Manager { if c.previous.Some? then c.previous.value else now }

  /** What the rollback closes of a component; the scheduler has been stopped before. */
  function Discarded(k: Slot, c: Component): set<Manager> { if Closes(k) && k != Scheduler then Of(c) else {} }

  /** One component rolled back, by itself. */
  function Without(w: World, k: Slot, c: Component): World
    requires k in w.slots
  {
    w.(slots := w.slots[k := Restored(c, w.slots[k])], closed := w.closed + Discarded(k, c))
  }

  /** What an app has open. */
  function Open(a: Parts): set<Manager>
    requires forall k: Slot :: k in a
  {
    Of(a[Scheduler]) + Of(a[Db]) + Of(a[Redis]) + Of(a[Storage]) + Of(a[RateLimit])
  }

  lemma OpenIsOwn(a: Parts, created: set<Manager>)
    requires Owns(a, created)
    ensures Open(a) <= created
  {
    assert Of(a[Scheduler]) <= created && Of(a[Db]) <= created && Of(a[Redis]) <= created;
    assert Of(a[Storage]) <= created && Of(a[RateLimit]) <= created;
  }

  const NOTHING: Parts := map k: Slot | true :: ABSENT

  /** A component ready to be rolled back, the scheduler stopped. */
  predicate Rollable(k: Slot, c: Component, created: set<Manager>, w: World) {
    && Of(c) <= created && Numbered(created, w)
    && (if k == Scheduler then !c.initialized && Shape(k, Ready(c), w.installed) else Shape(k, c, w.installed))
  }

  predicate AllRollable(a: Parts, created: set<Manager>, w: World) {
    forall k: Slot :: k in a && Rollable(k, a[k], created, w)
  }

  lemma RollableLater(a: Parts, created: set<Manager>, w: World, w': World, closing: set<Manager>)
    requires AllRollable(a, created, w) && EvolvesClosing(w, w', closing, created)
    ensures AllRollable(a, created, w')
  {
  }

  function Ready(c: Component): Component { c.(initialized := c.manager.Some?) }

  /** The puts and the closings of a rollback, in its order. */
  const ROLLBACK_ORDER := [Db, Redis, Storage, Scheduler, Cache, RateLimit, Logger]

  function RollbackPuts(a: Parts, ks: seq<Slot>): seq<Put>
    requires forall k: Slot :: k in a
  {
    if ks == [] then [] else RollbackPuts(a, ks[..|ks| - 1]) + PutBack(ks[|ks| - 1], a[ks[|ks| - 1]])
  }

  function RollbackCloses(a: Parts, ks: seq<Slot>): set<Manager>
    requires forall k: Slot :: k in a
  {
    if ks == [] then {} else RollbackCloses(a, ks[..|ks| - 1]) + Discarded(ks[|ks| - 1], a[ks[|ks| - 1]])
  }

  /** The process after a rollback of these that nobody disturbs. */
  function WithoutAll(w: World, a: Parts, ks: seq<Slot>): World
    requires forall k: Slot :: k in a && k in w.slots
    ensures forall k: Slot :: k in WithoutAll(w, a, ks).slots
  {
    if ks == [] then w else Without(WithoutAll(w, a, ks[..|ks| - 1]), ks[|ks| - 1], a[ks[|ks| - 1]])
  }

  lemma {:induction false} WithoutAllIs(w: World, a: Parts, ks: seq<Slot>)
    requires forall k: Slot :: k in a && k in w.slots
    requires forall i, j :: 0 <= i < j < |ks| ==> ks[i] != ks[j]
    ensures var v := WithoutAll(w, a, ks);
      && v == w.(slots := v.slots, closed := w.closed + RollbackCloses(a, ks))
      && forall k: Slot :: v.slots[k] == if k in ks then Restored(a[k], w.slots[k]) else w.slots[k]
  {
    if ks != [] { WithoutAllIs(w, a, ks[..|ks| - 1]); }
  }

  /** Where a rollback is, after these components. */
  ghost predicate RolledTo(a: Parts, b: Parts, ks: seq<Slot>) {
    forall k: Slot :: k in a && k in b && b[k] == if k in ks then ABSENT else a[k]
  }

  lemma RollsOn(a: Parts, b: Parts, ks: seq<Slot>, k: Slot)
    requires RolledTo(a, b, ks)
    ensures RolledTo(a, b[k := ABSENT], ks + [k])
    ensures RollbackPuts(a, ks + [k]) == RollbackPuts(a, ks) + PutBack(k, a[k])
    ensures RollbackCloses(a, ks + [k]) == RollbackCloses(a, ks) + Discarded(k, a[k])
  {
    assert (ks + [k])[..|ks|] == ks;
  }

  lemma WithoutMore(w: World, a: Parts, ks: seq<Slot>, k: Slot)
    requires forall l: Slot :: l in a && l in w.slots
    ensures WithoutAll(w, a, ks + [k]) == Without(WithoutAll(w, a, ks), k, a[k])
  {
    assert (ks + [k])[..|ks|] == ks;
  }

  lemma AllInOrder(k: Slot)
    ensures k in ROLLBACK_ORDER
  {
    assert ROLLBACK_ORDER[0] == Db && ROLLBACK_ORDER[1] == Redis && ROLLBACK_ORDER[2] == Storage;
    assert ROLLBACK_ORDER[3] == Scheduler && ROLLBACK_ORDER[4] == Cache && ROLLBACK_ORDER[5] == RateLimit;
    assert ROLLBACK_ORDER[6] == Logger;
  }

  /** The app and the process when a rollback begins. */
  datatype Before = Before(a: Parts, w: World, puts: seq<Put>, closings: set<Manager>, quiet: bool)

  /** The place of a component in doInit. */
  function Turn(k: Slot): nat {
    match k
    case Logger => 0
    case Db => 1
    case Redis => 2
    case Storage => 3
    case Cache => 4
    case Scheduler => 5
    case RateLimit => 6
  }

  lemma IsNext(a: Parts, b: Parts, created: set<Manager>, w: World, n: nat)
    requires n < |ROLLBACK_ORDER| && RolledTo(a, b, ROLLBACK_ORDER[..n]) && AllRollable(a, created, w)
    ensures var k := ROLLBACK_ORDER[n];
      && ROLLBACK_ORDER[..n + 1] == ROLLBACK_ORDER[..n] + [k]
      && k in a && k in b && b[k] == a[k] && Rollable(k, b[k], created, w)
  {
    hide Rollable;
    assert ROLLBACK_ORDER[n] !in ROLLBACK_ORDER[..n];
  }

  function Committed(a: Parts): Parts { map k | k in a :: a[k].(previous := None) }

  /** What became a default of this app's managers is closed. */
  predicate OwnDefaultsClosed(created: set<Manager>, w: World) {
    forall m :: m in created && m in w.installed ==> m in w.closed
  }

  lemma UnderwayRolls(a: Parts, created: set<Manager>, w: World, base: World, had: set<Manager>)
    requires Underway(a, created, w, base, had)
    ensures Owns(a, created) && Numbered(created, w) && a[Scheduler].initialized == a[Scheduler].manager.Some?
    ensures (if a[Scheduler].initialized then Of(a[Scheduler]) else {}) == Of(a[Scheduler])
    ensures AllRollable(a[Scheduler := a[Scheduler].(initialized := false)], created, w)
  {
    assert Shape(Scheduler, a[Scheduler], w.installed);
    hide HasInstalled;
  }

  lemma {:induction false} SameRollback(a: Parts, b: Parts, ks: seq<Slot>)
    requires (forall k: Slot :: k in a) && b == a[Scheduler := a[Scheduler].(initialized := false)]
    ensures RollbackPuts(b, ks) == RollbackPuts(a, ks) && RollbackCloses(b, ks) == RollbackCloses(a, ks)
  {
    if ks != [] { SameRollback(a, b, ks[..|ks| - 1]); }
  }

  lemma {:induction false} ClosedByRollback(a: Parts, ks: seq<Slot>, m: Manager)
    requires forall k: Slot :: k in a
    ensures m in RollbackCloses(a, ks) <==> exists i :: 0 <= i < |ks| && m in Discarded(ks[i], a[ks[i]])
  {
    if ks != [] {
      var n := |ks| - 1;
      ClosedByRollback(a, ks[..n], m);
      assert m in RollbackCloses(a, ks) <==> m in RollbackCloses(a, ks[..n]) || m in Discarded(ks[n], a[ks[n]]);
      if m in RollbackCloses(a, ks[..n]) {
        var i :| 0 <= i < n && m in Discarded(ks[..n][i], a[ks[..n][i]]);
        assert m in Discarded(ks[i], a[ks[i]]);
      }
      if i :| 0 <= i < |ks| && m in Discarded(ks[i], a[ks[i]]) {
        assert i < n ==> ks[..n][i] == ks[i];
      }
    }
  }

  lemma {:induction false} PutByRollback(a: Parts, ks: seq<Slot>, k: Slot, m: Manager)
    requires forall k: Slot :: k in a
    ensures Put(k, m) in RollbackPuts(a, ks) <==> k in ks && a[k].previous == Some(m)
  {
    if ks != [] {
      PutByRollback(a, ks[..|ks| - 1], k, m);
      assert k in ks <==> k in ks[..|ks| - 1] || k == ks[|ks| - 1];
    }
  }

  /** The rollback puts back exactly what the app remembers to have replaced. */
  lemma PutsExactly(a: Parts, k: Slot, m: Manager)
    requires forall k: Slot :: k in a
    ensures Put(k, m) in RollbackPuts(a, ROLLBACK_ORDER) <==> a[k].previous == Some(m)
  {
    PutByRollback(a, ROLLBACK_ORDER, k, m);
    AllInOrder(k);
  }

  /** And it closes exactly the app's database, redis, storage and rate limiters. */
  lemma ClosesExactly(a: Parts, m: Manager)
    requires forall k: Slot :: k in a
    ensures m in RollbackCloses(a, ROLLBACK_ORDER) <==>
      (a[Db].manager == Some(m) || a[Redis].manager == Some(m) || a[Storage].manager == Some(m)
       || a[RateLimit].manager == Some(m))
  {
    ClosedByRollback(a, ROLLBACK_ORDER, m);
    assert ROLLBACK_ORDER[0] == Db && ROLLBACK_ORDER[1] == Redis && ROLLBACK_ORDER[2] == Storage;
    assert ROLLBACK_ORDER[5] == RateLimit;
    hide RollbackCloses;
  }

  /** The stop of the scheduler and the rollback together close what is open. */
  lemma ClosesOpen(a: Parts)
    requires forall k: Slot :: k in a
    ensures Of(a[Scheduler]) + RollbackCloses(a, ROLLBACK_ORDER) == Open(a)
  {
    forall m ensures m in RollbackCloses(a, ROLLBACK_ORDER) <==>
      m in Of(a[Db]) || m in Of(a[Redis]) || m in Of(a[Storage]) || m in Of(a[RateLimit])
    {
      ClosesExactly(a, m);
      hide RollbackCloses;
    }
    hide RollbackCloses, Of;
  }

  /** What an app has open, by its parts. */
  lemma OpenExactly(a: Parts, m: Manager)
    requires forall k: Slot :: k in a
    ensures m in Open(a) <==>
      (a[Db].manager == Some(m) || a[Redis].manager == Some(m) || a[Storage].manager == Some(m)
       || a[Scheduler].manager == Some(m) || a[RateLimit].manager == Some(m))
  {
  }

  /** What the rollback after the stop of the scheduler comes to. */
  lemma StoppedFirst(a: Parts, b: Parts, w: World, closings: set<Manager>)
    requires (forall k: Slot :: k in a && k in w.slots) && b == a[Scheduler := a[Scheduler].(initialized := false)]
    ensures RollbackPuts(b, ROLLBACK_ORDER) == RollbackPuts(a, ROLLBACK_ORDER)
    ensures closings + Of(a[Scheduler]) + RollbackCloses(b, ROLLBACK_ORDER) == closings + Open(a)
    ensures Of(a[Scheduler]) + RollbackCloses(b, ROLLBACK_ORDER) == Open(a)
    ensures WithoutAll(w.(closed := w.closed + Of(a[Scheduler])), b, ROLLBACK_ORDER) == AllBack(w, a)
  {
    SameRollback(a, b, ROLLBACK_ORDER);
    ClosesOpen(a);
    var v := w.(closed := w.closed + Of(a[Scheduler]));
    hide Of, Open, RollbackCloses, RollbackPuts, WithoutAll;
    assert closings + Of(a[Scheduler]) + RollbackCloses(b, ROLLBACK_ORDER)
      == closings + (Of(a[Scheduler]) + RollbackCloses(b, ROLLBACK_ORDER));
    assert w.closed + Of(a[Scheduler]) + RollbackCloses(b, ROLLBACK_ORDER)
      == w.closed + (Of(a[Scheduler]) + RollbackCloses(b, ROLLBACK_ORDER));
    WithoutAllIs(v, b, ROLLBACK_ORDER);
    SlotsBack(a, b, w.slots, WithoutAll(v, b, ROLLBACK_ORDER).slots);
  }

  lemma SlotsBack(a: Parts, b: Parts, before: Slots, after: Slots)
    requires (forall k: Slot :: k in a && k in before && k in after)
    requires b == a[Scheduler := a[Scheduler].(initialized := false)]
    requires forall k: Slot :: after[k] == if k in ROLLBACK_ORDER then Restored(b[k], before[k]) else before[k]
    ensures after == map k: Slot | true :: Restored(a[k], before[k])
  {
    forall k: Slot ensures after[k] == Restored(a[k], before[k]) { AllInOrder(k); }
  }

  /** Every default put back and everything open closed. */
  function AllBack(w: World, a: Parts): World
    requires forall k: Slot :: k in a && k in w.slots
  {
    w.(slots := map k: Slot | true :: Restored(a[k], w.slots[k]), closed := w.closed + Open(a))
  }

  /** What a failed Init comes to: its managers closed, and nothing of anybody else's. */
  lemma FailureCloses(a: Parts, created: set<Manager>, w: World, w': World, base: World, had: set<Manager>)
    requires Underway(a, created, w, base, had) && EvolvesClosing(w, w', Open(a), created)
    ensures OwnDefaultsClosed(created, w') && Numbered(created, w') && Open(a) <= created
  {
    OpenIsOwn(a, created);
  }

  lemma FailureAlone(a: Parts, created: set<Manager>, w: World, w': World, base: World, had: set<Manager>)
    requires Underway(a, created, w, base, had) && Alone(a, w, base) && w' == AllBack(w, a)
    ensures InitFailed(base, w', had, created)
  {
    hide Open, CanUndo, Owns, Shaped, HasInstalled, Sane;
    OpenIsOwn(a, created);
    HasAll(a, created);
    UndoneIsBase(a, w.slots, base.slots);
    BackIsSane(a, created, w);
    forall m | m in w.installed && m !in base.installed ensures m in Open(a) { InstalledIsOpen(a, m); }
  }

  lemma BackIsSane(a: Parts, created: set<Manager>, w: World)
    requires Owns(a, created) && Shaped(a, w.installed) && Numbered(created, w)
    ensures Sane(AllBack(w, a))
  {
    OpenIsOwn(a, created);
    hide Open;
    forall k: Slot ensures Closes(k) ==> Restored(a[k], w.slots[k]) in w.installed {
      assert Shape(k, a[k], w.installed);
    }
  }

  lemma UndoneIsBase(a: Parts, now: Slots, base: Slots)
    requires CanUndo(a, now, base)
    ensures (map k: Slot | true :: Restored(a[k], now[k])) == base
  {
    forall k: Slot ensures k in base && Restored(a[k], now[k]) == base[k] {
      assert Undoable(a[k], now[k], base[k]);
    }
  }

  lemma InstalledIsOpen(a: Parts, m: Manager)
    requires (forall k: Slot :: k in a) && HasInstalled(a, m)
    ensures m in Open(a)
  {
  }

  lemma UntouchedBegins(a: Parts, created: set<Manager>, w: World)
    requires Untouched(a, created, w)
    ensures Underway(a, created, w, w, created) && Alone(a, w, w)
  {
  }

  /** Nothing half done: what is initialised has its manager, all managers are the app's own. */
  predicate Settled(a: Parts, created: set<Manager>) {
    Owns(a, created) && StoresSettled(a) && a[Scheduler].initialized == a[Scheduler].manager.Some?
  }

  predicate StoresSettled(a: Parts)
    requires forall k: Slot :: k in a
  {
    && a[Db].initialized == a[Db].manager.Some? && a[Redis].initialized == a[Redis].manager.Some?
    && a[Storage].initialized == a[Storage].manager.Some?
  }

  function StoresOf(a: Parts): set<Manager>
    requires forall k: Slot :: k in a
  {
    Of(a[Db]) + Of(a[Redis]) + Of(a[Storage])
  }

  /** What closing a component closes: the app's manager or, should it have lost it, the default. */
  function ToClose(k: Slot, c: Component, now: Manager): set<Manager> {
    if !c.initialized then {} else if c.manager.Some? then {c.manager.value} else if k != Storage then {now} else {}
  }

  /** If the others kept quiet, exactly this component is closed, with the default in the place of a manager
      that is missing. */
  predicate ClosesQuietly(x: Snapshot, y: Snapshot, k: Slot, c: Component) {
    y.quiet ==>
      && x.quiet && k in x.world.slots
      && y.world == x.world.(closed := x.world.closed + ToClose(k, c, x.world.slots[k]))
  }

  predicate StoresCloseQuietly(x: Snapshot, y: Snapshot, a: Parts)
    requires forall k: Slot :: k in a
  {
    y.quiet ==>
      && x.quiet && Db in x.world.slots && Redis in x.world.slots && Storage in x.world.slots
      && var now := x.world.slots;
         y.world == x.world.(closed := x.world.closed + ToClose(Db, a[Db], now[Db])
           + ToClose(Redis, a[Redis], now[Redis]) + ToClose(Storage, a[Storage], now[Storage]))
  }

  lemma StoresInTurn(x: Snapshot, y: Snapshot, z: Snapshot, end: Snapshot, a: Parts)
    requires forall k: Slot :: k in a
    requires ClosesQuietly(x, y, Db, a[Db]) && ClosesQuietly(y, z, Redis, a[Redis])
    requires ClosesQuietly(z, end, Storage, a[Storage])
    ensures StoresCloseQuietly(x, end, a)
  {
    hide ToClose;
  }

  function ClosedComponent(c: Component): Component {
    if c.initialized then c.(initialized := false, manager := None) else c
  }

  function StoresClosed(a: Parts): Parts
    requires forall k: Slot :: k in a
  {
    a[Db := ClosedComponent(a[Db])][Redis := ClosedComponent(a[Redis])][Storage := ClosedComponent(a[Storage])]
      [Logger := ClosedComponent(a[Logger])]
  }

  /** Stopping the scheduler leaves the rest alone. */
  lemma StoppedStores(a: Parts, b: Parts, created: set<Manager>)
    requires Settled(a, created) && b == a[Scheduler := a[Scheduler].(initialized := false)]
    ensures Owns(b, created) && StoresSettled(b) && StoresOf(b) == StoresOf(a)
    ensures b[RateLimit] == a[RateLimit]
    ensures (if a[Scheduler].initialized then Of(a[Scheduler]) else {}) == Of(a[Scheduler])
  {
  }

  lemma InShutdownOrder(a: Parts)
    requires forall k: Slot :: k in a
    ensures Of(a[Scheduler]) + Of(a[RateLimit]) + StoresOf(a) == Open(a)
  {
  }

  lemma IsShutDown(x: Snapshot, y: Snapshot, closing: set<Manager>, created: set<Manager>)
    requires ClosedExactly(x, y, closing, created) && closing <= created
    ensures y.quiet ==> x.quiet && ShutDown(x.world, y.world, created)
  {
  }

  lemma HasAll(a: Parts, created: set<Manager>)
    requires Owns(a, created)
    ensures forall k: Slot :: k in a
  {
  }

  lemma NumberedLater(created: set<Manager>, x: Snapshot, y: Snapshot, closing: set<Manager>)
    requires Numbered(created, x.world) && ClosedExactly(x, y, closing, created)
    ensures Numbered(created, y.world)
  {
  }

  lemma SuccessSettles(a: Parts, created: set<Manager>, w: World, base: World, had: set<Manager>)
    requires Underway(a, created, w, base, had)
    ensures Settled(Committed(a), created) && Numbered(created, w) && created !! w.closed
  {
    assert Shape(Db, a[Db], w.installed) && Shape(Redis, a[Redis], w.installed);
    assert Shape(Storage, a[Storage], w.installed) && Shape(Scheduler, a[Scheduler], w.installed);
    hide HasInstalled;
  }

  /** Where a component is on, the default is the app's manager; else it is what it was. */
  predicate DefaultIs(on: bool, c: Component, before: Manager, now: Manager) {
    if on then c.manager == Some(now) else now == before
  }

  /** The defaults of the enabled components are the app's managers, the others what they were. */
  predicate DefaultsAre(a: Parts, o: Options, before: Slots, now: Slots) {
    && (forall k: Slot :: k in before && k in now && k in a)
    && DefaultIs(o.mysql, a[Db], before[Db], now[Db]) && DefaultIs(o.redis, a[Redis], before[Redis], now[Redis])
    && DefaultIs(o.storage, a[Storage], before[Storage], now[Storage])
    && DefaultIs(o.redis, a[Cache], before[Cache], now[Cache])
    && DefaultIs(o.cron, a[Scheduler], before[Scheduler], now[Scheduler])
    && DefaultIs(true, a[RateLimit], before[RateLimit], now[RateLimit])
    && DefaultIs(o.logger, a[Logger], before[Logger], now[Logger])
  }

  /** Exactly the enabled components are up; the registry of rate limiters has no flag of its own. */
  predicate UpAre(a: Parts, o: Options) {
    && (forall k: Slot :: k in a)
    && a[Db].initialized == o.mysql && a[Redis].initialized == o.redis && a[Storage].initialized == o.storage
    && a[Cache].initialized == o.redis && a[Scheduler].initialized == o.cron && a[Logger].initialized == o.logger
    && !a[RateLimit].initialized
  }

  lemma UpByField(a: Parts, o: Options)
    requires forall k: Slot :: k in a
    ensures UpAre(a, o) <==> forall k: Slot :: a[k].initialized == (k != RateLimit && IsEnabled(o, k))
    ensures UpAre(a, o) ==> UpAre(Committed(a), o)
  {
    EnabledFields(o);
  }

  lemma SuccessAlone(a: Parts, o: Options, created: set<Manager>, w: World, base: World, had: set<Manager>)
    requires Underway(a, created, w, base, had) && Alone(a, w, base)
    requires (forall k: Slot :: k in a) && a[RateLimit].previous.Some? && UpAre(a, o)
    ensures InitSucceeded(base, w, had, created) && DefaultsAre(Committed(a), o, base.slots, w.slots)
  {
    hide HasInstalled;
    forall k: Slot
      ensures DefaultIs(a[k].initialized || k == RateLimit, a[k], base.slots[k], w.slots[k])
      ensures w.slots[k] == base.slots[k] || w.slots[k] in created
    {
      assert Shape(k, a[k], w.installed) && Undoable(a[k], w.slots[k], base.slots[k]) && Of(a[k]) <= created;
    }
    CommittedDefaults(a, base.slots, w.slots);
  }

  lemma CommittedDefaults(a: Parts, before: Slots, now: Slots)
    requires forall k: Slot :: k in a && k in before && k in now
    ensures forall k: Slot, on: bool ::
      DefaultIs(on, Committed(a)[k], before[k], now[k]) == DefaultIs(on, a[k], before[k], now[k])
  {
  }

  lemma NothingIsSettled(created: set<Manager>)
    ensures Settled(NOTHING, created)
  {
  }

  class App {
    var parts: Parts
    const options: Options
    var created: set<Manager>

    /** A new app has nothing but its registry of rate limiters. */
    constructor (p: Process, o: Options)
      requires Sane(p.world)
      modifies p`world
      ensures Untouched(parts, created, p.world) && options == o && created == {old(p.world).issued}
      ensures parts == NOTHING[RateLimit := Component(false, Some(old(p.world).issued), None)]
      ensures p.world == old(p.world).(issued := old(p.world).issued + 1)
    {
      var m := p.Create();
      parts := NOTHING[RateLimit := Component(false, Some(m), None)];
      created := {m};
      options := o;
    }

    /** doInit is under way: what holds whatever the others do, and what holds while they keep quiet. */
    ghost predicate Initing(p: Process, base: World, had: set<Manager>)
      reads this, p
    {
      Underway(parts, created, p.world, base, had) && (p.quiet ==> Alone(parts, p.world, base))
    }

    /** The others get their turn. */
    method Yield(p: Process, ghost base: World, ghost had: set<Manager>)
      requires Initing(p, base, had)
      modifies p`world, p`turn, p`quiet
      ensures Initing(p, base, had) && (p.world == old(p.world) || Evolves(old(p.world), p.world, created))
    {
      hide Underway, Alone, Evolves;
      p.Others(created);
      OthersKeep(parts, created, old(p.world), p.world, base, had);
    }

    method CreateManager(p: Process, ghost base: World, ghost had: set<Manager>) returns (m: Manager)
      requires Initing(p, base, had)
      modifies p`world, p`turn, p`quiet, `created
      ensures Initing(p, base, had) && created == old(created) + {m}
    {
      hide Underway, Alone;
      Yield(p, base, had);
      CreationKeeps(parts, created, p.world, base, had);
      m := p.Create();
      created := created + {m};
      Yield(p, base, had);
    }

    /** A new manager comes up and becomes the default, if its component is enabled and does not fail; the
        registry of rate limiters exists already. */
    method Install(p: Process, k: Slot, fails: bool, ghost base: World, ghost had: set<Manager>) returns (ok: bool)
      requires Initing(p, base, had) && k in parts && k != RateLimit && parts[k] == ABSENT
      modifies p`world, p`turn, p`quiet, p`puts, `parts, `created
      ensures Initing(p, base, had) && k in parts && parts == old(parts)[k := parts[k]]
      ensures ok == !(IsEnabled(options, k) && fails) && parts[k].initialized == (IsEnabled(options, k) && ok)
      ensures parts[k].initialized ==>
        parts[k].manager.Some? && p.puts == old(p.puts) + [Put(k, parts[k].manager.value)]
      ensures !parts[k].initialized ==> parts[k] == ABSENT && p.puts == old(p.puts)
    {
      hide Underway, Alone;
      ok := true;
      if IsEnabled(options, k) {
        var m := CreateManager(p, base, had);
        if fails { return false; }
        SwapKeeps(parts, created, p.world, base, had, k, m);
        if p.quiet { SwapUndoable(parts, p.world, base, k, m); }
        var previous := p.Swap(k, m);
        parts := parts[k := Component(true, Some(m), Some(previous))];
      }
    }

    /** The registry exists since the app was made; it now becomes the default. */
    method InstallRateLimit(p: Process, ghost base: World, ghost had: set<Manager>)
      requires Initing(p, base, had) && RateLimit in parts && parts[RateLimit].previous.None?
      modifies p`world, p`turn, p`quiet, p`puts, `parts
      ensures Initing(p, base, had) && RateLimit in parts && parts == old(parts)[RateLimit := parts[RateLimit]]
      ensures parts[RateLimit].manager.Some? && parts[RateLimit].manager == old(parts)[RateLimit].manager
      ensures parts[RateLimit].previous.Some? && parts[RateLimit].initialized == old(parts)[RateLimit].initialized
      ensures p.puts == old(p.puts) + [Put(RateLimit, parts[RateLimit].manager.value)]
    {
      Yield(p, base, had);
      var m := parts[RateLimit].manager.value;
      assert m in created;
      hide Underway, Alone;
      SwapKeeps(parts, created, p.world, base, had, RateLimit, m);
      if p.quiet { SwapUndoable(parts, p.world, base, RateLimit, m); }
      var previous := p.Swap(RateLimit, m);
      parts := parts[RateLimit := parts[RateLimit].(previous := Some(previous))];
    }

    /** The first n components have had their turn; the others are as they were. */
    ghost predicate UpTo(before: Parts, n: nat)
      reads this
    {
      && (forall k: Slot :: k in before && k in parts && (k != RateLimit ==> before[k] == ABSENT))
      && (forall k: Slot ::
            if Turn(k) < n then parts[k].initialized == IsEnabled(options, k) else parts[k] == before[k])
    }

    method InstallNext(p: Process, k: Slot, fails: bool, ghost base: World, ghost had: set<Manager>,
                       ghost before: Parts, ghost n: nat) returns (ok: bool)
      requires Initing(p, base, had) && UpTo(before, n) && n == Turn(k) && k != RateLimit
      modifies p`world, p`turn, p`quiet, p`puts, `parts, `created
      ensures Initing(p, base, had) && ok == !(IsEnabled(options, k) && fails)
      ensures ok ==> UpTo(before, n + 1)
    {
      hide Initing, IsEnabled;
      ok := Install(p, k, fails, base, had);
    }

    /** Exactly the enabled components are up, and the registry is the default. */
    ghost predicate AllUp(before: Parts)
      reads this
    {
      && (forall k: Slot :: k in before && k in parts)
      && (forall k: Slot :: parts[k].initialized == (k != RateLimit && IsEnabled(options, k)))
      && parts[RateLimit].previous.Some? && parts[RateLimit].manager == before[RateLimit].manager
    }

    /** The scheduler and the rate limiters. */
    method FinishInit(p: Process, ghost base: World, ghost had: set<Manager>, ghost before: Parts)
      requires Initing(p, base, had) && UpTo(before, 5)
      requires !before[RateLimit].initialized && before[RateLimit].previous.None?
      modifies p`world, p`turn, p`quiet, p`puts, `parts, `created
      ensures Initing(p, base, had) && AllUp(before)
    {
      hide Initing, IsEnabled;
      var _ := InstallNext(p, Scheduler, false, base, had, before, 5);
      InstallRateLimit(p, base, had);
    }

    /** Those that can fail to come up, in the order of doInit. */
    method InstallStores(p: Process, f: Faults, ghost base: World, ghost had: set<Manager>, ghost before: Parts)
      returns (ok: bool)
      requires Initing(p, base, had) && UpTo(before, 0)
      modifies p`world, p`turn, p`quiet, p`puts, `parts, `created
      ensures Initing(p, base, had) && (ok ==> UpTo(before, 4))
      ensures ok <==> (!(options.logger && f.logger) && !(options.mysql && f.db) && !(options.redis && f.redis)
        && !(options.storage && f.storage))
    {
      hide Initing, IsEnabled, UpTo;
      EnabledFields(options);
      ok := InstallNext(p, Logger, f.logger, base, had, before, 0);
      if !ok { return; }
      ok := InstallNext(p, Db, f.db, base, had, before, 1);
      if !ok { return; }
      ok := InstallNext(p, Redis, f.redis, base, had, before, 2);
      if !ok { return; }
      ok := InstallNext(p, Storage, f.storage, base, had, before, 3);
    }

    /** doInit in its order of steps; the routes and middlewares it sets up are left out. */
    method DoInit(p: Process, f: Faults, ghost base: World, ghost had: set<Manager>) returns (ok: bool)
      requires Initing(p, base, had) && Untouched(parts, created, p.world)
      modifies p`world, p`turn, p`quiet, p`puts, `parts, `created
      ensures Initing(p, base, had)
      ensures ok <==> (!f.config && !(options.trace && f.trace) && !(options.logger && f.logger)
        && !(options.mysql && f.db) && !(options.redis && f.redis) && !(options.storage && f.storage)
        && !(options.migrate && (!options.mysql || f.migration)) && !f.hook)
      ensures ok ==> AllUp(old(parts))
      ensures ok ==> UpAre(parts, options)
    {
      hide Initing, IsEnabled, UpTo, Untouched, AllUp;
      ghost var a := parts;
      NothingUp(p.world);
      if f.config { return false; }
      if options.trace && f.trace { return false; }
      ok := InstallStores(p, f, base, had, a);
      if !ok { return; }
      ok := InstallNext(p, Cache, false, base, had, a, 4);
      if options.migrate && (!options.mysql || f.migration) { return false; }
      FinishInit(p, base, had, a);
      AllUpByField(a);
      return !f.hook;
    }

    lemma AllUpByField(before: Parts)
      requires AllUp(before)
      ensures UpAre(parts, options)
    {
      UpByField(parts, options);
    }

    lemma NothingUp(w: World)
      requires Untouched(parts, created, w)
      ensures UpTo(parts, 0) && !parts[RateLimit].initialized && parts[RateLimit].previous.None?
    {
    }

    /** A successful Init forgets what it replaced; it is not the app's to close. */
    method CommitReplacedResources()
      modifies `parts
      ensures parts == Committed(old(parts))
    {
      parts := map k | k in parts :: parts[k].(previous := None);
    }

    /** Closes a manager of this app, after the others had a turn. */
    method CloseOwn(p: Process, m: Manager)
      requires m in created && Numbered(created, p.world)
      modifies p`world, p`turn, p`quiet, p`closings
      ensures ClosedExactly(old(p.Snap()), p.Snap(), {m}, created)
    {
      p.Others(created);
      p.Close(m);
    }

    /** Stops the app's scheduler once; it stays known to the rollback. */
    method StopCron(p: Process)
      requires Owns(parts, created) && Numbered(created, p.world)
      modifies p`world, p`turn, p`quiet, p`closings, `parts
      ensures parts == old(parts)[Scheduler := old(parts)[Scheduler].(initialized := false)]
      ensures var c := old(parts)[Scheduler];
        ClosedExactly(old(p.Snap()), p.Snap(), if c.initialized then Of(c) else {}, created)
    {
      hide ClosedExactly;
      if parts[Scheduler].initialized {
        var c := parts[Scheduler];
        parts := parts[Scheduler := c.(initialized := false)];
        if c.manager.Some? { CloseOwn(p, c.manager.value); } else { NothingClosed(p.Snap(), p.Snap(), {}, created); }
      } else {
        NothingClosed(p.Snap(), p.Snap(), {}, created);
        assert parts == parts[Scheduler := parts[Scheduler].(initialized := false)];
      }
    }

    /** One component of the rollback: the limiters are stopped before the old default is put back, the others
        closed after it. */
    method Rollback(p: Process, k: Slot)
      requires k in parts && Rollable(k, parts[k], created, p.world)
      modifies p`world, p`turn, p`quiet, p`puts, p`closings, `parts
      ensures parts == old(parts)[k := ABSENT]
      ensures p.puts == old(p.puts) + PutBack(k, old(parts)[k])
      ensures p.closings == old(p.closings) + Discarded(k, old(parts)[k])
      ensures EvolvesClosing(old(p.world), p.world, Discarded(k, old(parts)[k]), created)
      ensures p.quiet ==> old(p.quiet) && k in old(p.world).slots && p.world == Without(old(p.world), k, old(parts)[k])
    {
      var c := parts[k];
      hide Evolves;
      if k == RateLimit {
        if c.manager.Some? { CloseOwn(p, c.manager.value); }
      }
      PutItBack(p, k, c);
      if Closes(k) && k != Scheduler && k != RateLimit && c.manager.Some? { CloseOwn(p, c.manager.value); }
      parts := parts[k := ABSENT];
    }

    method PutItBack(p: Process, k: Slot, c: Component)
      requires Numbered(created, p.world) && (c.previous.Some? && Closes(k) ==> c.previous.value in p.world.installed)
      modifies p`world, p`turn, p`quiet, p`puts
      ensures p.puts == old(p.puts) + PutBack(k, c) && EvolvesClosing(old(p.world), p.world, {}, created)
      ensures Numbered(created, p.world) && k in old(p.world).slots
      ensures p.quiet ==>
        (old(p.quiet) && p.world == old(p.world).(slots := old(p.world).slots[k := Restored(c, old(p.world).slots[k])]))
    {
      p.Others(created);
      if c.previous.Some? { var _ := p.Swap(k, c.previous.value); }
    }

    /** The rollback that began so has come this far. */
    ghost predicate Came(p: Process, from: Before, n: nat)
      reads this, p
    {
      && n <= |ROLLBACK_ORDER| && Sane(from.w) && (forall k: Slot :: k in from.a)
      && var ks := ROLLBACK_ORDER[..n];
         && RolledTo(from.a, parts, ks) && AllRollable(from.a, created, p.world)
         && p.puts == from.puts + RollbackPuts(from.a, ks) && p.closings == from.closings + RollbackCloses(from.a, ks)
         && EvolvesClosing(from.w, p.world, RollbackCloses(from.a, ks), created)
         && (p.quiet ==> from.quiet && p.world == WithoutAll(from.w, from.a, ks))
    }

    method RollbackNext(p: Process, k: Slot, ghost from: Before, ghost n: nat)
      requires Came(p, from, n) && n < |ROLLBACK_ORDER| && k == ROLLBACK_ORDER[n]
      modifies p`world, p`turn, p`quiet, p`puts, p`closings, `parts
      ensures Came(p, from, n + 1)
    {
      hide Rollable, EvolvesClosing, Without, PutBack, Discarded, RollbackPuts, RollbackCloses, WithoutAll;
      hide AllRollable, RolledTo;
      ghost var v, ks := p.world, ROLLBACK_ORDER[..n];
      IsNext(from.a, parts, created, p.world, n);
      RollsOn(from.a, parts, ks, k);
      Rollback(p, k);
      RollableLater(from.a, created, v, p.world, Discarded(k, from.a[k]));
      ClosingMore(from.w, v, p.world, RollbackCloses(from.a, ks), Discarded(k, from.a[k]), created);
      WithoutMore(from.w, from.a, ks, k);
    }

    lemma RollbackBegins(p: Process)
      requires AllRollable(parts, created, p.world)
      ensures Came(p, Before(parts, p.world, p.puts, p.closings, p.quiet), 0)
    {
      assert Rollable(Db, parts[Db], created, p.world);
    }

    lemma RollbackEnds(p: Process, from: Before)
      requires Came(p, from, 7)
      ensures parts == NOTHING && p.puts == from.puts + RollbackPuts(from.a, ROLLBACK_ORDER)
      ensures p.closings == from.closings + RollbackCloses(from.a, ROLLBACK_ORDER)
      ensures EvolvesClosing(from.w, p.world, RollbackCloses(from.a, ROLLBACK_ORDER), created)
      ensures p.quiet ==> from.quiet && p.world == WithoutAll(from.w, from.a, ROLLBACK_ORDER)
    {
      hide RollbackPuts, RollbackCloses, WithoutAll, EvolvesClosing, AllRollable;
      assert ROLLBACK_ORDER[..7] == ROLLBACK_ORDER;
      forall k: Slot ensures k in ROLLBACK_ORDER { AllInOrder(k); }
    }

    /** Puts back what the app has replaced and closes its own managers.  Whatever other apps do meanwhile,
        these are all the defaults it writes and all the managers it closes. */
    method RollbackReplacedResources(p: Process)
      requires AllRollable(parts, created, p.world)
      modifies p`world, p`turn, p`quiet, p`puts, p`closings, `parts
      ensures |p.puts| >= |old(p.puts)| && forall k: Slot, m: Manager ::
        Put(k, m) in p.puts[|old(p.puts)|..] <==> old(parts)[k].previous == Some(m)
      ensures forall m :: m in p.closings <==>
        (m in old(p.closings) || old(parts)[Db].manager == Some(m) || old(parts)[Redis].manager == Some(m)
         || old(parts)[Storage].manager == Some(m) || old(parts)[RateLimit].manager == Some(m))
      ensures parts == NOTHING && p.puts == old(p.puts) + RollbackPuts(old(parts), ROLLBACK_ORDER)
      ensures p.closings == old(p.closings) + RollbackCloses(old(parts), ROLLBACK_ORDER)
      ensures EvolvesClosing(old(p.world), p.world, RollbackCloses(old(parts), ROLLBACK_ORDER), created)
      ensures p.quiet ==> old(p.quiet) && p.world == WithoutAll(old(p.world), old(parts), ROLLBACK_ORDER)
    {
      hide Came, RollbackPuts, RollbackCloses, EvolvesClosing, WithoutAll;
      ghost var from := Before(parts, p.world, p.puts, p.closings, p.quiet);
      RollbackBegins(p);
      RollbackNext(p, Db, from, 0);
      RollbackNext(p, Redis, from, 1);
      RollbackNext(p, Storage, from, 2);
      RollbackNext(p, Scheduler, from, 3);
      RollbackNext(p, Cache, from, 4);
      RollbackNext(p, RateLimit, from, 5);
      RollbackNext(p, Logger, from, 6);
      RollbackEnds(p, from);
      forall k: Slot, m: Manager
        ensures Put(k, m) in RollbackPuts(from.a, ROLLBACK_ORDER) <==> from.a[k].previous == Some(m)
      {
        PutsExactly(from.a, k, m);
      }
      forall m ensures m in RollbackCloses(from.a, ROLLBACK_ORDER) <==>
        (from.a[Db].manager == Some(m) || from.a[Redis].manager == Some(m) || from.a[Storage].manager == Some(m)
         || from.a[RateLimit].manager == Some(m))
      {
        ClosesExactly(from.a, m);
      }
    }

    /** After a failed doInit.  Whatever other apps do meanwhile: this app closes exactly what it has open,
        everything it had made a default among it, and writes no defaults but those it puts back.  If they
        keep quiet, every default is again what it was. */
    method FailAfterInit(p: Process, ghost base: World, ghost had: set<Manager>)
      requires Initing(p, base, had)
      modifies p`world, p`turn, p`quiet, p`puts, p`closings, `parts
      ensures parts == NOTHING && p.puts == old(p.puts) + RollbackPuts(old(parts), ROLLBACK_ORDER)
      ensures p.closings == old(p.closings) + Open(old(parts)) && Open(old(parts)) <= created
      ensures EvolvesClosing(old(p.world), p.world, Open(old(parts)), created)
      ensures OwnDefaultsClosed(created, p.world) && Numbered(created, p.world)
      ensures p.quiet ==> old(p.quiet) && InitFailed(base, p.world, had, created)
    {
      ghost var a, w, mine := parts, p.world, created;
      UnderwayRolls(a, mine, w, base, had);
      hide EvolvesClosing, Underway, Alone, AllRollable, InitFailed, Numbered, Open, Owns, Of;
      StopCron(p);
      ghost var b, w1, stopped := parts, p.world, Of(a[Scheduler]);
      RollableLater(b, mine, w, w1, stopped);
      hide RollbackPuts, RollbackCloses, WithoutAll;
      RollbackReplacedResources(p);
      StoppedFirst(a, b, w, old(p.closings));
      ClosingMore(w, w1, p.world, stopped, RollbackCloses(b, ROLLBACK_ORDER), mine);
      FailureCloses(a, mine, w, p.world, base, had);
      if p.quiet { FailureAlone(a, mine, w, p.world, base, had); }
    }

    /** Init of a new app: all or nothing.  Whatever other apps do meanwhile, it closes managers of its own
        only: none if it succeeds, all it has made a default if it fails.  If they keep quiet, a failure
        leaves every default as it was, and on success the defaults of exactly the enabled components are
        this app's. */
    method Init(p: Process, f: Faults) returns (ok: bool)
      requires Untouched(parts, created, p.world)
      modifies p`world, p`turn, p`quiet, p`puts, p`closings, `parts, `created
      ensures ok <==> (!f.config && !(options.trace && f.trace) && !(options.logger && f.logger)
        && !(options.mysql && f.db) && !(options.redis && f.redis) && !(options.storage && f.storage)
        && !(options.migrate && (!options.mysql || f.migration)) && !f.hook)
      ensures ok ==> UpAre(parts, options)
      ensures !ok ==> OwnDefaultsClosed(created, p.world) && p.closings <= old(p.closings) + created
      ensures ok ==> created !! p.world.closed && p.closings == old(p.closings)
      ensures old(p.quiet) && p.quiet && !ok ==> InitFailed(old(p.world), p.world, old(created), created)
      ensures old(p.quiet) && p.quiet && ok ==> InitSucceeded(old(p.world), p.world, old(created), created)
      ensures old(p.quiet) && p.quiet && ok ==> DefaultsAre(parts, options, old(p.world).slots, p.world.slots)
      ensures ok ==> parts[RateLimit].manager == old(parts)[RateLimit].manager
      ensures Settled(parts, created) && Numbered(created, p.world)
    {
      UntouchedBegins(parts, created, p.world);
      hide Underway, Alone, Untouched, Settled, InitFailed, InitSucceeded, EvolvesClosing, Open, Numbered, IsEnabled;
      hide UpAre, DefaultsAre;
      ghost var w, had := p.world, created;
      ok := DoInit(p, f, w, had);
      ghost var a := parts;
      if ok {
        CommitReplacedResources();
        UpByField(a, options);
        SuccessSettles(a, created, p.world, w, had);
        if p.quiet { SuccessAlone(a, options, created, p.world, w, had); }
      } else {
        FailAfterInit(p, w, had);
        NothingIsSettled(created);
      }
    }

    /** One component of a shutdown, with the default in the place of a manager of the database or redis that
        the app should have lost. */
    method CloseOne(p: Process, k: Slot)
      requires Owns(parts, created) && Numbered(created, p.world) && (k == Db || k == Redis || k == Storage)
      modifies p`world, p`turn, p`quiet, p`closings, `parts
      ensures parts == old(parts)[k := ClosedComponent(old(parts)[k])]
      ensures Owns(parts, created) && Numbered(created, p.world)
      ensures old(parts)[k].initialized == old(parts)[k].manager.Some? ==>
        ClosedExactly(old(p.Snap()), p.Snap(), Of(old(parts)[k]), created)
      ensures ClosesQuietly(old(p.Snap()), p.Snap(), k, old(parts)[k])
    {
      var c := parts[k];
      if c.initialized {
        p.Others(created);
        if c.manager.Some? {
          p.Close(c.manager.value);
        } else if k != Storage {
          p.Close(p.world.slots[k]);
        }
        parts := parts[k := c.(initialized := false, manager := None)];
      } else {
        assert parts == parts[k := c];
        if c.manager.None? { NothingClosed(p.Snap(), p.Snap(), Of(c), created); }
      }
    }

    /** Database, redis and storage in this order; flushing and closing the logs is left out. */
    method CloseResources(p: Process)
      requires Owns(parts, created) && Numbered(created, p.world)
      modifies p`world, p`turn, p`quiet, p`closings, `parts
      ensures parts == StoresClosed(old(parts))
      ensures StoresSettled(old(parts)) ==> ClosedExactly(old(p.Snap()), p.Snap(), StoresOf(old(parts)), created)
      ensures StoresCloseQuietly(old(p.Snap()), p.Snap(), old(parts))
    {
      ghost var a, x, mine := parts, p.Snap(), created;
      hide ClosedExactly, Numbered, Of, ClosesQuietly, StoresCloseQuietly, ClosedComponent, Owns;
      assert forall k: Slot :: k in a by { HasAll(a, mine); }
      CloseOne(p, Db);
      ghost var y := p.Snap();
      CloseOne(p, Redis);
      ghost var z := p.Snap();
      CloseOne(p, Storage);
      StoresInTurn(x, y, z, p.Snap(), a);
      if StoresSettled(a) {
        ClosedMore(x, y, z, Of(a[Db]), Of(a[Redis]), mine);
        ClosedMore(x, z, p.Snap(), Of(a[Db]) + Of(a[Redis]), Of(a[Storage]), mine);
      }
      parts := parts[Logger := ClosedComponent(parts[Logger])];
    }

    method StopLimiters(p: Process)
      requires Owns(parts, created) && Numbered(created, p.world)
      modifies p`world, p`turn, p`quiet, p`closings
      ensures ClosedExactly(old(p.Snap()), p.Snap(), Of(parts[RateLimit]), created)
    {
      hide ClosedExactly;
      if parts[RateLimit].manager.Some? {
        CloseOwn(p, parts[RateLimit].manager.value);
      } else {
        NothingClosed(p.Snap(), p.Snap(), {}, created);
      }
    }

    /** A shutdown.  Whatever other apps do meanwhile, it closes what this app has open, all of it and nothing
        else, and writes no default. */
    method DoShutdown(p: Process)
      requires Settled(parts, created) && Numbered(created, p.world)
      modifies p`world, p`turn, p`quiet, p`closings, `parts
      ensures forall m :: m in p.closings <==>
        (m in old(p.closings) || old(parts)[Db].manager == Some(m) || old(parts)[Redis].manager == Some(m)
         || old(parts)[Storage].manager == Some(m) || old(parts)[Scheduler].manager == Some(m)
         || old(parts)[RateLimit].manager == Some(m))
      ensures ClosedExactly(old(p.Snap()), p.Snap(), Open(old(parts)), created) && Open(old(parts)) <= created
      ensures p.quiet ==> old(p.quiet) && ShutDown(old(p.world), p.world, created)
    {
      ghost var a, x, mine := parts, p.Snap(), created;
      OpenIsOwn(a, mine);
      hide ClosedExactly, Numbered, Of, Open, StoresOf, StoresClosed, StoresSettled;
      StopCron(p);
      ghost var y := p.Snap();
      StoppedStores(a, parts, mine);
      NumberedLater(mine, x, y, Of(a[Scheduler]));
      StopLimiters(p);
      ghost var z := p.Snap();
      NumberedLater(mine, y, z, Of(a[RateLimit]));
      CloseResources(p);
      ClosedMore(x, y, z, Of(a[Scheduler]), Of(a[RateLimit]), mine);
      ClosedMore(x, z, p.Snap(), Of(a[Scheduler]) + Of(a[RateLimit]), StoresOf(a), mine);
      InShutdownOrder(a);
      IsShutDown(x, p.Snap(), Open(a), mine);
      forall m ensures m in Open(a) <==>
        (a[Db].manager == Some(m) || a[Redis].manager == Some(m) || a[Storage].manager == Some(m)
         || a[Scheduler].manager == Some(m) || a[RateLimit].manager == Some(m))
      {
        OpenExactly(a, m);
      }
    }
  }
}
