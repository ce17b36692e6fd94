/** Any number of applications whose Inits, rollbacks and shutdowns overlap in one process: every swap of a
    default, every close and every commit is a step of its own.  The effects of module AppResources, `puts`
    and `closings`, are the steps Install, PutBack and Close here; an app may take its swaps, and its
    rollback swaps and closes, in any order, which includes the orders of the code. */
module AppOverlap {
  import opened AppResources

  type AppId = nat

  datatype Phase = Fresh | Initialising | RollingBack | Failed | Running | Closing | Down

  /** The app's managers, and the defaults it has replaced and not put back. */
  datatype Member = Member(phase: Phase, managers: map<Slot, Manager>, previous: map<Slot, Manager>)

  /** `owner` is history: who created a manager. */
  datatype State = State(
    slots: Slots,
    closed: set<Manager>,
    issued: nat,
    owner: map<Manager, AppId>,
    apps: map<AppId, Member>)

  datatype Action =
    | Make(app: AppId)
    | Begin(app: AppId)
    | Install(app: AppId, slot: Slot)
    | Commit(app: AppId)
    | Fail(app: AppId)
    | PutBack(app: AppId, slot: Slot)
    | Close(app: AppId, slot: Slot)
    | RollbackEnds(app: AppId)
    | BeginShutdown(app: AppId)
    | ShutdownEnds(app: AppId)

  predicate AllClosed(s: State, m: Member) {
    forall k: Slot :: k in m.managers && Closes(k) ==> m.managers[k] in s.closed
  }

  predicate Enabled(s: State, a: Action) {
    if a.Make? then a.app !in s.apps
    else a.app in s.apps && MemberEnabled(s, s.apps[a.app], a)
  }

  predicate MemberEnabled(s: State, m: Member, a: Action) {
    match a
    case Make(_) => false
    case Begin(_) => m.phase == Fresh
    case Install(_, k) =>
      m.phase == Initialising && k in s.slots && k !in m.previous && (k in m.managers <==> k == RateLimit)
    case Commit(_) => m.phase == Initialising
    case Fail(_) => m.phase == Initialising
    case PutBack(_, k) => m.phase == RollingBack && k in m.previous
    case Close(_, k) => (m.phase == RollingBack || m.phase == Closing) && k in m.managers && Closes(k)
    case RollbackEnds(_) => m.phase == RollingBack && m.previous == map[] && AllClosed(s, m)
    case BeginShutdown(_) => m.phase == Fresh || m.phase == Running
    case ShutdownEnds(_) => m.phase == Closing && AllClosed(s, m)
  }

  function Moved(s: State, a: AppId, m: Member): State { s.(apps := s.apps[a := m]) }

  /** The manager an Install makes the default: the registry exists, the others come up now. */
  function Installing(s: State, a: AppId, k: Slot): Manager
    requires a in s.apps
  {
    if k == RateLimit && k in s.apps[a].managers then s.apps[a].managers[k] else s.issued
  }

  function Apply(s: State, a: Action): State
    requires Enabled(s, a)
  {
    match a
    case Make(app) =>
      s.(issued := s.issued + 1, owner := s.owner[s.issued := app],
         apps := s.apps[app := Member(Fresh, map[RateLimit := s.issued], map[])])
    case Install(app, k) =>
      var m, x := s.apps[app], Installing(s, app, k);
      s.(slots := s.slots[k := x], issued := if x == s.issued then s.issued + 1 else s.issued,
         owner := s.owner[x := app],
         apps := s.apps[app := m.(managers := m.managers[k := x], previous := m.previous[k := s.slots[k]])])
    case PutBack(app, k) =>
      var m := s.apps[app];
      s.(slots := s.slots[k := m.previous[k]], apps := s.apps[app := m.(previous := m.previous - {k})])
    case Close(app, k) => s.(closed := s.closed + {s.apps[app].managers[k]})
    case Begin(app) => Moved(s, app, s.apps[app].(phase := Initialising))
    case Commit(app) => Moved(s, app, s.apps[app].(phase := Running, previous := map[]))
    case Fail(app) => Moved(s, app, s.apps[app].(phase := RollingBack))
    case RollbackEnds(app) => Moved(s, app, s.apps[app].(phase := Failed))
    case BeginShutdown(app) => Moved(s, app, s.apps[app].(phase := Closing))
    case ShutdownEnds(app) => Moved(s, app, s.apps[app].(phase := Down))
  }

  predicate Initial(s: State) {
    && s.closed == {} && s.owner == map[] && s.apps == map[]
    && forall k: Slot :: k in s.slots && s.slots[k] < s.issued
  }

  ghost predicate IsRun(run: seq<State>, actions: seq<Action>) {
    && |run| == |actions| + 1 && Initial(run[0])
    && forall i :: 0 <= i < |actions| ==> Enabled(run[i], actions[i]) && run[i + 1] == Apply(run[i], actions[i])
  }

  // ----- nobody closes what is not his

  /** An app's managers are its own and numbered, and a manager belongs to one slot of one app. */
  predicate MemberOk(s: State, a: AppId)
    requires a in s.apps
  {
    forall k: Slot :: k in s.apps[a].managers ==>
      s.apps[a].managers[k] in s.owner && s.owner[s.apps[a].managers[k]] == a
  }

  predicate Winding(p: Phase) { p == RollingBack || p == Failed || p == Closing || p == Down }

  predicate ClosedOk(s: State, m: Manager) {
    m in s.owner && s.owner[m] in s.apps && Winding(s.apps[s.owner[m]].phase)
  }

  ghost predicate Inv(s: State) {
    && (forall k: Slot :: k in s.slots)
    && (forall m :: m in s.owner ==> m < s.issued)
    && (forall a :: a in s.apps ==> MemberOk(s, a))
    && (forall m :: m in s.closed ==> ClosedOk(s, m))
  }

  lemma StepKeeps(s: State, a: Action)
    requires Enabled(s, a) && Inv(s)
    ensures Inv(Apply(s, a))
  {
    var t := Apply(s, a);
    forall b | b in t.apps ensures MemberOk(t, b) { assert b in s.apps ==> MemberOk(s, b); }
    forall m | m in t.closed ensures ClosedOk(t, m) { assert m in s.closed ==> ClosedOk(s, m); }
  }

  lemma {:induction false} RunInv(run: seq<State>, actions: seq<Action>, i: nat)
    requires IsRun(run, actions) && i < |run|
    ensures Inv(run[i])
  {
    hide Enabled, Apply;
    if i > 0 {
      hide Inv;
      RunInv(run, actions, i - 1);
      StepKeeps(run[i - 1], actions[i - 1]);
    }
  }

  /** However the steps of any apps interleave: a step closes at most a manager of the app that takes it,
      and every manager of an app that has yet to initialise, initialises or runs is open. */
  lemma OnlyOwnManagersAreClosed(run: seq<State>, actions: seq<Action>, i: nat, m: Manager)
    requires IsRun(run, actions) && i < |run| && m in run[i].closed
    ensures m in run[i].owner && run[i].owner[m] in run[i].apps && Winding(run[i].apps[run[i].owner[m]].phase)
    ensures i > 0 && m !in run[i - 1].closed ==> run[i].owner[m] == actions[i - 1].app
  {
    RunInv(run, actions, i);
    assert ClosedOk(run[i], m);
    if i > 0 && m !in run[i - 1].closed {
      RunInv(run, actions, i - 1);
      hide IsRun;
      NewlyClosed(run, actions, i - 1, m);
    }
  }

  lemma NewlyClosed(run: seq<State>, actions: seq<Action>, i: nat, m: Manager)
    requires IsRun(run, actions) && i < |actions| && Inv(run[i]) && m in run[i + 1].closed && m !in run[i].closed
    ensures m in run[i + 1].owner && run[i + 1].owner[m] == actions[i].app
  {
    assert MemberOk(run[i], actions[i].app);
  }

  // ----- which default a slot ought to hold

  predicate SwapsIn(a: Action, k: Slot) { a.Install? && a.slot == k }

  predicate PutsBack(a: Action, k: Slot) { a.PutBack? && a.slot == k }

  /** The swap at p, which its app has not put back before n. */
  predicate InPlace(actions: seq<Action>, n: nat, k: Slot, p: int)
    requires n <= |actions|
  {
    0 <= p < n && SwapsIn(actions[p], k) && forall j :: p < j < n ==> actions[j] != PutBack(actions[p].app, k)
  }

  /** The latest swap still in place, or -1. */
  function Latest(actions: seq<Action>, n: nat, k: Slot, below: nat): (p: int)
    requires below <= n <= |actions|
    ensures -1 <= p < below && (p >= 0 ==> InPlace(actions, n, k, p))
    ensures forall q :: p < q < below ==> !InPlace(actions, n, k, q)
  {
    if below == 0 then -1
    else if InPlace(actions, n, k, below - 1) then below - 1
    else Latest(actions, n, k, below - 1)
  }

  function Default(s: State, k: Slot): Manager { if k in s.slots then s.slots[k] else s.issued }

  /** The default as it would be had the swaps that were put back never been made. */
  function Meant(run: seq<State>, actions: seq<Action>, n: nat, k: Slot): Manager
    requires n <= |actions| < |run|
  {
    Default(run[Latest(actions, n, k, n) + 1], k)
  }

  predicate Right(run: seq<State>, actions: seq<Action>, n: nat, k: Slot)
    requires n <= |actions| < |run|
  {
    Default(run[n], k) == Meant(run, actions, n, k)
  }

  /** What is put back at j was swapped in at i, and no swap made since is still in place. */
  predicate Nested(actions: seq<Action>, j: nat, k: Slot)
    requires j < |actions| && PutsBack(actions[j], k)
  {
    forall i, p :: 0 <= i < p < j && actions[i] == Install(actions[j].app, k) ==> !InPlace(actions, j, k, p)
  }

  predicate NestedUpTo(actions: seq<Action>, n: nat, k: Slot)
    requires n <= |actions|
  {
    forall j :: 0 <= j < n && PutsBack(actions[j], k) ==> Nested(actions, j, k)
  }

  // ----- an app swaps a slot in once, and puts back what it replaced

  /** The app will not swap the slot in any more. */
  predicate HasSwapped(s: State, a: AppId, k: Slot) {
    && a in s.apps && s.apps[a].phase != Fresh && (s.apps[a].phase == Initialising ==> k in s.apps[a].previous)
  }

  lemma SwappedOnce(s: State, a: Action, b: AppId, k: Slot)
    requires Enabled(s, a) && (a == Install(b, k) || HasSwapped(s, b, k))
    ensures HasSwapped(Apply(s, a), b, k) && (HasSwapped(s, b, k) ==> a != Install(b, k))
  {
  }

  lemma {:induction false} StaysSwapped(run: seq<State>, actions: seq<Action>, i: nat, a: AppId, k: Slot, n: nat)
    requires IsRun(run, actions) && i < n <= |actions| && actions[i] == Install(a, k)
    ensures HasSwapped(run[n], a, k)
    ensures n < |actions| ==> actions[n] != Install(a, k)
  {
    hide Enabled, Apply, HasSwapped;
    if n > i + 1 { StaysSwapped(run, actions, i, a, k, n - 1); }
    SwappedOnce(run[n - 1], actions[n - 1], a, k);
    if n < |actions| && actions[n] == Install(a, k) { SwappedOnce(run[n], actions[n], a, k); }
  }

  /** The replaced manager that an app still remembers, at n, is the one it replaced at i. */
  predicate Remembers(run: seq<State>, actions: seq<Action>, n: nat, a: AppId, k: Slot, i: int)
    requires n <= |actions| < |run| && a in run[n].apps && k in run[n].apps[a].previous
  {
    && 0 <= i < n && actions[i] == Install(a, k) && InPlace(actions, n, k, i)
    && run[n].apps[a].previous[k] == Default(run[i], k)
  }

  lemma RememberedBefore(s: State, x: Action, a: AppId, k: Slot)
    requires Enabled(s, x) && a in Apply(s, x).apps && k in Apply(s, x).apps[a].previous
    ensures x == Install(a, k) ==> Apply(s, x).apps[a].previous[k] == Default(s, k)
    ensures x != Install(a, k) ==>
      && a in s.apps && k in s.apps[a].previous && x != PutBack(a, k)
      && Apply(s, x).apps[a].previous[k] == s.apps[a].previous[k]
  {
  }

  lemma {:induction false} PreviousIs(run: seq<State>, actions: seq<Action>, n: nat, a: AppId, k: Slot) returns (i: int)
    requires IsRun(run, actions) && n <= |actions| && a in run[n].apps && k in run[n].apps[a].previous
    ensures Remembers(run, actions, n, a, k, i)
  {
    hide Enabled, Apply;
    RememberedBefore(run[n - 1], actions[n - 1], a, k);
    if actions[n - 1] == Install(a, k) {
      i := n - 1;
    } else {
      i := PreviousIs(run, actions, n - 1, a, k);
    }
  }

  lemma SlotAfter(s: State, x: Action, k: Slot)
    requires Enabled(s, x)
    ensures PutsBack(x, k) ==>
      && x.app in s.apps && k in s.apps[x.app].previous
      && Default(Apply(s, x), k) == s.apps[x.app].previous[k]
    ensures SwapsIn(x, k) ==>
      x.app in Apply(s, x).apps && k in Apply(s, x).apps[x.app].managers
      && Default(Apply(s, x), k) == Apply(s, x).apps[x.app].managers[k]
    ensures k in s.slots && !SwapsIn(x, k) && !PutsBack(x, k) ==> Default(Apply(s, x), k) == Default(s, k)
  {
  }

  lemma SlotUntouched(run: seq<State>, actions: seq<Action>, n: nat, k: Slot)
    requires IsRun(run, actions) && n < |actions| && !SwapsIn(actions[n], k) && !PutsBack(actions[n], k)
    ensures Default(run[n + 1], k) == Default(run[n], k)
  {
    hide Enabled, Apply;
    RunInv(run, actions, n);
    SlotAfter(run[n], actions[n], k);
  }

  /** Whatever happened in between, a rollback puts back what the app replaced. */
  lemma PutsBackWhatItReplaced(run: seq<State>, actions: seq<Action>, j: nat, k: Slot) returns (i: nat)
    requires IsRun(run, actions) && j < |actions| && PutsBack(actions[j], k)
    ensures i < j && actions[i] == Install(actions[j].app, k) && Default(run[j + 1], k) == Default(run[i], k)
    ensures InPlace(actions, j, k, i)
  {
    hide Enabled, Apply;
    SlotAfter(run[j], actions[j], k);
    i := PreviousIs(run, actions, j, actions[j].app, k);
  }


  // ----- a default comes from one swap, or from the start

  predicate OwnedBy(s: State, m: Manager, a: AppId) { m in s.owner && s.owner[m] == a }

  lemma StaysOwned(s: State, x: Action, m: Manager, a: AppId, first: nat)
    requires Enabled(s, x) && Inv(s) && first <= s.issued
    ensures OwnedBy(s, m, a) ==> OwnedBy(Apply(s, x), m, a)
    ensures first <= Apply(s, x).issued
    ensures m in Apply(s, x).owner ==> m in s.owner || first <= m
  {
    assert x.app in s.apps ==> MemberOk(s, x.app);
  }

  lemma {:induction false} OwnedForGood(run: seq<State>, actions: seq<Action>, i: nat, n: nat, m: Manager, a: AppId)
    requires IsRun(run, actions) && i <= n < |run| && OwnedBy(run[i], m, a)
    ensures OwnedBy(run[n], m, a)
  {
    hide Enabled, Apply, Inv, OwnedBy;
    if i < n {
      OwnedForGood(run, actions, i, n - 1, m, a);
      RunInv(run, actions, n - 1);
      StaysOwned(run[n - 1], actions[n - 1], m, a, 0);
    }
  }

  lemma {:induction false} OwnedAreNew(run: seq<State>, actions: seq<Action>, n: nat, m: Manager)
    requires IsRun(run, actions) && n < |run|
    ensures run[0].issued <= run[n].issued && (m in run[n].owner ==> run[0].issued <= m)
  {
    hide Enabled, Apply, Inv;
    if n > 0 {
      OwnedAreNew(run, actions, n - 1, m);
      RunInv(run, actions, n - 1);
      StaysOwned(run[n - 1], actions[n - 1], m, 0, run[0].issued);
    }
  }

  lemma SwapIsOwned(run: seq<State>, actions: seq<Action>, i: nat, k: Slot)
    requires IsRun(run, actions) && i < |actions| && SwapsIn(actions[i], k)
    ensures OwnedBy(run[i + 1], Default(run[i + 1], k), actions[i].app)
  {
    RunInv(run, actions, i + 1);
    hide Enabled, Apply;
    SlotAfter(run[i], actions[i], k);
    assert MemberOk(run[i + 1], actions[i].app);
  }

  /** Where the default at n comes from: the swap at i, or the start. */
  predicate ComesFrom(run: seq<State>, actions: seq<Action>, n: nat, k: Slot, i: int)
    requires n <= |actions| < |run|
  {
    -1 <= i < n && (i >= 0 ==> SwapsIn(actions[i], k)) && Default(run[n], k) == Default(run[i + 1], k)
  }

  lemma {:induction false} Origin(run: seq<State>, actions: seq<Action>, n: nat, k: Slot) returns (i: int)
    requires IsRun(run, actions) && n <= |actions|
    ensures ComesFrom(run, actions, n, k, i)
  {
    hide IsRun;
    if n == 0 {
      i := -1;
    } else if SwapsIn(actions[n - 1], k) {
      i := n - 1;
    } else {
      var j := n - 1;
      if PutsBack(actions[j], k) {
        j := PutsBackWhatItReplaced(run, actions, j, k);
      } else {
        SlotUntouched(run, actions, j, k);
      }
      i := Origin(run, actions, j, k);
    }
  }

  /** A manager swapped in has never been a default before. */
  lemma SwapsInSomethingNew(run: seq<State>, actions: seq<Action>, i: nat, k: Slot, n: nat)
    requires IsRun(run, actions) && n <= i < |actions| && SwapsIn(actions[i], k)
    ensures Default(run[n], k) != Default(run[i + 1], k)
  {
    hide Enabled, Apply, Inv;
    SwapIsOwned(run, actions, i, k);
    var m := Default(run[i + 1], k);
    var o := Origin(run, actions, n, k);
    if o < 0 {
      OwnedAreNew(run, actions, i + 1, m);
    } else if Default(run[n], k) == m {
      SwapIsOwned(run, actions, o, k);
      OwnedForGood(run, actions, o + 1, i + 1, m, actions[o].app);
      StaysSwapped(run, actions, o, actions[o].app, k, i);
    }
  }

  // ----- the default is right exactly while rollbacks are nested

  lemma LatestSame(actions: seq<Action>, n: nat, k: Slot)
    requires n < |actions| && !SwapsIn(actions[n], k) && !PutsBack(actions[n], k)
    ensures Latest(actions, n + 1, k, n + 1) == Latest(actions, n, k, n)
  {
    var q, r := Latest(actions, n + 1, k, n + 1), Latest(actions, n, k, n);
    assert q >= 0 ==> InPlace(actions, n, k, q);
    assert r >= 0 ==> InPlace(actions, n + 1, k, r);
  }

  lemma LatestPutBack(run: seq<State>, actions: seq<Action>, i: nat, j: nat, k: Slot)
    requires IsRun(run, actions) && i < j < |actions| && InPlace(actions, j, k, i)
    requires actions[j] == PutBack(actions[i].app, k) && NestedUpTo(actions, j + 1, k)
    ensures Latest(actions, j + 1, k, j + 1) == Latest(actions, i, k, i)
  {
    hide IsRun;
    var q, r := Latest(actions, j + 1, k, j + 1), Latest(actions, i, k, i);
    assert Nested(actions, j, k);
    var n := j + 1;
    forall p | i <= p < n ensures !InPlace(actions, n, k, p) {
      assert InPlace(actions, n, k, p) ==> p == j || InPlace(actions, j, k, p);
    }
    assert q >= 0 ==> InPlace(actions, i, k, q);
    if r >= 0 {
      var b := actions[r].app;
      StaysSwapped(run, actions, r, b, k, i);
      forall p | r < p < j + 1 ensures actions[p] != PutBack(b, k) {
        assert InPlace(actions, i, k, r) && (i < p < j ==> InPlace(actions, p, k, i));
        assert i < p < j && PutsBack(actions[p], k) ==> Nested(actions, p, k);
      }
      assert InPlace(actions, j + 1, k, r);
    }
  }

  lemma {:induction false} NestedKeepsRight(run: seq<State>, actions: seq<Action>, n: nat, k: Slot)
    requires IsRun(run, actions) && n <= |actions| && NestedUpTo(actions, n, k)
    ensures Right(run, actions, n, k)
  {
    hide IsRun;
    if n > 0 {
      if SwapsIn(actions[n - 1], k) {
        assert InPlace(actions, n, k, n - 1);
      } else if PutsBack(actions[n - 1], k) {
        var i := PutsBackWhatItReplaced(run, actions, n - 1, k);
        NestedKeepsRight(run, actions, i, k);
        LatestPutBack(run, actions, i, n - 1, k);
      } else {
        NestedKeepsRight(run, actions, n - 1, k);
        LatestSame(actions, n - 1, k);
        SlotUntouched(run, actions, n - 1, k);
      }
    }
  }

  lemma CrossingIsWrong(run: seq<State>, actions: seq<Action>, j: nat, k: Slot)
    requires IsRun(run, actions) && j < |actions| && PutsBack(actions[j], k) && !Nested(actions, j, k)
    ensures !Right(run, actions, j + 1, k)
  {
    hide IsRun;
    var a := actions[j].app;
    var i, p :| 0 <= i < p < j && actions[i] == Install(a, k) && InPlace(actions, j, k, p);
    var o := PutsBackWhatItReplaced(run, actions, j, k);
    if o < i { StaysSwapped(run, actions, o, a, k, i); } else if i < o { StaysSwapped(run, actions, i, a, k, o); }
    StaysSwapped(run, actions, i, a, k, p);
    assert InPlace(actions, j + 1, k, p);
    SwapsInSomethingNew(run, actions, Latest(actions, j + 1, k, j + 1), k, i);
  }

  /** One rollback, the ones before being nested: it leaves the right default exactly if no swap made since
      this app's own is still in place. */
  lemma RollbackIsRightIff(run: seq<State>, actions: seq<Action>, j: nat, k: Slot)
    requires IsRun(run, actions) && j < |actions| && PutsBack(actions[j], k) && NestedUpTo(actions, j, k)
    ensures |run| == |actions| + 1
    ensures Right(run, actions, j + 1, k) <==> Nested(actions, j, k)
  {
    hide Right, Nested, Enabled, Apply, Initial;
    if Nested(actions, j, k) {
      NestedKeepsRight(run, actions, j + 1, k);
    } else {
      CrossingIsWrong(run, actions, j, k);
    }
  }

  /** However any apps overlap: the defaults of a slot stay what they would be without the swaps that were
      put back, exactly if every rollback finds no later swap of the slot still in place. */
  lemma RightIffNested(run: seq<State>, actions: seq<Action>, n: nat, k: Slot)
    requires IsRun(run, actions) && n <= |actions|
    ensures |run| == |actions| + 1
    ensures (forall j :: 0 <= j <= n ==> Right(run, actions, j, k)) <==> NestedUpTo(actions, n, k)
  {
    hide Right, Nested;
    if NestedUpTo(actions, n, k) {
      forall j | 0 <= j <= n ensures Right(run, actions, j, k) { NestedKeepsRight(run, actions, j, k); }
    } else {
      var j :| 0 <= j < n && PutsBack(actions[j], k) && !Nested(actions, j, k);
      CrossingIsWrong(run, actions, j, k);
    }
  }

  // ----- managers of apps that have put the slot back

  predicate PutBackBefore(actions: seq<Action>, n: nat, a: AppId, k: Slot)
    requires n <= |actions|
  {
    exists p :: 0 <= p < n && actions[p] == PutBack(a, k)
  }

  /** The default is a manager of an app whose own rollback has already put the slot back. */
  predicate Abandoned(run: seq<State>, actions: seq<Action>, n: nat, k: Slot)
    requires n <= |actions| < |run|
  {
    var m := Default(run[n], k);
    m in run[n].owner && PutBackBefore(actions, n, run[n].owner[m], k)
  }

  /** At some point in between, the app that owns the default at i put the slot back. */
  predicate OwnerPutsBack(run: seq<State>, actions: seq<Action>, i: nat, j: nat, k: Slot)
    requires i <= j <= |actions| < |run|
  {
    var m := Default(run[i], k);
    m in run[i].owner && exists p :: i < p < j && actions[p] == PutBack(run[i].owner[m], k)
  }

  /** The owner of a default swapped it in, at o; a default from the start has none, now or later. */
  lemma OwnerSwappedIn(run: seq<State>, actions: seq<Action>, n: nat, k: Slot, o: int, later: nat)
    requires IsRun(run, actions) && n <= later <= |actions| && ComesFrom(run, actions, n, k, o)
    ensures o < 0 ==> Default(run[n], k) !in run[later].owner
    ensures o >= 0 ==> OwnedBy(run[later], Default(run[n], k), actions[o].app)
  {
    hide Enabled, Apply, Inv;
    if o < 0 {
      OwnedAreNew(run, actions, later, Default(run[n], k));
      StartIsNumbered(run, actions, k);
    } else {
      SwapIsOwned(run, actions, o, k);
      OwnedForGood(run, actions, o + 1, later, Default(run[n], k), actions[o].app);
    }
  }

  lemma StartIsNumbered(run: seq<State>, actions: seq<Action>, k: Slot)
    requires IsRun(run, actions)
    ensures Default(run[0], k) < run[0].issued
  {
  }

  /** An app that has put the slot back did so after its one swap. */
  lemma PutBackAfterSwap(run: seq<State>, actions: seq<Action>, o: nat, p: nat, k: Slot)
    requires IsRun(run, actions) && o < |actions| && p < |actions| && SwapsIn(actions[o], k)
    requires actions[p] == PutBack(actions[o].app, k)
    ensures o < p
  {
    hide IsRun;
    var i := PutsBackWhatItReplaced(run, actions, p, k);
    if i < o { StaysSwapped(run, actions, i, actions[o].app, k, o); }
  }

  /** A rollback leaves such a manager exactly if it was one when this app replaced it, or became one
      between this app's swap and this rollback. */
  lemma LeavesAbandonedIff(run: seq<State>, actions: seq<Action>, j: nat, k: Slot) returns (i: nat)
    requires IsRun(run, actions) && j < |actions| && PutsBack(actions[j], k)
    ensures |run| == |actions| + 1 && i < j && actions[i] == Install(actions[j].app, k)
    ensures Abandoned(run, actions, j + 1, k) <==> Abandoned(run, actions, i, k) || OwnerPutsBack(run, actions, i, j, k)
  {
    hide Enabled, Apply, Initial;
    i := PutsBackWhatItReplaced(run, actions, j, k);
    var o := Origin(run, actions, i, k);
    OwnerSwappedIn(run, actions, i, k, o, i);
    OwnerSwappedIn(run, actions, i, k, o, j + 1);
    if o >= 0 {
      var b := actions[o].app;
      StaysSwapped(run, actions, o, b, k, i);
      assert forall p :: 0 <= p < j + 1 && actions[p] == PutBack(b, k) ==> p < i || i < p < j;
    }
  }

  /** While rollbacks are nested there is none. */
  lemma NestedLeavesNoneAbandoned(run: seq<State>, actions: seq<Action>, n: nat, k: Slot)
    requires IsRun(run, actions) && n <= |actions| && NestedUpTo(actions, n, k)
    ensures |run| == |actions| + 1 && !Abandoned(run, actions, n, k)
  {
    hide Enabled, Apply, Initial, NestedUpTo;
    NestedKeepsRight(run, actions, n, k);
    var o := Latest(actions, n, k, n);
    OwnerSwappedIn(run, actions, n, k, o, n);
    if o >= 0 {
      forall p | 0 <= p < n ensures actions[p] != PutBack(actions[o].app, k) {
        if actions[p] == PutBack(actions[o].app, k) { PutBackAfterSwap(run, actions, o, p, k); }
      }
    }
  }

  // ----- what may be closed and still be a default

  predicate Recalls(s: State, a: AppId, k: Slot) {
    && a in s.apps && s.apps[a].phase != Fresh
    && (s.apps[a].phase == Initialising || s.apps[a].phase == RollingBack ==> k in s.apps[a].previous)
    && s.apps[a].phase != Failed
  }

  lemma RecallsOn(s: State, x: Action, a: AppId, k: Slot)
    requires Enabled(s, x) && (x == Install(a, k) || (Recalls(s, a, k) && x != PutBack(a, k)))
    ensures Recalls(Apply(s, x), a, k)
  {
  }

  /** A failing app does not forget a swap it has not put back. */
  lemma {:induction false} InPlaceIsRecalled(run: seq<State>, actions: seq<Action>, n: nat, k: Slot, i: nat)
    requires IsRun(run, actions) && n <= |actions| && InPlace(actions, n, k, i)
    ensures Recalls(run[n], actions[i].app, k)
  {
    hide Enabled, Apply, Recalls, Initial;
    if n > i + 1 { InPlaceIsRecalled(run, actions, n - 1, k, i); }
    RecallsOn(run[n - 1], actions[n - 1], actions[i].app, k);
  }

  predicate StillItsOwn(s: State, a: AppId, k: Slot) {
    && a in s.apps
    && match s.apps[a].phase
       case Closing => true
       case Down => true
       case RollingBack => k in s.apps[a].previous
       case _ => false
  }

  /** While rollbacks are nested, a default that is closed belongs to an app that is shutting down or has
      shut down, or to one that rolls back and has yet to put this slot back: no failed Init leaves one. */
  lemma ClosedDefaults(run: seq<State>, actions: seq<Action>, n: nat, k: Slot)
    requires IsRun(run, actions) && n <= |actions| && NestedUpTo(actions, n, k) && Default(run[n], k) in run[n].closed
    ensures exists a: AppId :: OwnedBy(run[n], Default(run[n], k), a) && StillItsOwn(run[n], a, k)
  {
    hide Enabled, Apply, Initial, NestedUpTo, Inv;
    NestedKeepsRight(run, actions, n, k);
    OnlyOwnManagersAreClosed(run, actions, n, Default(run[n], k));
    var o := Latest(actions, n, k, n);
    OwnerSwappedIn(run, actions, n, k, o, n);
    InPlaceIsRecalled(run, actions, n, k, o);
  }

  // ----- what serialised Inits give

  predicate Busy(s: State, a: AppId) {
    a in s.apps && (s.apps[a].phase == Initialising || s.apps[a].phase == RollingBack)
  }

  /** At most one app initialises or rolls back at a time. */
  ghost predicate OneAtATime(run: seq<State>) {
    forall n, a: AppId, b: AppId :: 0 <= n < |run| && Busy(run[n], a) && Busy(run[n], b) ==> a == b
  }

  predicate Past(s: State, a: AppId) { a in s.apps && s.apps[a].phase != Fresh && !Busy(s, a) }

  lemma {:induction false} StaysPast(run: seq<State>, actions: seq<Action>, i: nat, n: nat, a: AppId)
    requires IsRun(run, actions) && i <= n < |run| && Past(run[i], a)
    ensures Past(run[n], a)
  {
    if i < n { StaysPast(run, actions, i, n - 1, a); }
  }

  lemma ActsBusy(s: State, x: Action)
    requires Enabled(s, x) && (x.Install? || x.PutBack?)
    ensures Busy(s, x.app)
  {
  }

  lemma OneAtATimeNests(run: seq<State>, actions: seq<Action>, k: Slot)
    requires IsRun(run, actions) && OneAtATime(run)
    ensures NestedUpTo(actions, |actions|, k)
  {
    hide Enabled, Apply, Initial;
    forall j, i, p | 0 <= i < p < j < |actions| && PutsBack(actions[j], k) && actions[i] == Install(actions[j].app, k)
      ensures !InPlace(actions, j, k, p)
    {
      if InPlace(actions, j, k, p) {
        StaysSwapped(run, actions, i, actions[j].app, k, p);
        ActsBusy(run[p], actions[p]);
        ActsBusy(run[j], actions[j]);
        assert !Busy(run[p], actions[j].app);
        StaysPast(run, actions, p, j, actions[j].app);
      }
    }
  }

  // ----- what the single steps do

  function NextPhase(s: State, a: Action, app: AppId): Phase
    requires app in s.apps
  {
    if a.app != app then s.apps[app].phase
    else match a
      case Begin(_) => Initialising
      case Commit(_) => Running
      case Fail(_) => RollingBack
      case RollbackEnds(_) => Failed
      case BeginShutdown(_) => Closing
      case ShutdownEnds(_) => Down
      case _ => s.apps[app].phase
  }

  /** A default changes by a swap, to a manager of the app that makes it, and by the swap of a rollback, to what
      that app remembers; managers are closed one by one by the app that has them. */
  predicate ProcessChanges(s: State, a: Action, t: State, k: Slot) {
    && (a.Install? && a.slot == k ==>
          a.app in t.apps && k in t.apps[a.app].managers && Default(t, k) == t.apps[a.app].managers[k])
    && (a.PutBack? && a.slot == k ==>
          a.app in s.apps && k in s.apps[a.app].previous && Default(t, k) == s.apps[a.app].previous[k])
    && (!SwapsIn(a, k) && !PutsBack(a, k) ==> Default(t, k) == Default(s, k))
    && t.closed ==
         (if a.Close? && a.app in s.apps && a.slot in s.apps[a.app].managers
          then s.closed + {s.apps[a.app].managers[a.slot]} else s.closed)
  }

  /** An app comes with its registry of rate limiters; it gets a manager with each swap, remembers what it replaced
      until it puts it back or commits, and goes through its phases. */
  predicate AppChanges(s: State, a: Action, t: State, app: AppId, k: Slot) {
    && (app in t.apps <==> app in s.apps || a == Make(app))
    && (app in s.apps && app in t.apps ==>
          var m, n := s.apps[app], t.apps[app];
          && n.phase == NextPhase(s, a, app)
          && (k in n.managers <==> k in m.managers || a == Install(app, k))
          && (k in m.managers && k in n.managers ==> n.managers[k] == m.managers[k])
          && (k in n.previous <==>
                a == Install(app, k) || (k in m.previous && a != PutBack(app, k) && a != Commit(app)))
          && (k in n.previous ==> n.previous[k] == if a == Install(app, k) then Default(s, k) else m.previous[k]))
  }

  lemma ProcessExact(s: State, a: Action, k: Slot)
    requires Enabled(s, a) && Inv(s)
    ensures ProcessChanges(s, a, Apply(s, a), k)
  {
  }

  lemma AppExact(s: State, a: Action, app: AppId, k: Slot)
    requires Enabled(s, a)
    ensures AppChanges(s, a, Apply(s, a), app, k)
  {
  }

  /** In every run: what one action does to one default, to the closed managers and to one app. */
  lemma ChangesExactly(run: seq<State>, actions: seq<Action>, i: nat, app: AppId, k: Slot)
    requires IsRun(run, actions) && i < |actions|
    ensures ProcessChanges(run[i], actions[i], run[i + 1], k)
    ensures AppChanges(run[i], actions[i], run[i + 1], app, k)
  {
    hide Enabled, Apply, Inv, ProcessChanges, AppChanges;
    RunInv(run, actions, i);
    ProcessExact(run[i], actions[i], k);
    AppExact(run[i], actions[i], app, k);
  }

  // ----- how an app ends

  /** An app that has ended has closed all its managers, and a failed one has nothing left to put back. */
  predicate EndedClean(s: State, a: AppId)
    requires a in s.apps
  {
    && (s.apps[a].phase == Failed || s.apps[a].phase == Down ==> AllClosed(s, s.apps[a]))
    && (s.apps[a].phase == Failed ==> s.apps[a].previous == map[])
  }

  lemma StepEndsClean(s: State, x: Action, a: AppId)
    requires Enabled(s, x) && (a in s.apps ==> EndedClean(s, a)) && a in Apply(s, x).apps
    ensures EndedClean(Apply(s, x), a)
  {
  }

  /** However the steps interleave. */
  lemma {:induction false} EndsClean(run: seq<State>, actions: seq<Action>, i: nat, a: AppId)
    requires IsRun(run, actions) && i < |run| && a in run[i].apps
    ensures EndedClean(run[i], a)
  {
    hide Enabled, Apply, EndedClean;
    if i > 0 {
      if a in run[i - 1].apps { EndsClean(run, actions, i - 1, a); }
      StepEndsClean(run[i - 1], actions[i - 1], a);
    }
  }

  predicate GivesUp(p: Phase) { p == RollingBack || p == Failed }

  predicate Ends(p: Phase) { p == Closing || p == Down }

  lemma StepKeepsEnd(s: State, x: Action, a: AppId)
    requires Enabled(s, x) && a in s.apps
    ensures a in Apply(s, x).apps
    ensures GivesUp(s.apps[a].phase) ==> GivesUp(Apply(s, x).apps[a].phase) && x != BeginShutdown(a) && x != Commit(a)
    ensures Ends(s.apps[a].phase) ==> Ends(Apply(s, x).apps[a].phase) && x != Fail(a) && x != Commit(a)
  {
  }

  lemma {:induction false} KeepsEnd(run: seq<State>, actions: seq<Action>, i: nat, j: nat, a: AppId)
    requires IsRun(run, actions) && i < j < |run| && (actions[i] == Fail(a) || actions[i] == BeginShutdown(a))
    ensures a in run[j].apps
    ensures if actions[i] == Fail(a) then GivesUp(run[j].apps[a].phase) else Ends(run[j].apps[a].phase)
  {
    if j > i + 1 {
      KeepsEnd(run, actions, i, j - 1, a);
      hide Apply, Enabled;
      StepKeepsEnd(run[j - 1], actions[j - 1], a);
    }
  }

  /** An app whose Init has failed is never shut down or made to run, and one that is being shut down never
      fails. */
  lemma FailsOrShutsDown(run: seq<State>, actions: seq<Action>, i: nat, j: nat, a: AppId)
    requires IsRun(run, actions) && i < j < |actions|
    ensures actions[i] == Fail(a) ==> actions[j] != BeginShutdown(a) && actions[j] != Commit(a)
    ensures actions[i] == BeginShutdown(a) ==> actions[j] != Fail(a) && actions[j] != Commit(a)
  {
    hide Apply, Enabled;
    if actions[i] == Fail(a) || actions[i] == BeginShutdown(a) {
      KeepsEnd(run, actions, i, j, a);
      StepKeepsEnd(run[j], actions[j], a);
    }
  }

  // ----- two Inits that fail while they overlap

  const START := State(map k: Slot | true :: 0, {}, 1, map[], map[])

  const BOTH_SWAP := [Make(0), Make(1), Begin(0), Begin(1), Install(0, Db), Install(1, Db)]

  function Failing(a: AppId): seq<Action> {
    [Fail(a), PutBack(a, Db), Close(a, Db), Close(a, RateLimit), RollbackEnds(a)]
  }

  lemma OneMore(run: seq<State>, actions: seq<Action>, a: Action) returns (longer: seq<State>)
    requires IsRun(run, actions) && Enabled(run[|actions|], a)
    ensures IsRun(longer, actions + [a]) && longer[|actions| + 1] == Apply(run[|actions|], a)
    ensures longer[0] == run[0]
  {
    longer := run + [Apply(run[|actions|], a)];
  }

  lemma StartRuns()
    ensures IsRun([START], [])
  {
  }

  /** Both have replaced the database: the second one found the manager of the first. */
  lemma BothSwap() returns (run: seq<State>)
    ensures IsRun(run, BOTH_SWAP) && run[0] == START
    ensures run[6] == State(
      START.slots[Db := 4], {}, 5, map[1 := 0, 2 := 1, 3 := 0, 4 := 1],
      map[0 := Member(Initialising, map[RateLimit := 1, Db := 3], map[Db := 0]),
          1 := Member(Initialising, map[RateLimit := 2, Db := 4], map[Db := 3])])
  {
    hide IsRun;
    StartRuns();
    run := [START];
    run := OneMore(run, [], Make(0));
    run := OneMore(run, [Make(0)], Make(1));
    var actions := [Make(0), Make(1)];
    assert [Make(0)] + [Make(1)] == actions;
    run := OneMore(run, actions, Begin(0));
    actions := actions + [Begin(0)];
    run := OneMore(run, actions, Begin(1));
    actions := actions + [Begin(1)];
    run := OneMore(run, actions, Install(0, Db));
    actions := actions + [Install(0, Db)];
    run := OneMore(run, actions, Install(1, Db));
    assert actions + [Install(1, Db)] == BOTH_SWAP;
  }

  /** An app that has replaced nothing but the database fails. */
  lemma FailsNow(run: seq<State>, actions: seq<Action>, a: AppId, limits: Manager, db: Manager, before: Manager)
    returns (longer: seq<State>)
    requires IsRun(run, actions) && a in run[|actions|].apps && Db in run[|actions|].slots
    requires run[|actions|].apps[a] == Member(Initialising, map[RateLimit := limits, Db := db], map[Db := before])
    ensures IsRun(longer, actions + Failing(a)) && |longer| == |actions| + 6 && longer[0] == run[0]
    ensures var s := run[|actions|];
      longer[|actions| + 5] == s.(
        slots := s.slots[Db := before], closed := s.closed + {db, limits},
        apps := s.apps[a := Member(Failed, map[RateLimit := limits, Db := db], map[])])
  {
    hide IsRun;
    longer := OneMore(run, actions, Fail(a));
    var done := actions + [Fail(a)];
    longer := OneMore(longer, done, PutBack(a, Db));
    done := done + [PutBack(a, Db)];
    assert longer[|done|].apps[a].previous == map[];
    longer := OneMore(longer, done, Close(a, Db));
    done := done + [Close(a, Db)];
    longer := OneMore(longer, done, Close(a, RateLimit));
    done := done + [Close(a, RateLimit)];
    assert AllClosed(longer[|done|], longer[|done|].apps[a]);
    longer := OneMore(longer, done, RollbackEnds(a));
    assert done + [RollbackEnds(a)] == actions + Failing(a);
  }

  /** The first to swap fails first: the second then puts back a manager that is closed already, and
      nothing is left to put anything else there. */
  lemma OverlapLeavesClosedDefault() returns (run: seq<State>)
    ensures IsRun(run, BOTH_SWAP + Failing(0) + Failing(1)) && |run| == 17
    ensures OwnedBy(run[16], Default(run[16], Db), 0) && Default(run[16], Db) in run[16].closed
    ensures forall a: AppId :: a in run[16].apps ==> run[16].apps[a].phase == Failed
  {
    hide IsRun;
    run := BothSwap();
    run := FailsNow(run, BOTH_SWAP, 0, 1, 3, 0);
    run := FailsNow(run, BOTH_SWAP + Failing(0), 1, 2, 4, 3);
  }

  /** The second to swap fails first: its swap lies between the other's swap and rollback as well, and
      every default is what it was. */
  lemma OverlapCanBeHarmless() returns (run: seq<State>)
    ensures IsRun(run, BOTH_SWAP + Failing(1) + Failing(0)) && |run| == 17
    ensures run[0] == START && run[16].slots == START.slots
    ensures forall a: AppId :: a in run[16].apps ==> run[16].apps[a].phase == Failed
  {
    hide IsRun;
    run := BothSwap();
    run := FailsNow(run, BOTH_SWAP, 1, 2, 4, 3);
    run := FailsNow(run, BOTH_SWAP + Failing(1), 0, 1, 3, 0);
  }
}
