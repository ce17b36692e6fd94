/** WithLockAutoExtend after it has acquired its lock: the caller runs the business function while
    a second goroutine keeps extending the lease, and the two shut down over a stop and a finished
    channel.  Every atomic action of either, of Redis, of the context and of other clients is one
    step; requests whose caller has given up may still reach Redis at any later time. */
module AutoExtend {
  import opened Lock
  import opened Text

  /** InFunction until the business function returns or panics; then the deferred clean-up. */
  datatype Parent = InFunction | ClosingStop | AwaitingFinished | Unlocking | Returned

  datatype Child = Selecting | AwaitingReply | ClosingFinished | Gone

  datatype State = State(
    db: Db,
    cancelled: bool,          // the context
    stopCloses: nat,
    finishedCloses: nat,
    parent: Parent,
    child: Child,
    strayExtends: nat,        // extensions on their way whose sender has given up
    strayUnlock: bool,        // the same for the unlock
    unlocks: nat,             // how often Unlock was called
    unlocked: bool,           // has the unlock script run
    lastGrant: int)           // when the lease was last granted or extended

  /** Which lock, under which token, for how long. */
  datatype Config = Config(key: string, token: string, ttl: int)

  datatype Action =
    | Cancel
    | FunctionEnds
    | CloseStop
    | SeeFinished
    | UnlockServed
    | UnlockLost
    | ChildStops
    | TickerFires
    | ExtendServed
    | ExtendLost
    | CloseFinished
    | StrayExtend
    | StrayUnlock
    | Other(step: Step)       // the clock, or another client

  /** Other clients use other tokens. */
  predicate Foreign(step: Step, c: Config) {
    step.Clock? || step.token != c.token
  }

  predicate Enabled(s: State, a: Action, c: Config) {
    match a
    case Cancel => !s.cancelled
    case FunctionEnds => s.parent == InFunction
    case CloseStop => s.parent == ClosingStop
    case SeeFinished => s.parent == AwaitingFinished && s.finishedCloses > 0
    case UnlockServed => s.parent == Unlocking
    case UnlockLost => s.parent == Unlocking
    case ChildStops => s.child == Selecting && (s.cancelled || s.stopCloses > 0)
    case TickerFires => s.child == Selecting
    case ExtendServed => s.child == AwaitingReply
    case ExtendLost => s.child == AwaitingReply
    case CloseFinished => s.child == ClosingFinished
    case StrayExtend => s.strayExtends > 0
    case StrayUnlock => s.strayUnlock
    case Other(step) => Foreign(step, c)
  }

  /** The extension script runs at Redis. */
  function Extended(s: State, c: Config): State {
    s.(db := AfterExtend(s.db, c.key, c.token, c.ttl),
       lastGrant := if Holder(s.db, c.key) == Some(c.token) then s.db.now else s.lastGrant)
  }

  function UnlockedNow(s: State, c: Config): State {
    s.(db := AfterRelease(s.db, c.key, c.token), unlocked := true)
  }

  function Apply(s: State, a: Action, c: Config): State
    requires Enabled(s, a, c)
  {
    match a
    case Cancel => s.(cancelled := true)
    case FunctionEnds => s.(parent := ClosingStop)
    case CloseStop => s.(stopCloses := s.stopCloses + 1, parent := AwaitingFinished)
    case SeeFinished => s.(parent := Unlocking)
    case UnlockServed => UnlockedNow(s, c).(unlocks := s.unlocks + 1, parent := Returned)
    case UnlockLost => s.(strayUnlock := true, unlocks := s.unlocks + 1, parent := Returned)
    case ChildStops => s.(child := ClosingFinished)
    case TickerFires => s.(child := AwaitingReply)
    case ExtendServed =>
      Extended(s, c).(child := if Holder(s.db, c.key) == Some(c.token) then Selecting else ClosingFinished)
    case ExtendLost => s.(strayExtends := s.strayExtends + 1, child := ClosingFinished)
    case CloseFinished => s.(finishedCloses := s.finishedCloses + 1, child := Gone)
    case StrayExtend => Extended(s, c).(strayExtends := s.strayExtends - 1)
    case StrayUnlock => UnlockedNow(s, c).(strayUnlock := false)
    case Other(step) => s.(db := Do(s.db, step))
  }

  /** The lock has just been acquired, both channels are open and nothing is under way. */
  predicate Initial(s: State, c: Config) {
    && c.ttl > 0 && Holder(s.db, c.key) == Some(c.token) && s.db.leases[c.key] == Lease(c.token, s.db.now + c.ttl)
    && (forall k :: k in s.db.leases && k != c.key ==> s.db.leases[k].token != c.token)
    && s.stopCloses == 0 && s.finishedCloses == 0 && s.parent == InFunction && s.child == Selecting
    && s.strayExtends == 0 && !s.strayUnlock && s.unlocks == 0 && !s.unlocked && s.lastGrant == s.db.now
  }

  /** Each channel is closed once and by its owner; Unlock is called once, when the child is gone. */
  predicate HandshakeOk(s: State) {
    && s.stopCloses == (if s.parent == InFunction || s.parent == ClosingStop then 0 else 1)
    && s.finishedCloses == (if s.child == Gone then 1 else 0)
    && (s.parent == Unlocking || s.parent == Returned ==> s.child == Gone)
    && s.unlocks == (if s.parent == Returned then 1 else 0)
    && (s.unlocked || s.strayUnlock ==> s.parent == Returned)
  }

  /** The token is stored under its own key only; not after the unlock has run; and a lease of it
      runs from its last grant. */
  predicate LeaseOk(s: State, c: Config) {
    && c.ttl > 0
    && (c.key in s.db.leases && s.db.leases[c.key].token == c.token ==>
          s.db.leases[c.key].expiry == s.lastGrant + c.ttl)
    && (s.unlocked ==> Holder(s.db, c.key) != Some(c.token))
  }

  lemma StepKeepsHandshake(s: State, a: Action, c: Config)
    requires Enabled(s, a, c) && HandshakeOk(s)
    ensures HandshakeOk(Apply(s, a, c))
  {
    hide Do, AfterExtend, AfterRelease, Holder;
  }

  lemma StepKeepsLease(s: State, a: Action, c: Config)
    requires Enabled(s, a, c) && HandshakeOk(s) && LeaseOk(s, c)
    ensures LeaseOk(Apply(s, a, c), c)
  {
    if a.Other? { OtherKeepsLease(s, a.step, c); }
  }

  lemma OtherKeepsLease(s: State, step: Step, c: Config)
    requires Foreign(step, c) && LeaseOk(s, c)
    ensures LeaseOk(s.(db := Do(s.db, step)), c)
  {
  }

  ghost predicate IsRun(run: seq<State>, actions: seq<Action>, c: Config) {
    && |run| == |actions| + 1 && Initial(run[0], c)
    && forall i :: 0 <= i < |actions| ==> Enabled(run[i], actions[i], c) && run[i + 1] == Apply(run[i], actions[i], c)
  }

  lemma {:induction false} RunOk(run: seq<State>, actions: seq<Action>, c: Config, i: nat)
    requires IsRun(run, actions, c) && i < |run|
    ensures HandshakeOk(run[i]) && LeaseOk(run[i], c)
  {
    hide Apply, Enabled;
    if i > 0 {
      RunOk(run, actions, c, i - 1);
      StepKeepsHandshake(run[i - 1], actions[i - 1], c);
      StepKeepsLease(run[i - 1], actions[i - 1], c);
    }
  }

  /** However the function ends, whatever gets cancelled or fails: no channel is ever closed twice,
      when the call has returned each has been closed once and Unlock has been called once, and it is
      called only after the extending goroutine has exited. */
  lemma ShutsDownOnce(run: seq<State>, actions: seq<Action>, c: Config, i: nat)
    requires IsRun(run, actions, c) && i < |run|
    ensures run[i].stopCloses <= 1 && run[i].finishedCloses <= 1 && run[i].unlocks <= 1
    ensures run[i].parent == Returned ==> run[i].stopCloses == 1 && run[i].finishedCloses == 1 && run[i].unlocks == 1
    ensures i < |actions| && (actions[i] == UnlockServed || actions[i] == UnlockLost) ==>
      run[i].child == Gone && run[i].unlocks == 0
  {
    RunOk(run, actions, c, i);
  }

  /** Once the unlock has run at Redis, an extension that still arrives finds nothing to extend. */
  lemma NoExtensionAfterUnlock(run: seq<State>, actions: seq<Action>, c: Config, i: nat)
    requires IsRun(run, actions, c) && i < |actions| && run[i].unlocked
    requires actions[i] == ExtendServed || actions[i] == StrayExtend
    ensures run[i + 1].db == run[i].db
  {
    RunOk(run, actions, c, i);
  }

  predicate OwnAction(a: Action) {
    a == FunctionEnds || a == CloseStop || a == SeeFinished || a == UnlockServed
    || a == ChildStops || a == ExtendServed || a == CloseFinished
  }

  /** No reachable state is stuck: until the call has returned, the caller or the child has an action
      of its own to take, and once the function has ended one that brings the return nearer. */
  lemma NeverStuck(run: seq<State>, actions: seq<Action>, c: Config, i: nat)
    requires IsRun(run, actions, c) && i < |run| && run[i].parent != Returned
    ensures exists a :: OwnAction(a) && Enabled(run[i], a, c) && Advances(run[i], a, c)
  {
    RunOk(run, actions, c, i);
    var s := run[i];
    var a :=
      if s.parent == InFunction then FunctionEnds
      else if s.parent == ClosingStop then CloseStop
      else if s.parent == Unlocking then UnlockServed
      else if s.finishedCloses > 0 then SeeFinished
      else if s.child == Selecting then ChildStops
      else if s.child == AwaitingReply then ExtendServed
      else CloseFinished;
    assert OwnAction(a) && Enabled(s, a, c) && Advances(s, a, c);
  }

  predicate Advances(s: State, a: Action, c: Config)
    requires Enabled(s, a, c)
  {
    s.parent != InFunction ==> Remaining(Apply(s, a, c)) < Remaining(s)
  }

  /** Actions still to be taken before the call returns, once the function has ended. */
  function Remaining(s: State): nat {
    (match s.parent
     case InFunction => 5
     case ClosingStop => 4
     case AwaitingFinished => 3
     case Unlocking => 2
     case Returned => 1)
    + (match s.child case AwaitingReply => 3 case Selecting => 2 case ClosingFinished => 1 case Gone => 0)
  }

  // ----- in time

  /** Every extension reaches Redis less than a lease after the last grant: the clock never gets as
      far as the expiry before the unlock has run. */
  ghost predicate Timely(run: seq<State>, actions: seq<Action>, c: Config, n: nat)
    requires n <= |actions| < |run|
  {
    forall i :: 0 <= i < n && !run[i].unlocked && actions[i].Other? && actions[i].step.Clock?
      ==> actions[i].step.now < run[i].lastGrant + c.ttl
  }

  /** Then the lock is held without a gap until its own Unlock. */
  lemma {:induction false} HeldWhileTimely(run: seq<State>, actions: seq<Action>, c: Config, i: nat)
    requires IsRun(run, actions, c) && i <= |actions| && Timely(run, actions, c, i)
    requires !run[i].unlocked
    ensures Holder(run[i].db, c.key) == Some(c.token)
  {
    if i > 0 {
      RunOk(run, actions, c, i - 1);
      TimelyStep(run[i - 1], actions[i - 1], c);
      HeldWhileTimely(run, actions, c, i - 1);
      HoldingStep(run[i - 1], actions[i - 1], c);
    }
  }

  lemma TimelyStep(s: State, a: Action, c: Config)
    requires Enabled(s, a, c) && !Apply(s, a, c).unlocked
    ensures !s.unlocked
  {
  }

  lemma HoldingStep(s: State, a: Action, c: Config)
    requires Enabled(s, a, c) && LeaseOk(s, c) && !Apply(s, a, c).unlocked
    requires Holder(s.db, c.key) == Some(c.token)
    requires a.Other? && a.step.Clock? ==> a.step.now < s.lastGrant + c.ttl
    ensures Holder(Apply(s, a, c).db, c.key) == Some(c.token)
  {
  }

  /** And nobody else's attempt to acquire the key succeeds meanwhile. */
  lemma NobodyElseGetsIn(run: seq<State>, actions: seq<Action>, c: Config, i: nat)
    requires IsRun(run, actions, c) && i < |actions| && Timely(run, actions, c, i)
    requires !run[i].unlocked && actions[i].Other? && actions[i].step.Acquire? && actions[i].step.key == c.key
    ensures run[i + 1].db == run[i].db
  {
    HeldWhileTimely(run, actions, c, i);
  }

  // ----- what the single steps do

  predicate StillExtending(s: State) { s.child == Selecting || s.child == AwaitingReply }

  /** What ends the extending: a stop or a cancellation that the child sees, or an extension without success. */
  predicate Quits(s: State, a: Action, c: Config) {
    || (a == ChildStops && (s.cancelled || s.stopCloses > 0))
    || a == ExtendLost
    || (a == ExtendServed && Holder(s.db, c.key) != Some(c.token))
  }

  /** In every run: the child goes on extending until one of these, and no longer. */
  lemma {:induction false} ExtendsExactlyUntil(run: seq<State>, actions: seq<Action>, c: Config, j: nat)
    requires IsRun(run, actions, c) && j < |run|
    ensures StillExtending(run[j]) <==> forall i :: 0 <= i < j ==> !Quits(run[i], actions[i], c)
  {
    if j > 0 {
      ExtendsExactlyUntil(run, actions, c, j - 1);
      QuitsExactly(run[j - 1], actions[j - 1], c);
    }
  }

  lemma QuitsExactly(s: State, a: Action, c: Config)
    requires Enabled(s, a, c)
    ensures StillExtending(Apply(s, a, c)) <==> StillExtending(s) && !Quits(s, a, c)
  {
    hide Do, AfterExtend, AfterRelease;
  }

  /** Redis changes by an extension, a release or a step of somebody else, and by nothing else. */
  predicate StoreChanges(s: State, a: Action, c: Config, t: State) {
    match a
    case ExtendServed => t.db == WithLease(s.db, c)
    case StrayExtend => t.db == WithLease(s.db, c)
    case UnlockServed => t.db == WithoutLease(s.db, c)
    case StrayUnlock => t.db == WithoutLease(s.db, c)
    case Other(step) => t.db == Do(s.db, step)
    case _ => t.db == s.db
  }

  predicate OwnsKey(db: Db, c: Config) {
    c.key in db.leases && db.now < db.leases[c.key].expiry && db.leases[c.key].token == c.token
  }

  function WithLease(db: Db, c: Config): Db {
    if OwnsKey(db, c) then db.(leases := db.leases[c.key := Lease(c.token, db.now + c.ttl)]) else db
  }

  function WithoutLease(db: Db, c: Config): Db {
    if OwnsKey(db, c) then db.(leases := db.leases - {c.key}) else db
  }

  /** The caller goes from the function's end over the stop and the finished signal to its one unlock; the
      child from a tick to a request and back. */
  predicate RolesChange(s: State, a: Action, t: State) {
    && (t.cancelled <==> s.cancelled || a == Cancel)
    && t.parent == (match a
                    case FunctionEnds => ClosingStop
                    case CloseStop => AwaitingFinished
                    case SeeFinished => Unlocking
                    case UnlockServed => Returned
                    case UnlockLost => Returned
                    case _ => s.parent)
    && (a == TickerFires ==> t.child == AwaitingReply)
    && (a == CloseFinished ==> t.child == Gone)
    && t.strayExtends == (if a == ExtendLost then s.strayExtends + 1
                          else if a == StrayExtend then s.strayExtends - 1 else s.strayExtends)
    && (t.strayUnlock <==> a == UnlockLost || (s.strayUnlock && a != StrayUnlock))
    && (t.unlocked <==> a == UnlockServed || a == StrayUnlock || s.unlocked)
  }

  /** In every run: what one action does to Redis, the caller and the child; an extension that is answered
      while the lock is held renews it for the full time. */
  lemma ChangesExactly(run: seq<State>, actions: seq<Action>, c: Config, i: nat)
    requires IsRun(run, actions, c) && i < |actions|
    ensures StoreChanges(run[i], actions[i], c, run[i + 1]) && RolesChange(run[i], actions[i], run[i + 1])
    ensures actions[i] == ExtendServed && Holder(run[i].db, c.key) == Some(c.token) ==>
      && run[i + 1].child == Selecting
      && run[i + 1].db.leases[c.key] == Lease(c.token, run[i].db.now + c.ttl)
  {
    StoreExact(run[i], actions[i], c);
    RolesExact(run[i], actions[i], c);
    hide StoreChanges, RolesChange, Do, AfterRelease;
  }

  lemma StoreExact(s: State, a: Action, c: Config)
    requires Enabled(s, a, c)
    ensures StoreChanges(s, a, c, Apply(s, a, c))
  {
    hide Do;
  }

  lemma RolesExact(s: State, a: Action, c: Config)
    requires Enabled(s, a, c)
    ensures RolesChange(s, a, Apply(s, a, c))
  {
    hide Do, AfterExtend, AfterRelease, Holder;
  }

  // ----- a run in which everything happens

  const ONE_LOCK := Config("k", "t", 100)

  const JUST_LOCKED :=
    State(Db(0, map["k" := Lease("t", 100)]), false, 0, 0, InFunction, Selecting, 0, false, 0, false, 0)

  const EXTENDING: seq<Action> :=
    [Other(Clock(60)), TickerFires, ExtendServed]

  const UNLOCKING: seq<Action> :=
    EXTENDING
    + [FunctionEnds, CloseStop, ChildStops, CloseFinished, SeeFinished, UnlockServed]

  const EXTENDED_ONCE := JUST_LOCKED.(db := Db(60, map["k" := Lease("t", 160)]), lastGrant := 60)

  const AT_REST := EXTENDED_ONCE.(
    db := Db(60, map[]), stopCloses := 1, finishedCloses := 1, parent := Returned, child := Gone, unlocks := 1,
    unlocked := true)

  lemma OneMore(run: seq<State>, actions: seq<Action>, c: Config, a: Action)
    returns (longer: seq<State>)
    requires IsRun(run, actions, c) && Enabled(run[|actions|], a, c)
    ensures IsRun(longer, actions + [a], c) && longer[|actions| + 1] == Apply(run[|actions|], a, c)
  {
    longer := run + [Apply(run[|actions|], a, c)];
  }

  lemma JustLockedRuns()
    ensures IsRun([JUST_LOCKED], [], ONE_LOCK)
  {
  }

  lemma ExtendsOnce() returns (run: seq<State>)
    ensures IsRun(run, EXTENDING, ONE_LOCK) && run[|EXTENDING|] == EXTENDED_ONCE
  {
    hide IsRun;
    JustLockedRuns();
    run := [JUST_LOCKED];
    var done: seq<Action> := [];
    run := OneMore(run, done, ONE_LOCK, Other(Clock(60)));
    done := done + [Other(Clock(60))];
    run := OneMore(run, done, ONE_LOCK, TickerFires);
    done := done + [TickerFires];
    run := OneMore(run, done, ONE_LOCK, ExtendServed);
    done := done + [ExtendServed];
    assert done == EXTENDING;
  }

  /** The lock is extended while the function runs, the function returns, and the lock is gone. */
  lemma WholeLife() returns (run: seq<State>)
    ensures IsRun(run, UNLOCKING, ONE_LOCK) && run[|UNLOCKING|] == AT_REST
  {
    hide IsRun;
    run := ExtendsOnce();
    var done: seq<Action> := EXTENDING;
    run := OneMore(run, done, ONE_LOCK, FunctionEnds);
    done := done + [FunctionEnds];
    run := OneMore(run, done, ONE_LOCK, CloseStop);
    done := done + [CloseStop];
    run := OneMore(run, done, ONE_LOCK, ChildStops);
    done := done + [ChildStops];
    run := OneMore(run, done, ONE_LOCK, CloseFinished);
    done := done + [CloseFinished];
    run := OneMore(run, done, ONE_LOCK, SeeFinished);
    done := done + [SeeFinished];
    run := OneMore(run, done, ONE_LOCK, UnlockServed);
    done := done + [UnlockServed];
    assert done == UNLOCKING;
  }
}
