/** The distributed lock.  Redis is a clock and a map from key to token and expiry; each Lua script
    is one atomic step on it.  Times are milliseconds; tokens are taken to be new whenever a lock is
    asked for. */
module Lock {
  import opened Text

  datatype Lease = Lease(token: string, expiry: int)

  datatype Db = Db(now: int, leases: map<string, Lease>)

  /** Who holds the key: nobody, once the lease has expired. */
  function Holder(db: Db, key: string): Option<string> {
    if key in db.leases && db.now < db.leases[key].expiry then Some(db.leases[key].token) else None
  }

  // ----- the scripts

  function AfterAcquire(db: Db, key: string, token: string, ttl: int): Db {
    if Holder(db, key).None? then db.(leases := db.leases[key := Lease(token, db.now + ttl)]) else db
  }

  function AfterRelease(db: Db, key: string, token: string): Db {
    if Holder(db, key) == Some(token) then db.(leases := db.leases - {key}) else db
  }

  function AfterExtend(db: Db, key: string, token: string, ttl: int): Db {
    if Holder(db, key) == Some(token) then db.(leases := db.leases[key := Lease(token, db.now + ttl)]) else db
  }

  // ----- everything that happens to the keys

  datatype Step =
    | Acquire(key: string, token: string, ttl: int)
    | Release(key: string, token: string)
    | Extend(key: string, token: string, ttl: int)
    | Clock(now: int)

  function Do(db: Db, s: Step): Db {
    match s
    case Acquire(key, token, ttl) => AfterAcquire(db, key, token, ttl)
    case Release(key, token) => AfterRelease(db, key, token)
    case Extend(key, token, ttl) => AfterExtend(db, key, token, ttl)
    case Clock(now) => if now > db.now then db.(now := now) else db
  }

  function After(db: Db, steps: seq<Step>): Db {
    if steps == [] then db else Do(After(db, steps[..|steps| - 1]), steps[|steps| - 1])
  }

  /** Every token is asked for at most once, and none of them is in the store to begin with. */
  ghost predicate FreshTokens(db: Db, steps: seq<Step>) {
    && (forall i, j :: 0 <= i < j < |steps| && steps[i].Acquire? && steps[j].Acquire? ==>
          steps[i].token != steps[j].token)
    && (forall i, key :: 0 <= i < |steps| && steps[i].Acquire? && key in db.leases ==>
          steps[i].token != db.leases[key].token)
  }

  /** The token holds the key after the first n steps. */
  predicate HoldsAt(db: Db, steps: seq<Step>, n: nat, key: string, token: string)
    requires n <= |steps|
  {
    Holder(After(db, steps[..n]), key) == Some(token)
  }

  /** A token that does not hold the key can neither delete nor lengthen the lock of whoever does. */
  lemma LateHolderIsHarmless(db: Db, key: string, token: string, ttl: int)
    requires Holder(db, key) != Some(token)
    ensures AfterRelease(db, key, token) == db && AfterExtend(db, key, token, ttl) == db
  {
  }

  lemma AfterOneMore(db: Db, steps: seq<Step>, n: nat)
    requires n < |steps|
    ensures After(db, steps[..n + 1]) == Do(After(db, steps[..n]), steps[n])
  {
    assert steps[..n + 1][..n] == steps[..n];
  }

  lemma {:induction false} StoredTokenWasIssued(db: Db, steps: seq<Step>, n: nat, key: string)
    requires n <= |steps| && key in After(db, steps[..n]).leases
    ensures var token := After(db, steps[..n]).leases[key].token;
      (exists i :: 0 <= i < n && steps[i].Acquire? && steps[i].token == token)
      || (key in db.leases && db.leases[key].token == token)
  {
    if n > 0 {
      AfterOneMore(db, steps, n - 1);
      hide After;
      var before := After(db, steps[..n - 1]);
      if key in before.leases {
        StoredTokenWasIssued(db, steps, n - 1, key);
      }
    } else {
      assert steps[..0] == [];
    }
  }

  /** One step never hands a key to a token that is already issued and does not hold it. */
  lemma NotRegained(db: Db, s: Step, key: string, token: string)
    requires Holder(db, key) != Some(token)
    requires s.Acquire? ==> s.token != token
    ensures Holder(Do(db, s), key) != Some(token)
  {
  }

  /** The time during which a token holds a key is one interval: once lost, it never comes back.
      As a key has one holder at a time, the intervals of different tokens never overlap. */
  lemma {:induction false} OnceLostNeverRegained(
    db: Db, steps: seq<Step>, i: nat, j: nat, k: nat, key: string, token: string)
    requires FreshTokens(db, steps) && i <= j <= k <= |steps|
    requires HoldsAt(db, steps, i, key, token) && !HoldsAt(db, steps, j, key, token)
    ensures !HoldsAt(db, steps, k, key, token)
    decreases k
  {
    if j < k {
      OnceLostNeverRegained(db, steps, i, j, k - 1, key, token);
      AfterOneMore(db, steps, k - 1);
      StoredTokenWasIssued(db, steps, i, key);
      NotRegained(After(db, steps[..k - 1]), steps[k - 1], key, token);
    }
  }

  /** In every run: once a token has lost its key, a release or an extension that still arrives from it,
      however late and whoever holds the key by then, leaves the whole store as it is. */
  lemma LateHolderChangesNothing(db: Db, steps: seq<Step>, i: nat, j: nat, k: nat, key: string, token: string)
    requires FreshTokens(db, steps) && i <= j <= k < |steps|
    requires HoldsAt(db, steps, i, key, token) && !HoldsAt(db, steps, j, key, token)
    requires steps[k] == Release(key, token) || (steps[k].Extend? && steps[k].key == key && steps[k].token == token)
    ensures After(db, steps[..k + 1]) == After(db, steps[..k])
  {
    OnceLostNeverRegained(db, steps, i, j, k, key, token);
    AfterOneMore(db, steps, k);
    hide After;
    var ttl := if steps[k].Extend? then steps[k].ttl else 0;
    LateHolderIsHarmless(After(db, steps[..k]), key, token, ttl);
  }

  lemma IntervalsAreDisjoint(db: Db, steps: seq<Step>, i: nat, j: nat, k: nat, key: string, a: string, b: string)
    requires FreshTokens(db, steps) && i < j < k <= |steps| && a != b
    requires HoldsAt(db, steps, i, key, a) && HoldsAt(db, steps, j, key, b)
    ensures !HoldsAt(db, steps, k, key, a)
  {
    OnceLostNeverRegained(db, steps, i, j, k, key, a);
  }

  // ----- what a lease is worth

  /** The step neither is the holder's own release nor moves the clock to the expiry. */
  ghost predicate Spares(db: Db, s: Step, key: string, token: string)
    requires key in db.leases
  {
    s != Release(key, token) && (s.Clock? ==> s.now < db.leases[key].expiry)
    && (s.Extend? && s.key == key && s.token == token ==> s.ttl > 0)
  }

  /** Only its own release and the end of its time take the lock from its holder, and only its own
      extension moves that time. */
  lemma HeldThroughStep(db: Db, s: Step, key: string, token: string)
    requires Holder(db, key) == Some(token) && Spares(db, s, key, token)
    ensures var db' := Do(db, s);
      && Holder(db', key) == Some(token)
      && db'.leases[key].expiry ==
         (if s.Extend? && s.key == key && s.token == token then db.now + s.ttl else db.leases[key].expiry)
  {
  }

  ghost predicate SparedFrom(db: Db, steps: seq<Step>, i: nat, j: nat, key: string, token: string)
    requires i <= j <= |steps|
  {
    forall k :: i <= k < j && HoldsAt(db, steps, k, key, token) ==> Spares(After(db, steps[..k]), steps[k], key, token)
  }

  /** From the moment it has the lock until its own release, and as long as the clock stays short of
      the expiry, the token holds the key. */
  lemma {:induction false} HeldUntilReleased(db: Db, steps: seq<Step>, i: nat, j: nat, key: string, token: string)
    requires i <= j <= |steps| && HoldsAt(db, steps, i, key, token) && SparedFrom(db, steps, i, j, key, token)
    ensures HoldsAt(db, steps, j, key, token)
    decreases j
  {
    hide After;
    if i < j {
      HeldUntilReleased(db, steps, i, j - 1, key, token);
      AfterOneMore(db, steps, j - 1);
      HeldThroughStep(After(db, steps[..j - 1]), steps[j - 1], key, token);
    }
  }

  /** And meanwhile every other attempt to acquire the key leaves the store as it is. */
  lemma OthersFail(db: Db, steps: seq<Step>, i: nat, j: nat, key: string, token: string)
    requires i <= j < |steps| && HoldsAt(db, steps, i, key, token) && SparedFrom(db, steps, i, j, key, token)
    requires steps[j].Acquire? && steps[j].key == key
    ensures After(db, steps[..j + 1]) == After(db, steps[..j])
  {
    HeldUntilReleased(db, steps, i, j, key, token);
    AfterOneMore(db, steps, j);
    hide After;
  }

  /** A new token gets the key exactly if nobody holds it. */
  lemma AcquiredIff(db: Db, steps: seq<Step>, i: nat, key: string, token: string, ttl: int)
    requires FreshTokens(db, steps) && i < |steps| && steps[i] == Acquire(key, token, ttl) && ttl > 0
    ensures HoldsAt(db, steps, i + 1, key, token) <==> Holder(After(db, steps[..i]), key).None?
  {
    AfterOneMore(db, steps, i);
    if key in After(db, steps[..i]).leases { StoredTokenWasIssued(db, steps, i, key); }
    hide After;
  }

  /** The step is none of the token's own on this key. */
  predicate LeavesAlone(s: Step, key: string, token: string) {
    s != Release(key, token) && !(s.Extend? && s.key == key && s.token == token)
  }

  /** The token has the key until `end`, or its time is over. */
  predicate HasUntil(db: Db, key: string, token: string, end: int) {
    if db.now < end then key in db.leases && db.leases[key] == Lease(token, end) else Holder(db, key) != Some(token)
  }

  lemma RunsOn(db: Db, s: Step, key: string, token: string, end: int)
    requires HasUntil(db, key, token, end) && LeavesAlone(s, key, token) && (s.Acquire? ==> s.token != token)
    ensures HasUntil(Do(db, s), key, token, end)
  {
  }

  lemma {:induction false} RunsUntil(
    db: Db, steps: seq<Step>, i: nat, j: nat, key: string, token: string, ttl: int)
    requires FreshTokens(db, steps) && i < j <= |steps| && steps[i] == Acquire(key, token, ttl) && ttl > 0
    requires Holder(After(db, steps[..i]), key).None?
    requires forall k :: i < k < j ==> LeavesAlone(steps[k], key, token)
    ensures HasUntil(After(db, steps[..j]), key, token, After(db, steps[..i]).now + ttl)
  {
    AfterOneMore(db, steps, j - 1);
    hide After, HasUntil;
    if j > i + 1 {
      RunsUntil(db, steps, i, j - 1, key, token, ttl);
      RunsOn(After(db, steps[..j - 1]), steps[j - 1], key, token, After(db, steps[..i]).now + ttl);
    } else {
      JustAcquired(After(db, steps[..i]), key, token, ttl);
    }
  }

  lemma JustAcquired(db: Db, key: string, token: string, ttl: int)
    requires Holder(db, key).None? && ttl > 0
    ensures HasUntil(AfterAcquire(db, key, token, ttl), key, token, db.now + ttl)
  {
  }

  /** A lock that was granted and then neither released nor extended is held exactly until the granted time
      has passed, whatever anybody else does; from then on the key is there for another. */
  lemma HeldExactlyForItsTime(
    db: Db, steps: seq<Step>, i: nat, j: nat, key: string, token: string, ttl: int)
    requires FreshTokens(db, steps) && i < j <= |steps| && steps[i] == Acquire(key, token, ttl) && ttl > 0
    requires Holder(After(db, steps[..i]), key).None?
    requires forall k :: i < k < j ==> LeavesAlone(steps[k], key, token)
    ensures HoldsAt(db, steps, j, key, token) <==> After(db, steps[..j]).now < After(db, steps[..i]).now + ttl
  {
    RunsUntil(db, steps, i, j, key, token, ttl);
    hide After;
  }

  /** The holder's release frees the key, and no step touches another key than its own. */
  lemma ReleasedIsFree(db: Db, steps: seq<Step>, i: nat, key: string, token: string, other: string)
    requires i < |steps| && HoldsAt(db, steps, i, key, token) && steps[i] == Release(key, token) && other != key
    ensures Holder(After(db, steps[..i + 1]), key).None?
    ensures Holder(After(db, steps[..i + 1]), other) == Holder(After(db, steps[..i]), other)
  {
    AfterOneMore(db, steps, i);
    hide After;
  }

  lemma OtherKeysUntouched(db: Db, steps: seq<Step>, i: nat, other: string)
    requires i < |steps| && !steps[i].Clock? && steps[i].key != other
    ensures var before, after := After(db, steps[..i]), After(db, steps[..i + 1]);
      && after.now == before.now && (other in after.leases <==> other in before.leases)
      && (other in before.leases ==> after.leases[other] == before.leases[other])
  {
    AfterOneMore(db, steps, i);
    hide After;
  }

  predicate NobodyElse(db: Db, key: string, token: string) { Holder(db, key).None? || Holder(db, key) == Some(token) }

  lemma {:induction false} OnlyHolder(db: Db, steps: seq<Step>, i: nat, j: nat, key: string, token: string)
    requires i <= j <= |steps| && NobodyElse(After(db, steps[..i]), key, token)
    requires forall k :: i <= k < j && steps[k].Acquire? && steps[k].key == key ==> steps[k].token == token
    ensures NobodyElse(After(db, steps[..j]), key, token)
  {
    hide After, NobodyElse;
    if i < j {
      OnlyHolder(db, steps, i, j - 1, key, token);
      AfterOneMore(db, steps, j - 1);
      NobodyElseGets(After(db, steps[..j - 1]), steps[j - 1], key, token);
    }
  }

  lemma NobodyElseGets(db: Db, s: Step, key: string, token: string)
    requires NobodyElse(db, key, token) && (s.Acquire? && s.key == key ==> s.token == token)
    ensures NobodyElse(Do(db, s), key, token)
  {
  }

  /** Once the granted time of a lock that was neither released nor extended has passed, the next token that
      asks for the key gets it. */
  lemma ExpiredIsGranted(
    db: Db, steps: seq<Step>, i: nat, j: nat, key: string, token: string, ttl: int, other: string, ttl': int)
    requires FreshTokens(db, steps) && i < j < |steps| && steps[i] == Acquire(key, token, ttl) && ttl > 0
    requires Holder(After(db, steps[..i]), key).None?
    requires forall k :: i < k < j ==>
      LeavesAlone(steps[k], key, token) && !(steps[k].Acquire? && steps[k].key == key)
    requires steps[j] == Acquire(key, other, ttl') && ttl' > 0
    requires After(db, steps[..j]).now >= After(db, steps[..i]).now + ttl
    ensures HoldsAt(db, steps, j + 1, key, other)
  {
    HeldExactlyForItsTime(db, steps, i, j, key, token, ttl);
    OnlyHolder(db, steps, i, j, key, token);
    AcquiredIff(db, steps, j, key, other, ttl');
  }

  // ----- the client side

  const NANOS_PER_MILLI: int := 1_000_000

  function TtlMillis(ttlNanos: int): (r: Option<int>)
    ensures r.Some? <==> ttlNanos >= NANOS_PER_MILLI
    ensures r.Some? ==> r.value >= 1 && r.value * NANOS_PER_MILLI <= ttlNanos < (r.value + 1) * NANOS_PER_MILLI
  {
    if ttlNanos < NANOS_PER_MILLI then None else Some(ttlNanos / NANOS_PER_MILLI)
  }

  /** How a script call went: not run, run with the reply lost or of the wrong type, or answered. */
  datatype Outcome = NoClient | NotRun | ReplyLost | BadReply | Answered

  predicate Ran(o: Outcome): (ran: bool)
    ensures ran <==> o != NoClient && o != NotRun
  {
    o == ReplyLost || o == BadReply || o == Answered
  }

  datatype Error =
    | RedisNotReady | InvalidTtl | InvalidRetryInterval | NoFunction | NotHeld | NotAcquired | Cancelled | CallFailed

  datatype LockToken = LockToken(key: string, token: string)

  datatype Result<+T> = Ok(value: T) | Err(error: Error)

  /** How the function run under a lock ends. */
  datatype Ending = Returns(failed: bool) | Panics

  /** What the caller of WithLock gets: an error instead of a run, or what the function ended with. */
  datatype Finish = Refused(error: Error) | Ended(ending: Ending)

  class Redis {
    var db: Db

    method LockScript(key: string, token: string, ttl: int) returns (reply: int)
      modifies this
      ensures db == AfterAcquire(old(db), key, token, ttl)
      ensures reply == if Holder(old(db), key).None? then 1 else 0
    {
      var exists_ := key in db.leases && db.now < db.leases[key].expiry;
      if !exists_ {
        db := db.(leases := db.leases[key := Lease(token, db.now + ttl)]);
        return 1;
      }
      return 0;
    }

    method UnlockScript(key: string, token: string) returns (reply: int)
      modifies this
      ensures db == AfterRelease(old(db), key, token)
      ensures reply == if Holder(old(db), key) == Some(token) then 1 else 0
    {
      if Holder(db, key) == Some(token) {
        db := db.(leases := db.leases - {key});
        return 1;
      }
      return 0;
    }

    method ExtendScript(key: string, token: string, ttl: int) returns (reply: int)
      modifies this
      ensures db == AfterExtend(old(db), key, token, ttl)
      ensures reply == if Holder(old(db), key) == Some(token) then 1 else 0
    {
      if Holder(db, key) == Some(token) {
        db := db.(leases := db.leases[key := db.leases[key].(expiry := db.now + ttl)]);
        return 1;
      }
      return 0;
    }

    /** The rest of the world takes some steps while the client waits. */
    method Others(steps: seq<Step>)
      modifies this
      ensures db == After(old(db), steps)
    {
      var i := 0;
      while i < |steps|
        invariant 0 <= i <= |steps| && db == After(old(db), steps[..i])
      {
        AfterOneMore(old(db), steps, i);
        db := Do(db, steps[i]);
        i := i + 1;
      }
      assert steps[..i] == steps;
    }

    method NewLock(key: string, token: string, ttlNanos: int, outcome: Outcome) returns (r: Result<Option<string>>)
      modifies this
      ensures db == if ttlNanos >= NANOS_PER_MILLI && Ran(outcome)
                    then AfterAcquire(old(db), key, token, ttlNanos / NANOS_PER_MILLI) else old(db)
      ensures r == if outcome == NoClient then Err(RedisNotReady)
                   else if ttlNanos < NANOS_PER_MILLI then Err(InvalidTtl)
                   else if outcome != Answered then Err(CallFailed)
                   else Ok(if Holder(old(db), key).None? then Some(token) else None)
    {
      if outcome == NoClient {
        return Err(RedisNotReady);
      }
      var ttl := TtlMillis(ttlNanos);
      if ttl.None? {
        return Err(InvalidTtl);
      }
      if outcome == NotRun {
        return Err(CallFailed);
      }
      var reply := LockScript(key, token, ttl.value);
      if outcome != Answered {
        return Err(CallFailed);
      }
      return Ok(if reply == 1 then Some(token) else None);
    }

    /** No error means the token held the key and has given it up; whatever the answer, nobody else's
        lock is touched. */
    method Unlock(token: Option<LockToken>, outcome: Outcome) returns (error: Option<Error>)
      modifies this
      ensures db ==
        (if token.Some? && Ran(outcome) then AfterRelease(old(db), token.value.key, token.value.token) else old(db))
      ensures error.None? <==>
        token.Some? && outcome == Answered && Holder(old(db), token.value.key) == Some(token.value.token)
      ensures outcome != NoClient && (token.None? || outcome == Answered) ==> error.None? || error == Some(NotHeld)
      ensures error.None? ==> Holder(db, token.value.key).None?
    {
      if outcome == NoClient { return Some(RedisNotReady); }
      if token.None? { return Some(NotHeld); }
      if outcome == NotRun { return Some(CallFailed); }
      var reply := UnlockScript(token.value.key, token.value.token);
      if outcome != Answered { return Some(CallFailed); }
      return if reply == 0 then Some(NotHeld) else None;
    }

    /** No error means the token held the key and its lease now starts anew. */
    method ExtendLock(token: Option<LockToken>, ttlNanos: int, outcome: Outcome) returns (error: Option<Error>)
      modifies this
      ensures db == if token.Some? && ttlNanos >= NANOS_PER_MILLI && Ran(outcome)
                    then AfterExtend(old(db), token.value.key, token.value.token, ttlNanos / NANOS_PER_MILLI)
                    else old(db)
      ensures error.None? <==>
        (token.Some? && ttlNanos >= NANOS_PER_MILLI && outcome == Answered
         && Holder(old(db), token.value.key) == Some(token.value.token))
      ensures error.None? ==> Holder(db, token.value.key) == Some(token.value.token)
      ensures error.None? ==> db.leases[token.value.key].expiry == db.now + ttlNanos / NANOS_PER_MILLI
    {
      if outcome == NoClient { return Some(RedisNotReady); }
      if token.None? { return Some(NotHeld); }
      var ttl := TtlMillis(ttlNanos);
      if ttl.None? { return Some(InvalidTtl); }
      if outcome == NotRun { return Some(CallFailed); }
      var reply := ExtendScript(token.value.key, token.value.token, ttl.value);
      if outcome != Answered { return Some(CallFailed); }
      return if reply == 0 then Some(NotHeld) else None;
    }

    /** Runs a function, during which the world takes the steps `meanwhile`, under the lock.  The function
        starts only with the lock held.  Whether it returns, fails or panics, the unlock is attempted once,
        after it, and whatever the unlock says, the caller gets what the function ended with. */
    method WithLock(key: string, token: string, ttlNanos: int, hasFunction: bool, outcome: Outcome,
                    meanwhile: seq<Step>, ending: Ending, unlocking: Outcome) returns (finish: Finish)
      modifies this
      ensures finish.Ended? <==>
        hasFunction && outcome == Answered && ttlNanos >= NANOS_PER_MILLI && Holder(old(db), key).None?
      ensures finish.Ended? ==> finish.ending == ending
      ensures !hasFunction ==> finish == Refused(NoFunction) && db == old(db)
      ensures finish == Refused(NotAcquired) ==> Holder(old(db), key).Some? && db == old(db)
      ensures finish.Ended? ==>
        var locked := AfterAcquire(old(db), key, token, ttlNanos / NANOS_PER_MILLI);
        && Holder(locked, key) == Some(token)
        && db == if Ran(unlocking) then AfterRelease(After(locked, meanwhile), key, token) else After(locked, meanwhile)
      ensures finish.Ended? && Ran(unlocking) ==> Holder(db, key) != Some(token)
    {
      if !hasFunction { return Refused(NoFunction); }
      var lock := NewLock(key, token, ttlNanos, outcome);
      if lock.Err? { return Refused(lock.error); }
      if lock.value.None? { return Refused(NotAcquired); }
      Others(meanwhile);
      finish := Ended(ending);
      var _ := Unlock(Some(LockToken(key, token)), unlocking);
    }

    /** Asks for the lock up to maxRetry times.  Attempt i uses its own new token and goes as
        outcomes[i] says; after a refusal the world takes the steps waits[i], and the wait ends by
        cancellation if i is `cancelled`.  On success the returned token holds the key.  Otherwise no
        token of this call holds it, with one exception: an attempt whose reply got lost after the
        script had run, and whose lock then lasts until its time is over. */
    method TryLock(key: string, ttlNanos: int, retryInterval: int, maxRetry: int,
                   tokens: seq<string>, outcomes: seq<Outcome>, waits: seq<seq<Step>>, cancelled: Option<nat>)
      returns (r: Result<string>, attempts: nat)
      requires |tokens| == |outcomes| == |waits| && maxRetry <= |tokens|
      requires forall i, t :: 0 <= i < |tokens| && t in db.leases ==> db.leases[t].token != tokens[i]
      requires forall i, j :: 0 <= i < j < |tokens| ==> tokens[i] != tokens[j]
      requires forall i, j, k :: 0 <= i < |tokens| && 0 <= j < |waits| && 0 <= k < |waits[j]| && waits[j][k].Acquire?
                 ==> waits[j][k].token != tokens[i]
      modifies this
      ensures attempts <= maxRetry || attempts == 0
      ensures r == Err(InvalidRetryInterval) <==> retryInterval <= 0
      ensures retryInterval <= 0 ==> attempts == 0 && db == old(db)
      ensures RefusedUpTo(old(db), key, ttlNanos, outcomes, waits, attempts - 1)
      ensures forall i :: 0 <= i < attempts - 1 ==> cancelled != Some(i)
      ensures r.Ok? <==>
        (attempts > 0 && outcomes[attempts - 1] == Answered && ttlNanos >= NANOS_PER_MILLI
         && Holder(Reached(old(db), waits, attempts - 1), key).None?)
      ensures r == Err(RedisNotReady) <==> attempts > 0 && outcomes[attempts - 1] == NoClient
      ensures r == Err(InvalidTtl) <==>
        attempts > 0 && outcomes[attempts - 1] != NoClient && ttlNanos < NANOS_PER_MILLI
      ensures r == Err(CallFailed) <==>
        (attempts > 0 && ttlNanos >= NANOS_PER_MILLI
         && (outcomes[attempts - 1] == NotRun || outcomes[attempts - 1] == ReplyLost
             || outcomes[attempts - 1] == BadReply))
      ensures r == Err(Cancelled) <==>
        (attempts > 0 && cancelled == Some(attempts - 1)
         && Refusal(old(db), key, ttlNanos, outcomes, waits, attempts - 1))
      ensures r == Err(NotAcquired) <==>
        (retryInterval > 0 && attempts == (if maxRetry > 0 then maxRetry else 0)
         && RefusedUpTo(old(db), key, ttlNanos, outcomes, waits, attempts)
         && forall i :: 0 <= i < attempts ==> cancelled != Some(i))
      ensures db == Left(old(db), key, ttlNanos, tokens, outcomes, waits, attempts)
      ensures r.Ok? ==> attempts > 0 && r.value == tokens[attempts - 1]
      ensures r.Ok? ==> Holder(db, key) == Some(r.value) && db.leases[key].expiry == db.now + ttlNanos / NANOS_PER_MILLI
      ensures r.Err? ==> forall i :: 0 <= i < |tokens| && Holder(db, key) == Some(tokens[i]) ==>
                 attempts == i + 1 && ttlNanos >= NANOS_PER_MILLI
                 && (outcomes[i] == ReplyLost || outcomes[i] == BadReply)
    {
      if retryInterval <= 0 {
        NobodyHolds(db, key, tokens);
        return Err(InvalidRetryInterval), 0;
      }
      attempts := 0;
      while attempts < maxRetry
        invariant attempts <= |tokens| && (attempts <= maxRetry || attempts == 0)
        invariant NoneStored(db, tokens)
        invariant RefusedUpTo(old(db), key, ttlNanos, outcomes, waits, attempts)
        invariant db == Reached(old(db), waits, attempts)
        invariant forall i :: 0 <= i < attempts ==> cancelled != Some(i)
      {
        var i := attempts;
        attempts := attempts + 1;
        ghost var before := db;
        var lock := NewLock(key, tokens[i], ttlNanos, outcomes[i]);
        assert Refusal(old(db), key, ttlNanos, outcomes, waits, i) <==> lock == Ok(None);
        if lock.Err? {
          return Err(lock.error), attempts;
        }
        if lock.value.Some? {
          return Ok(tokens[i]), attempts;
        }
        Others(waits[i]);
        NoneAppear(before, waits[i], tokens);
        if cancelled == Some(i) {
          return Err(Cancelled), attempts;
        }
      }
      assert attempts > 0 ==> Refusal(old(db), key, ttlNanos, outcomes, waits, attempts - 1);
      return Err(NotAcquired), attempts;
    }
  }

  // ----- a row of attempts

  /** The store before attempt n, when all attempts before were refused and so changed nothing. */
  function Reached(db: Db, waits: seq<seq<Step>>, n: nat): Db
    requires n <= |waits|
  {
    if n == 0 then db else After(Reached(db, waits, n - 1), waits[n - 1])
  }

  /** Attempt i was answered and found the key held. */
  predicate Refusal(db: Db, key: string, ttlNanos: int, outcomes: seq<Outcome>, waits: seq<seq<Step>>, i: nat)
    requires i < |outcomes| == |waits|
  {
    outcomes[i] == Answered && ttlNanos >= NANOS_PER_MILLI && Holder(Reached(db, waits, i), key).Some?
  }

  ghost predicate RefusedUpTo(
    db: Db, key: string, ttlNanos: int, outcomes: seq<Outcome>, waits: seq<seq<Step>>, n: int)
    requires n <= |outcomes| == |waits|
  {
    forall i :: 0 <= i < n ==> Refusal(db, key, ttlNanos, outcomes, waits, i)
  }

  /** The store after that many attempts: a refused one waited, any other ran its script or did not. */
  function Left(db: Db, key: string, ttlNanos: int, tokens: seq<string>, outcomes: seq<Outcome>,
                waits: seq<seq<Step>>, attempts: nat): Db
    requires attempts <= |tokens| == |outcomes| == |waits|
  {
    if attempts == 0 then db
    else
      var last := attempts - 1;
      if Refusal(db, key, ttlNanos, outcomes, waits, last) then Reached(db, waits, attempts)
      else if ttlNanos >= NANOS_PER_MILLI && Ran(outcomes[last])
      then AfterAcquire(Reached(db, waits, last), key, tokens[last], ttlNanos / NANOS_PER_MILLI)
      else Reached(db, waits, last)
  }

  ghost predicate NoneStored(db: Db, tokens: seq<string>) {
    forall i, key :: 0 <= i < |tokens| && key in db.leases ==> db.leases[key].token != tokens[i]
  }

  lemma NobodyHolds(db: Db, key: string, tokens: seq<string>)
    requires NoneStored(db, tokens)
    ensures forall i :: 0 <= i < |tokens| ==> Holder(db, key) != Some(tokens[i])
  {
  }

  lemma {:induction false} NoneAppear(db: Db, steps: seq<Step>, tokens: seq<string>)
    requires NoneStored(db, tokens)
    requires forall i, k :: 0 <= i < |tokens| && 0 <= k < |steps| && steps[k].Acquire? ==> steps[k].token != tokens[i]
    ensures NoneStored(After(db, steps), tokens)
  {
    if steps != [] {
      NoneAppear(db, steps[..|steps| - 1], tokens);
    }
  }
}
