/** The Redis rate limiter: a sorted set of admission times per key, trimmed, counted, extended and
    given an expiry by one atomic script.  Times are milliseconds.  The random suffix the script
    appends is taken to make every member new, so a member is named by the call that added it. */
module SlidingWindow {

  /** Admission times by member, and the time at which the key goes away. */
  datatype Log = Log(scores: map<nat, int>, expiry: int)

  type Logs = map<string, Log>

  /** The window in whole milliseconds: a positive window below 1 ms arrives here as 0. */
  datatype Limits = Limits(rate: nat, window: nat)

  const NANOS_PER_MILLI: int := 1_000_000

  function LimitsOf(rate: nat, windowNanos: nat): Limits {
    Limits(rate, windowNanos / NANOS_PER_MILLI)
  }

  /** What the key holds now: nothing, once its expiry has come. */
  function Stored(logs: Logs, key: string, now: int, expire: bool): map<nat, int> {
    if key !in logs || (expire && now >= logs[key].expiry) then map[] else logs[key].scores
  }

  /** Removes the scores from 0 to bound, both included. */
  function Trim(scores: map<nat, int>, bound: int): map<nat, int> {
    map m | m in scores && !(0 <= scores[m] <= bound) :: scores[m]
  }

  function Kept(logs: Logs, key: string, now: int, l: Limits, expire: bool): map<nat, int> {
    Trim(Stored(logs, key, now, expire), now - l.window)
  }

  /** 0 when the call was admitted, otherwise the number of admissions in the window. */
  function Reply(logs: Logs, key: string, now: int, l: Limits, expire: bool): nat {
    var kept := Kept(logs, key, now, l, expire);
    if |kept| < l.rate then 0 else |kept|
  }

  function AfterScript(logs: Logs, key: string, now: int, member: nat, l: Limits, expire: bool): Logs {
    var kept := Kept(logs, key, now, l, expire);
    if |kept| < l.rate then logs[key := Log(kept[member := now], now + l.window)]
    else logs[key := Log(kept, if key in logs then logs[key].expiry else now)]
  }

  /** How the round trip to Redis went. */
  datatype Outcome = NoClient | NotRun | ReplyLost | BadReply | Answered

  predicate ScriptRan(o: Outcome): (ran: bool)
    ensures ran <==> o != NoClient && o != NotRun
  {
    o == ReplyLost || o == BadReply || o == Answered
  }

  /** A limiter that fails closed refuses whenever it has no proper answer, one that fails open
      admits. */
  predicate Verdict(o: Outcome, reply: nat, failClosed: bool) {
    if o == Answered then reply == 0 else !failClosed
  }

  class RedisRateLimiter {
    const limits: Limits
    var failClosed: bool
    var logs: Logs

    constructor (l: Limits)
      ensures limits == l && !failClosed && logs == map[]
    {
      limits, failClosed, logs := l, false, map[];
    }

    /** The script, run by the server as one action. */
    method Script(key: string, now: int, member: nat) returns (reply: nat)
      modifies this`logs
      ensures reply == Reply(old(logs), key, now, limits, true)
      ensures logs == AfterScript(old(logs), key, now, member, limits, true)
    {
      var log := Log(map[], now);
      if key in logs {
        log := logs[key];
        if now >= log.expiry {
          log := log.(scores := map[]);
        }
      }
      log := log.(scores := map m | m in log.scores && !(0 <= log.scores[m] <= now - limits.window) :: log.scores[m]);
      var count := |log.scores|;
      if count < limits.rate {
        log := Log(log.scores[member := now], now + limits.window);
        reply := 0;
      } else {
        reply := count;
      }
      logs := logs[key := log];
    }

    method Allow(key: string, now: int, member: nat, outcome: Outcome) returns (allowed: bool, failed: bool)
      modifies this`logs
      ensures outcome == Answered && limits.rate > 0 ==>
        (allowed <==> |Kept(old(logs), key, now, limits, true)| < limits.rate)
      ensures outcome != Answered ==> allowed == !failClosed
      ensures allowed == Verdict(outcome, Reply(old(logs), key, now, limits, true), failClosed)
      ensures failed == (outcome != Answered && !(outcome == NoClient && !failClosed))
      ensures logs == if outcome == Answered || outcome == ReplyLost || outcome == BadReply
                      then AfterScript(old(logs), key, now, member, limits, true) else old(logs)
    {
      if outcome == NoClient {
        return !failClosed, failClosed;
      }
      if outcome == NotRun {
        return !failClosed, true;
      }
      var reply := Script(key, now, member);
      if outcome == Answered {
        return reply == 0, false;
      }
      return !failClosed, true;
    }
  }

  // ----- traces

  datatype Call = Call(key: string, at: int, outcome: Outcome, failClosed: bool)

  /** Clocks do not run backwards. */
  ghost predicate Ordered(cs: seq<Call>) {
    && (forall i :: 0 <= i < |cs| ==> cs[i].at >= 0)
    && (forall i, j :: 0 <= i < j < |cs| ==> cs[i].at <= cs[j].at)
  }

  /** The server's logs after the calls; `expire` says whether keys really expire. */
  function Run(cs: seq<Call>, l: Limits, expire: bool): Logs {
    if cs == [] then map[]
    else
      var n := |cs| - 1;
      var logs := Run(cs[..n], l, expire);
      if ScriptRan(cs[n].outcome) then AfterScript(logs, cs[n].key, cs[n].at, n, l, expire) else logs
  }

  function ReplyTo(cs: seq<Call>, i: nat, l: Limits, expire: bool): nat
    requires i < |cs|
  {
    Reply(Run(cs[..i], l, expire), cs[i].key, cs[i].at, l, expire)
  }

  /** The script ran for this call and admitted it. */
  predicate Admitted(cs: seq<Call>, i: nat, l: Limits, expire: bool)
    requires i < |cs|
  {
    ScriptRan(cs[i].outcome) && ReplyTo(cs, i, l, expire) == 0
  }

  /** The caller was told to go ahead. */
  predicate Allowed(cs: seq<Call>, i: nat, l: Limits)
    requires i < |cs|
  {
    Verdict(cs[i].outcome, ReplyTo(cs, i, l, true), cs[i].failClosed)
  }

  /** The calls admitted for the key at times in (t - window, t]. */
  function InWindow(cs: seq<Call>, key: string, t: int, l: Limits, expire: bool): set<nat> {
    set i: nat | i < |cs| && Admitted(cs, i, l, expire) && cs[i].key == key && t - l.window < cs[i].at <= t
  }

  // ----- the log is the window

  function Recent(logs: Logs, key: string, bound: int): map<nat, int> {
    if key !in logs then map[] else map m | m in logs[key].scores && logs[key].scores[m] > bound :: logs[key].scores[m]
  }

  /** Every score is a time that has been, and the expiry never comes before a score is out of the
      window. */
  ghost predicate LogsOk(logs: Logs, last: int, l: Limits) {
    forall key, m :: key in logs && m in logs[key].scores ==>
      0 <= logs[key].scores[m] <= last && logs[key].scores[m] + l.window <= logs[key].expiry
  }

  lemma {:induction false} RunOk(cs: seq<Call>, l: Limits, expire: bool)
    requires Ordered(cs)
    ensures LogsOk(Run(cs, l, expire), if cs == [] then 0 else cs[|cs| - 1].at, l)
  {
    if cs != [] {
      RunOk(cs[..|cs| - 1], l, expire);
    }
  }

  /** Trimming after expiry keeps what is recent, no more and no less. */
  lemma KeptIsRecent(logs: Logs, key: string, now: int, last: int, l: Limits, expire: bool)
    requires LogsOk(logs, last, l)
    ensures Kept(logs, key, now, l, expire) == Recent(logs, key, now - l.window)
  {
  }

  lemma RecentAfter(
    logs: Logs, key: string, now: int, member: nat, last: int, t: int, other: string, l: Limits, expire: bool)
    requires LogsOk(logs, last, l) && last <= now <= t && l.rate > 0
    ensures var after := AfterScript(logs, key, now, member, l, expire);
      var before := Recent(logs, other, t - l.window).Keys;
      Recent(after, other, t - l.window).Keys ==
        if other != key || Reply(logs, key, now, l, expire) != 0 then before
        else if t - l.window < now then before + {member}
        else before - {member}
  {
    KeptIsRecent(logs, key, now, last, l, expire);
  }

  /** Appending a call adds at most that call to a window. */
  lemma WindowOfOneMore(cs: seq<Call>, key: string, t: int, l: Limits, expire: bool)
    requires cs != []
    ensures var n := |cs| - 1;
      InWindow(cs, key, t, l, expire) == InWindow(cs[..n], key, t, l, expire)
        + if Admitted(cs, n, l, expire) && cs[n].key == key && t - l.window < cs[n].at <= t then {n} else {}
  {
    hide ReplyTo;
    var n := |cs| - 1;
    forall i: nat | i < n ensures Admitted(cs[..n], i, l, expire) == Admitted(cs, i, l, expire) {
      SameReply(cs, i, n, l, expire);
    }
  }

  lemma SameReply(cs: seq<Call>, i: nat, n: nat, l: Limits, expire: bool)
    requires i < n <= |cs|
    ensures ReplyTo(cs[..n], i, l, expire) == ReplyTo(cs, i, l, expire)
  {
    assert cs[..n][..i] == cs[..i];
  }

  lemma OrderedPrefix(cs: seq<Call>, n: nat)
    requires Ordered(cs) && n < |cs|
    ensures Ordered(cs[..n]) && 0 <= cs[n].at
    ensures n > 0 ==> cs[n - 1].at <= cs[n].at && cs[..n][n - 1] == cs[n - 1]
  {
  }

  lemma {:induction false} RecentIsWindow(cs: seq<Call>, key: string, t: int, l: Limits, expire: bool)
    requires Ordered(cs) && l.rate > 0 && (cs != [] ==> cs[|cs| - 1].at <= t)
    ensures Recent(Run(cs, l, expire), key, t - l.window).Keys == InWindow(cs, key, t, l, expire)
    decreases |cs|
  {
    if cs != [] {
      hide LogsOk, Ordered, Recent, Reply, AfterScript, InWindow;
      var n := |cs| - 1;
      var before, e := cs[..n], cs[n];
      OrderedPrefix(cs, n);
      RecentIsWindow(before, key, t, l, expire);
      WindowOfOneMore(cs, key, t, l, expire);
      RunOk(before, l, expire);
      var last := if before == [] then 0 else before[n - 1].at;
      if ScriptRan(e.outcome) {
        RecentAfter(Run(before, l, expire), e.key, e.at, n, last, t, key, l, expire);
        NotYetInWindow(before, key, t, l, expire);
      }
    } else {
      assert InWindow(cs, key, t, l, expire) == {};
    }
  }

  lemma NotYetInWindow(cs: seq<Call>, key: string, t: int, l: Limits, expire: bool)
    ensures |cs| !in InWindow(cs, key, t, l, expire)
  {
  }

  /** The number the script counts for a call is the number of calls admitted for its key in the
      window that ends with it. */
  lemma CountIsWindow(cs: seq<Call>, i: nat, l: Limits, expire: bool)
    requires Ordered(cs) && l.rate > 0 && i < |cs|
    ensures Kept(Run(cs[..i], l, expire), cs[i].key, cs[i].at, l, expire).Keys
      == InWindow(cs[..i], cs[i].key, cs[i].at, l, expire)
  {
    var before := cs[..i];
    RunOk(before, l, expire);
    RecentIsWindow(before, cs[i].key, cs[i].at, l, expire);
    KeptIsRecent(Run(before, l, expire), cs[i].key, cs[i].at, if before == [] then 0 else before[i - 1].at, l, expire);
  }

  lemma ReplyIsWindow(cs: seq<Call>, i: nat, l: Limits, expire: bool)
    requires Ordered(cs) && l.rate > 0 && i < |cs|
    ensures var n := |InWindow(cs[..i], cs[i].key, cs[i].at, l, expire)|;
      ReplyTo(cs, i, l, expire) == if n < l.rate then 0 else n
  {
    CountIsWindow(cs, i, l, expire);
    hide InWindow, Run, Kept;
    var kept := Kept(Run(cs[..i], l, expire), cs[i].key, cs[i].at, l, expire);
    assert |kept| == |kept.Keys|;
  }

  // ----- the promises

  lemma EarlierWindow(cs: seq<Call>, key: string, t: int, now: int, l: Limits, expire: bool)
    requires now <= t && forall i :: 0 <= i < |cs| ==> cs[i].at <= now
    ensures InWindow(cs, key, t, l, expire) <= InWindow(cs, key, now, l, expire)
  {
    hide Admitted;
  }

  /** Every interval (t - window, t] contains at most `rate` admissions of a key. */
  lemma {:induction false} AtMostTheRate(cs: seq<Call>, key: string, t: int, l: Limits, expire: bool)
    requires Ordered(cs) && l.rate > 0
    ensures |InWindow(cs, key, t, l, expire)| <= l.rate
    decreases |cs|
  {
    if cs == [] {
      assert InWindow(cs, key, t, l, expire) == {};
    } else {
      var n := |cs| - 1;
      var before := cs[..n];
      WindowOfOneMore(cs, key, t, l, expire);
      AtMostTheRate(before, key, t, l, expire);
      ReplyIsWindow(cs, n, l, expire);
      hide InWindow, ReplyTo;
      if Admitted(cs, n, l, expire) && cs[n].key == key && cs[n].at <= t {
        EarlierWindow(before, key, t, cs[n].at, l, expire);
        Smaller(InWindow(before, key, t, l, expire), InWindow(before, key, cs[n].at, l, expire));
      }
    }
  }

  lemma {:induction false} Smaller(a: set<nat>, b: set<nat>)
    requires a <= b
    ensures |a| <= |b|
  {
    if a != {} {
      var x :| x in a;
      Smaller(a - {x}, b - {x});
    }
  }

  /** A call whose script runs is refused exactly when the rate is already used up in the window
      that ends with it, and the count it gets back is then the rate. */
  lemma RefusedExactlyWhenFull(cs: seq<Call>, i: nat, l: Limits)
    requires Ordered(cs) && l.rate > 0 && i < |cs|
    ensures var n := |InWindow(cs[..i], cs[i].key, cs[i].at, l, true)|;
      (ReplyTo(cs, i, l, true) != 0 <==> n == l.rate) && (n == l.rate ==> ReplyTo(cs, i, l, true) == l.rate)
  {
    ReplyIsWindow(cs, i, l, true);
    AtMostTheRate(cs[..i], cs[i].key, cs[i].at, l, true);
  }

  /** A caller goes ahead exactly if, with an answer, fewer than the rate were admitted in the window that ends
      with the call; without one, if the limiter fails open. */
  lemma AllowedExactly(cs: seq<Call>, i: nat, l: Limits)
    requires Ordered(cs) && l.rate > 0 && i < |cs|
    ensures Allowed(cs, i, l) <==>
      if cs[i].outcome == Answered then |InWindow(cs[..i], cs[i].key, cs[i].at, l, true)| < l.rate
      else !cs[i].failClosed
  {
    RefusedExactlyWhenFull(cs, i, l);
    AtMostTheRate(cs[..i], cs[i].key, cs[i].at, l, true);
  }

  /** Letting keys expire changes no answer: a server that kept them for ever would say the same. */
  lemma {:induction false} ExpiryIsInvisible(cs: seq<Call>, i: nat, l: Limits)
    requires Ordered(cs) && l.rate > 0 && i < |cs|
    ensures ReplyTo(cs, i, l, true) == ReplyTo(cs, i, l, false)
    decreases i
  {
    ReplyIsWindow(cs, i, l, true);
    ReplyIsWindow(cs, i, l, false);
    var before := cs[..i];
    forall j: nat | j < i ensures Admitted(before, j, l, true) == Admitted(before, j, l, false) {
      ExpiryIsInvisible(cs, j, l);
      SameReply(cs, j, i, l, true);
      SameReply(cs, j, i, l, false);
    }
    assert InWindow(before, cs[i].key, cs[i].at, l, true) == InWindow(before, cs[i].key, cs[i].at, l, false) by {
      hide Admitted;
    }
  }

  /** If every call for the key fails closed, then whatever goes wrong between here and Redis, no
      more callers are told to go ahead in any window than the rate. */
  lemma FailClosedNeverExceeds(cs: seq<Call>, key: string, t: int, l: Limits)
    requires Ordered(cs) && l.rate > 0
    requires forall i :: 0 <= i < |cs| && cs[i].key == key ==> cs[i].failClosed
    ensures |set i: nat | i < |cs| && Allowed(cs, i, l) && cs[i].key == key && t - l.window < cs[i].at <= t| <= l.rate
  {
    var told := set i: nat | i < |cs| && Allowed(cs, i, l) && cs[i].key == key && t - l.window < cs[i].at <= t;
    assert told <= InWindow(cs, key, t, l, true) by { hide ReplyTo; }
    Smaller(told, InWindow(cs, key, t, l, true));
    AtMostTheRate(cs, key, t, l, true);
  }

  /** rate + 1 calls at the same moment. */
  function Rush(l: Limits): seq<Call> {
    seq(l.rate + 1, _ => Call("k", 0, Answered, true))
  }

  /** A limiter refuses something some time exactly if its window is at least a millisecond: with a
      shorter one, which the constructor accepts, it never limits at all. */
  lemma LimitsExactlyFromOneMilli(rate: nat, windowNanos: nat)
    requires rate > 0 && windowNanos > 0
    ensures (exists cs: seq<Call>, i: nat ::
               Ordered(cs) && i < |cs| && ReplyTo(cs, i, LimitsOf(rate, windowNanos), true) != 0)
       <==> windowNanos >= NANOS_PER_MILLI
  {
    var l := LimitsOf(rate, windowNanos);
    if windowNanos >= NANOS_PER_MILLI {
      RushIsRefused(l);
    } else {
      forall cs: seq<Call>, i: nat | Ordered(cs) && i < |cs| ensures ReplyTo(cs, i, l, true) == 0 {
        ReplyIsWindow(cs, i, l, true);
        assert InWindow(cs[..i], cs[i].key, cs[i].at, l, true) == {};
      }
    }
  }

  lemma RushFillsWindow(l: Limits)
    requires l.window > 0
    requires forall i: nat :: i < l.rate ==> ReplyTo(Rush(l), i, l, true) == 0
    ensures InWindow(Rush(l)[..l.rate], "k", 0, l, true) == Upto(l.rate)
  {
    hide ReplyTo;
    var cs := Rush(l);
    var before := cs[..l.rate];
    forall i: nat | i < l.rate ensures Admitted(before, i, l, true) { SameReply(cs, i, l.rate, l, true); }
    hide Admitted;
  }

  lemma RushIsRefused(l: Limits)
    requires l.rate > 0 && l.window > 0
    ensures exists i: nat :: i < |Rush(l)| && ReplyTo(Rush(l), i, l, true) != 0
    ensures Ordered(Rush(l))
  {
    hide ReplyTo, InWindow;
    if forall i: nat :: i < l.rate ==> ReplyTo(Rush(l), i, l, true) == 0 {
      RushFillsWindow(l);
      ReplyIsWindow(Rush(l), l.rate, l, true);
    }
  }

  function Upto(n: nat): (r: set<nat>)
    ensures |r| == n
    ensures forall i: nat :: i in r <==> i < n
  {
    if n == 0 then {} else Upto(n - 1) + {n - 1}
  }
}
