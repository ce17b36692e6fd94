/** The in-memory rate limiter: one fixed window per client, opened by a request and never moved
    while it lasts, and a background pass that forgets clients whose window is over. */
module FixedWindow {

  datatype Visitor = Visitor(windowStart: int, count: nat)

  type Visitors = map<string, Visitor>

  /** rate and window are positive: the constructor refuses anything else. */
  datatype Limits = Limits(rate: nat, window: nat)

  predicate ValidLimits(l: Limits) { l.rate > 0 && l.window > 0 }

  predicate Expired(v: Visitor, now: int, l: Limits) { now - v.windowStart > l.window }

  predicate Allowed(vs: Visitors, ip: string, now: int, l: Limits) {
    ip !in vs || Expired(vs[ip], now, l) || vs[ip].count < l.rate
  }

  function AfterRequest(vs: Visitors, ip: string, now: int, l: Limits): Visitors {
    if ip !in vs || Expired(vs[ip], now, l) then vs[ip := Visitor(now, 1)]
    else if vs[ip].count < l.rate then vs[ip := vs[ip].(count := vs[ip].count + 1)]
    else vs
  }

  function AfterSweep(vs: Visitors, ip: string, now: int, l: Limits): Visitors {
    if ip in vs && Expired(vs[ip], now, l) then vs - {ip} else vs
  }

  function SweepAll(vs: Visitors, ips: seq<string>, times: seq<int>, l: Limits): Visitors
    requires |ips| == |times|
  {
    if ips == [] then vs
    else
      var n := |ips| - 1;
      AfterSweep(SweepAll(vs, ips[..n], times[..n], l), ips[n], times[n], l)
  }

  /** A pass forgets exactly the clients whose window it finds over when it looks at them, and leaves the
      records of all others alone. */
  lemma {:induction false} SweptExactly(vs: Visitors, ips: seq<string>, times: seq<int>, l: Limits)
    requires |ips| == |times|
    ensures var ws := SweepAll(vs, ips, times, l);
      && (forall ip :: ip in ws <==>
            (ip in vs && forall j :: 0 <= j < |ips| && ips[j] == ip ==> times[j] - vs[ip].windowStart <= l.window))
      && (forall ip :: ip in ws ==> ws[ip] == vs[ip])
  {
    if ips != [] {
      var n := |ips| - 1;
      SweptExactly(vs, ips[..n], times[..n], l);
      assert forall j :: 0 <= j < n ==> ips[..n][j] == ips[j] && times[..n][j] == times[j];
    }
  }

  class RateLimiter {
    const limits: Limits
    var visitors: Visitors

    constructor (l: Limits)
      requires ValidLimits(l)
      ensures limits == l && visitors == map[]
    {
      limits, visitors := l, map[];
    }

    method Allow(ip: string, now: int) returns (allowed: bool)
      modifies this
      ensures allowed == Allowed(old(visitors), ip, now, limits)
      ensures visitors == AfterRequest(old(visitors), ip, now, limits)
    {
      if ip !in visitors {
        visitors := visitors[ip := Visitor(now, 1)];
        return true;
      }
      var v := visitors[ip];
      if now - v.windowStart > limits.window {
        visitors := visitors[ip := Visitor(now, 1)];
        return true;
      }
      if v.count >= limits.rate {
        return false;
      }
      visitors := visitors[ip := v.(count := v.count + 1)];
      return true;
    }

    /** One pass of the cleanup loop; the clock is read anew for every client it looks at. */
    method Cleanup(ips: seq<string>, times: seq<int>)
      requires |ips| == |times|
      modifies this
      ensures visitors == SweepAll(old(visitors), ips, times, limits)
      ensures forall ip :: ip in visitors <==>
        (ip in old(visitors)
         && forall j :: 0 <= j < |ips| && ips[j] == ip ==> times[j] - old(visitors)[ip].windowStart <= limits.window)
      ensures forall ip :: ip in visitors ==> visitors[ip] == old(visitors)[ip]
    {
      var i := 0;
      while i < |ips|
        invariant 0 <= i <= |ips|
        invariant visitors == SweepAll(old(visitors), ips[..i], times[..i], limits)
      {
        var ip := ips[i];
        assert ips[..i + 1][..i] == ips[..i] && times[..i + 1][..i] == times[..i];
        if ip in visitors && times[i] - visitors[ip].windowStart > limits.window {
          visitors := visitors - {ip};
        }
        i := i + 1;
      }
      assert ips[..i] == ips && times[..i] == times;
      SweptExactly(old(visitors), ips, times, limits);
    }
  }

  // ----- traces

  /** What can happen to a limiter: a request, or the cleanup loop looking at one client. */
  datatype Event = Request(ip: string, at: int) | Sweep(ip: string, at: int)

  ghost predicate Ordered(es: seq<Event>) {
    forall i, j :: 0 <= i < j < |es| ==> es[i].at <= es[j].at
  }

  /** The records after a trace; `forget` says whether the cleanup loop really deletes. */
  function Run(es: seq<Event>, l: Limits, forget: bool): Visitors {
    if es == [] then map[]
    else
      var n := |es| - 1;
      var vs := Run(es[..n], l, forget);
      match es[n]
      case Request(ip, at) => AfterRequest(vs, ip, at, l)
      case Sweep(ip, at) => if forget then AfterSweep(vs, ip, at, l) else vs
  }

  /** In every trace: a look of the cleanup loop forgets its client exactly if the window is over by then. */
  lemma SweepForgets(es: seq<Event>, i: nat, ip: string, l: Limits)
    requires i < |es| && es[i].Sweep?
    ensures var vs, ws := Run(es[..i], l, true), Run(es[..i + 1], l, true);
      && (ip in ws <==> ip in vs && !(es[i].ip == ip && es[i].at - vs[ip].windowStart > l.window))
      && (ip in ws ==> ws[ip] == vs[ip])
  {
    assert es[..i + 1][..i] == es[..i];
  }

  /** The limiter's answer to the i-th event, a request. */
  predicate Answer(es: seq<Event>, i: nat, l: Limits, forget: bool)
    requires i < |es|
  {
    Allowed(Run(es[..i], l, forget), es[i].ip, es[i].at, l)
  }

  /** Is the last event an admitted request of this client between a and b? */
  predicate LastAdmitted(es: seq<Event>, ip: string, a: int, b: int, l: Limits, forget: bool)
    requires es != []
  {
    var i := |es| - 1;
    es[i].Request? && es[i].ip == ip && a <= es[i].at <= b && Answer(es, i, l, forget)
  }

  /** How many requests of the client were admitted between times a and b, both included. */
  function Admitted(es: seq<Event>, ip: string, a: int, b: int, l: Limits, forget: bool): nat {
    if es == [] then 0
    else Admitted(es[..|es| - 1], ip, a, b, l, forget) + if LastAdmitted(es, ip, a, b, l, forget) then 1 else 0
  }

  /** How many requests the client sent between times a and b, both included. */
  function Sent(es: seq<Event>, ip: string, a: int, b: int): nat {
    if es == [] then 0
    else
      var e := es[|es| - 1];
      Sent(es[..|es| - 1], ip, a, b) + if e.Request? && e.ip == ip && a <= e.at <= b then 1 else 0
  }

  // ----- forgetting is invisible

  /** The forgetful records and the full ones agree on everything that is not over at time t. */
  ghost predicate Agree(some: Visitors, all: Visitors, t: int, l: Limits) {
    && (forall ip :: ip in some ==> ip in all && all[ip] == some[ip])
    && (forall ip :: ip in all && ip !in some ==> Expired(all[ip], t, l))
  }

  lemma {:induction false} ForgettingAgrees(es: seq<Event>, l: Limits, t: int)
    requires Ordered(es) && (es != [] ==> es[|es| - 1].at <= t)
    ensures Agree(Run(es, l, true), Run(es, l, false), t, l)
  {
    if es != [] {
      var n := |es| - 1;
      ForgettingAgrees(es[..n], l, es[n].at);
    }
  }

  /** Whatever the cleanup loop deletes and whenever it runs, every answer is the one a limiter
      that remembers every client for ever would give. */
  lemma SweepsAreInvisible(es: seq<Event>, i: nat, l: Limits)
    requires Ordered(es) && i < |es|
    ensures Answer(es, i, l, true) == Answer(es, i, l, false)
  {
    ForgettingAgrees(es[..i], l, es[i].at);
  }

  lemma {:induction false} SameAdmissions(es: seq<Event>, ip: string, a: int, b: int, l: Limits)
    requires Ordered(es)
    ensures Admitted(es, ip, a, b, l, true) == Admitted(es, ip, a, b, l, false)
  {
    if es != [] {
      SameAdmissions(es[..|es| - 1], ip, a, b, l);
      SweepsAreInvisible(es, |es| - 1, l);
    }
  }

  // ----- how much gets through

  lemma {:induction false} NoneBefore(es: seq<Event>, ip: string, a: int, b: int, l: Limits, forget: bool)
    requires forall i :: 0 <= i < |es| ==> es[i].at < a
    ensures Admitted(es, ip, a, b, l, forget) == 0
  {
    if es != [] { NoneBefore(es[..|es| - 1], ip, a, b, l, forget); }
  }

  /** What the current window of the client says about the admissions between a and b so far. */
  ghost predicate WindowBound(v: Visitor, admitted: nat, a: int, b: int, l: Limits) {
    && 1 <= v.count <= l.rate
    && (v.windowStart < a ==> admitted <= v.count - 1)
    && (a <= v.windowStart <= b ==> admitted <= l.rate - 1 + v.count)
    && (b < v.windowStart ==> admitted <= 2 * l.rate - 1)
  }

  lemma {:induction false} WindowBounds(es: seq<Event>, ip: string, a: int, b: int, l: Limits)
    requires ValidLimits(l) && Ordered(es) && a <= b <= a + l.window
    ensures var vs, admitted := Run(es, l, false), Admitted(es, ip, a, b, l, false);
      if ip in vs then vs[ip].windowStart <= es[|es| - 1].at && WindowBound(vs[ip], admitted, a, b, l)
      else admitted == 0
  {
    if es != [] {
      var n := |es| - 1;
      WindowBounds(es[..n], ip, a, b, l);
      if es[n].at < a { NoneBefore(es, ip, a, b, l, false); }
    }
  }

  /** No interval as long as the window lets through more than twice the rate, less one. */
  lemma AtMostTwiceTheRate(es: seq<Event>, ip: string, a: int, b: int, l: Limits)
    requires ValidLimits(l) && Ordered(es) && a <= b <= a + l.window
    ensures Admitted(es, ip, a, b, l, true) <= 2 * l.rate - 1
  {
    SameAdmissions(es, ip, a, b, l);
    WindowBounds(es, ip, a, b, l);
  }

  function Burst(ip: string, at: int, n: nat): seq<Event> {
    seq(n, _ => Request(ip, at))
  }

  /** One request opens the window, the rest of its rate comes at its very end, and a full rate
      right after it. */
  function Boundary(ip: string, l: Limits): seq<Event>
    requires ValidLimits(l)
  {
    [Request(ip, 0)] + Burst(ip, l.window, l.rate - 1) + Burst(ip, l.window + 1, l.rate)
  }

  lemma OneRequest(es: seq<Event>, ip: string, at: int, a: int, b: int, l: Limits)
    requires a <= at <= b
    ensures var all := es + [Request(ip, at)];
      && Run(all, l, true) == AfterRequest(Run(es, l, true), ip, at, l)
      && Admitted(all, ip, a, b, l, true)
           == Admitted(es, ip, a, b, l, true) + if Allowed(Run(es, l, true), ip, at, l) then 1 else 0
  {
    var all := es + [Request(ip, at)];
    assert all[..|es|] == es;
  }

  lemma {:induction false} BurstAdmitted(es: seq<Event>, ip: string, at: int, n: nat, a: int, b: int, l: Limits)
    requires a <= at <= b
    requires var vs := Run(es, l, true);
      if ip in vs && !Expired(vs[ip], at, l) then vs[ip].count + n <= l.rate else 1 <= n <= l.rate
    ensures Admitted(es + Burst(ip, at, n), ip, a, b, l, true) == Admitted(es, ip, a, b, l, true) + n
    ensures var vs, ws := Run(es, l, true), Run(es + Burst(ip, at, n), l, true);
      ip in ws
      && ws[ip] == (if ip in vs && !Expired(vs[ip], at, l) then vs[ip].(count := vs[ip].count + n) else Visitor(at, n))
    decreases n
  {
    hide Run, Admitted;
    if n == 0 {
      assert es + Burst(ip, at, 0) == es;
    } else {
      var before := es + Burst(ip, at, n - 1);
      assert es + Burst(ip, at, n) == before + [Request(ip, at)];
      OneRequest(before, ip, at, a, b, l);
      if n == 1 {
        assert before == es;
      } else {
        BurstAdmitted(es, ip, at, n - 1, a, b, l);
      }
    }
  }

  /** The bound is exact: for every rate and window some trace reaches it. */
  lemma TwiceTheRateIsReached(ip: string, l: Limits)
    requires ValidLimits(l)
    ensures Ordered(Boundary(ip, l))
    ensures Admitted(Boundary(ip, l), ip, l.window, l.window + 1, l, true) == 2 * l.rate - 1
  {
    var w := l.window;
    var first := [Request(ip, 0)];
    assert first[..0] == [];
    assert Run(first, l, true) == map[ip := Visitor(0, 1)];
    assert Admitted(first, ip, w, w + 1, l, true) == 0;
    BurstAdmitted(first, ip, w, l.rate - 1, w, w + 1, l);
    BurstAdmitted(first + Burst(ip, w, l.rate - 1), ip, w + 1, l.rate, w, w + 1, l);
  }

  // ----- who gets refused

  lemma {:induction false} CountedRequestsWereSent(es: seq<Event>, ip: string, t: int, l: Limits)
    requires Ordered(es) && (es != [] ==> es[|es| - 1].at <= t)
    ensures var vs := Run(es, l, false);
      ip in vs ==>
        && es != [] && vs[ip].windowStart <= es[|es| - 1].at
        && vs[ip].count <= Sent(es, ip, vs[ip].windowStart, t)
  {
    if es != [] {
      var n := |es| - 1;
      CountedRequestsWereSent(es[..n], ip, t, l);
    }
  }

  ghost predicate Modest(es: seq<Event>, ip: string, l: Limits) {
    forall a, b {:trigger Sent(es, ip, a, b)} :: a <= b <= a + l.window ==> Sent(es, ip, a, b) <= l.rate
  }

  /** A client that never sends more than the rate within any interval as long as the window is
      never refused. */
  lemma ModestClientsPass(es: seq<Event>, i: nat, l: Limits)
    requires ValidLimits(l) && Ordered(es) && i < |es| && es[i].Request?
    requires Modest(es[..i + 1], es[i].ip, l)
    ensures Answer(es, i, l, true)
  {
    var ip, now := es[i].ip, es[i].at;
    SweepsAreInvisible(es, i, l);
    CountedRequestsWereSent(es[..i], ip, now, l);
    assert es[..i + 1][..i] == es[..i];
    var vs := Run(es[..i], l, false);
    if ip in vs && !Expired(vs[ip], now, l) {
      assert Sent(es[..i + 1], ip, vs[ip].windowStart, now) <= l.rate;
    }
  }
}
