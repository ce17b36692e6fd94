/** When a schedule fires next.  Instants are nanoseconds of UTC since the start of year 1, so
    that instant 0 is the zero value of the source's time type, which the search for a cron
    expression returns when it gives up. */
module CronNext {
  import opened Arith
  import opened Calendar
  import opened CronField
  import opened Text

  const MINUTE: int := 60_000_000_000
  const DAY_MINUTES: int := 24 * 60
  const DAY: int := DAY_MINUTES * MINUTE
  const ZERO_TIME: int := 0
  const MAX_ATTEMPTS: nat := 366 * 24 * 60

  /** The instant at the given date, hour and minute. */
  function Instant(d: Date, hour: int, minute: int): int
    requires 1 <= d.month <= 12
  {
    (DayNumber(d) * DAY_MINUTES + hour * 60 + minute) * MINUTE
  }

  // ----- five-field expressions

  datatype FullCron = FullCron(minute: string, hour: string, day: string, month: string, weekday: string)

  /** Do the fields match the minute with this number? */
  predicate Matches(s: FullCron, m: int) {
    var d := DateOf(m / DAY_MINUTES);
    && MatchField(s.minute, m % 60, 0, 59)
    && MatchField(s.hour, m / 60 % 24, 0, 23)
    && MatchField(s.day, d.day, 1, 31)
    && MatchField(s.month, d.month, 1, 12)
    && MatchField(s.weekday, Weekday(m / DAY_MINUTES), 0, 6)
  }

  /** The first matching minute among the given number of minutes from m on. */
  function FirstMatch(s: FullCron, m: int, attempts: nat): Option<int>
    decreases attempts
  {
    if attempts == 0 then None
    else if Matches(s, m) then Some(m)
    else FirstMatch(s, m + 1, attempts - 1)
  }

  lemma {:induction false} FirstMatchIsFirst(s: FullCron, m: int, attempts: nat)
    ensures match FirstMatch(s, m, attempts)
      case Some(r) => m <= r < m + attempts && Matches(s, r) && forall j :: m <= j < r ==> !Matches(s, j)
      case None => forall j :: m <= j < m + attempts ==> !Matches(s, j)
    decreases attempts
  {
    hide Matches;
    if attempts > 0 && !Matches(s, m) {
      FirstMatchIsFirst(s, m + 1, attempts - 1);
    }
  }

  function FullNext(s: FullCron, now: int): int {
    match FirstMatch(s, now / MINUTE + 1, MAX_ATTEMPTS)
    case Some(m) => m * MINUTE
    case None => ZERO_TIME
  }

  method Next(s: FullCron, now: int) returns (next: int)
    ensures next == FullNext(s, now)
  {
    hide Matches;
    var soon := now + MINUTE;
    next := soon - soon % MINUTE;
    assert next == (now / MINUTE + 1) * MINUTE;
    ghost var start := now / MINUTE + 1;
    var i := 0;
    while i < MAX_ATTEMPTS
      invariant 0 <= i <= MAX_ATTEMPTS
      invariant next == (start + i) * MINUTE
      invariant FirstMatch(s, start, MAX_ATTEMPTS) == FirstMatch(s, start + i, MAX_ATTEMPTS - i)
    {
      assert next / MINUTE == start + i by { DivModUnique(next, start + i, 0, MINUTE); }
      if Matches(s, next / MINUTE) {
        return;
      }
      next := next + MINUTE;
      i := i + 1;
    }
    next := ZERO_TIME;
  }

  /** A whole minute at which the expression fires. */
  predicate Fires(s: FullCron, t: int) {
    t % MINUTE == 0 && Matches(s, t / MINUTE)
  }

  /** A field allows a value: it is the star, or lists a well-formed item that denotes the value. */
  ghost predicate Allows(field: string, v: int, min: int, max: int) {
    field == "*" || Listed(Split(field, ','), v, min, max)
  }

  /** An expression fires at a date and time exactly if each of its fields allows its part of them. */
  lemma FiresAtDate(s: FullCron, d: Date, hour: int, minute: int)
    requires IsDate(d) && IsClock(hour, minute)
    ensures Fires(s, Instant(d, hour, minute)) <==>
      && Allows(s.minute, minute, 0, 59) && Allows(s.hour, hour, 0, 23)
      && Allows(s.day, d.day, 1, 31) && Allows(s.month, d.month, 1, 12)
      && Allows(s.weekday, (DayNumber(d) + 1) % 7, 0, 6)
  {
    hide MatchField, Allows, DateOf, DayNumber;
    var day := DayNumber(d);
    var m := day * DAY_MINUTES + hour * 60 + minute;
    DateRoundTrip(d);
    DivModUnique(Instant(d, hour, minute), m, 0, MINUTE);
    DivModUnique(m, day, hour * 60 + minute, DAY_MINUTES);
    MinuteOfHour(day, hour, minute);
    AllowsExactly(s.minute, minute, 0, 59);
    AllowsExactly(s.hour, hour, 0, 23);
    AllowsExactly(s.day, d.day, 1, 31);
    AllowsExactly(s.month, d.month, 1, 12);
    AllowsExactly(s.weekday, (day + 1) % 7, 0, 6);
  }

  lemma AllowsExactly(field: string, v: int, min: int, max: int)
    ensures MatchField(field, v, min, max) <==> Allows(field, v, min, max)
  {
    FieldMatches(field, v, min, max);
  }

  lemma MinuteOfHour(day: int, hour: int, minute: int)
    requires IsClock(hour, minute)
    ensures var m := day * DAY_MINUTES + hour * 60 + minute; m % 60 == minute && m / 60 % 24 == hour
  {
    var m := day * DAY_MINUTES + hour * 60 + minute;
    DivModUnique(m, day * 24 + hour, minute, 60);
    DivModUnique(day * 24 + hour, day, hour, 24);
  }

  /** A matching minute lies within the source's search window. */
  ghost predicate Found(s: FullCron, now: int) {
    FirstMatch(s, now / MINUTE + 1, MAX_ATTEMPTS).Some?
  }

  /** The search returns the earliest firing instant strictly after now, if there is one within
      366 days, and the zero time otherwise. */
  lemma FullNextIsEarliest(s: FullCron, now: int)
    ensures var next := FullNext(s, now);
      if Found(s, now) then
        now < next <= now + 366 * DAY && Fires(s, next)
        && forall t :: now < t < next ==> !Fires(s, t)
      else
        next == ZERO_TIME && forall t :: now < t && t / MINUTE <= now / MINUTE + MAX_ATTEMPTS ==> !Fires(s, t)
  {
    hide Matches;
    var start, next := now / MINUTE + 1, FullNext(s, now);
    FirstMatchIsFirst(s, start, MAX_ATTEMPTS);
    if Found(s, now) {
      DivModUnique(next, FirstMatch(s, start, MAX_ATTEMPTS).value, 0, MINUTE);
    }
    forall t | now < t && t % MINUTE == 0
      ensures start <= t / MINUTE
      ensures t < next && Found(s, now) ==> t / MINUTE < next / MINUTE
    {
    }
  }

  // ----- daily and weekly schedules

  predicate IsClock(hour: int, minute: int) { 0 <= hour <= 23 && 0 <= minute <= 59 }

  /** Is the wall clock at exactly this hour and minute? */
  predicate ClockShows(t: int, hour: int, minute: int) {
    t % DAY == (hour * 60 + minute) * MINUTE
  }

  function DailyNext(hour: int, minute: int, now: int): int {
    var next := Instant(DateOf(now / DAY), hour, minute);
    if next <= now then next + DAY else next
  }

  function WeeklyNext(weekday: int, hour: int, minute: int, now: int): int {
    var today := DateOf(now / DAY);
    var daysUntil := (weekday - Weekday(now / DAY) + 7) % 7;
    var date := today.(day := today.day + daysUntil);
    var next := Instant(date, hour, minute);
    if next <= now then Instant(date.(day := date.day + 7), hour, minute) else next
  }

  lemma DayAndClock(day: int, hour: int, minute: int)
    requires IsClock(hour, minute)
    ensures var t := (day * DAY_MINUTES + hour * 60 + minute) * MINUTE;
            t / DAY == day && ClockShows(t, hour, minute)
  {
    DivModUnique((day * DAY_MINUTES + hour * 60 + minute) * MINUTE, day, (hour * 60 + minute) * MINUTE, DAY);
  }

  /** The instant on the given day at which the clock shows the given time. */
  function At(day: int, hour: int, minute: int): int {
    (day * DAY_MINUTES + hour * 60 + minute) * MINUTE
  }

  lemma ClockTimes(day: int, hour: int, minute: int, t: int)
    requires IsClock(hour, minute)
    ensures ClockShows(t, hour, minute) <==> t == At(t / DAY, hour, minute)
    ensures At(day, hour, minute) / DAY == day && ClockShows(At(day, hour, minute), hour, minute)
  {
    DayAndClock(day, hour, minute);
    DayAndClock(t / DAY, hour, minute);
    assert t == t / DAY * DAY + t % DAY;
  }

  lemma DailyNextAt(hour: int, minute: int, now: int)
    ensures var day := now / DAY;
      DailyNext(hour, minute, now) ==
        (if At(day, hour, minute) <= now then At(day + 1, hour, minute) else At(day, hour, minute))
  {
    hide DateOf, DayNumber;
  }

  lemma DaysAdd(day: int, n: int)
    ensures var d := DateOf(day); DayNumber(d.(day := d.day + n)) == day + n
  {
    hide DateOf, DaysBeforeYear, DaysBeforeMonth;
  }

  lemma WeeklyNextAt(weekday: int, hour: int, minute: int, now: int)
    ensures var target := now / DAY + (weekday - Weekday(now / DAY)) % 7;
      WeeklyNext(weekday, hour, minute, now)
        == if At(target, hour, minute) <= now then At(target + 7, hour, minute) else At(target, hour, minute)
  {
    var day := now / DAY;
    var n := (weekday - Weekday(day) + 7) % 7;
    DaysAdd(day, n);
    DaysAdd(day, n + 7);
    assert n == (weekday - Weekday(day)) % 7;
    hide DateOf, DayNumber, Weekday;
  }

  lemma LaterDay(d: int, e: int, hour: int, minute: int)
    ensures At(d, hour, minute) < At(e, hour, minute) <==> d < e
    ensures At(e, hour, minute) == At(d, hour, minute) + (e - d) * DAY
  {
    assert At(e, hour, minute) - At(d, hour, minute) == (e - d) * DAY;
  }

  /** A daily schedule fires at the least instant after now at which the clock shows its time. */
  lemma DailyNextIsEarliest(hour: int, minute: int, now: int)
    requires IsClock(hour, minute)
    ensures var next := DailyNext(hour, minute, now);
      now < next <= now + DAY && ClockShows(next, hour, minute)
      && forall t :: now < t < next ==> !ClockShows(t, hour, minute)
  {
    hide DailyNext, ClockShows;
    var day, next := now / DAY, DailyNext(hour, minute, now);
    DailyNextAt(hour, minute, now);
    ClockTimes(day, hour, minute, now);
    ClockTimes(day + 1, hour, minute, now);
    InsideDay(now, hour, minute);
    hide At, IsClock;
    LaterDay(day, day + 1, hour, minute);
    forall t | now < t < next && ClockShows(t, hour, minute) ensures false {
      ClockTimes(day, hour, minute, t);
      DayOrder(now, t);
      LaterDay(day, t / DAY, hour, minute);
      LaterDay(t / DAY, next / DAY, hour, minute);
    }
  }

  lemma InsideDay(t: int, hour: int, minute: int)
    requires IsClock(hour, minute)
    ensures At(t / DAY, hour, minute) - DAY < t < At(t / DAY + 1, hour, minute)
  {
    assert t == t / DAY * DAY + t % DAY;
  }

  lemma DayOrder(t: int, u: int)
    requires t <= u
    ensures t / DAY <= u / DAY
  {
  }

  /** A weekly schedule fires at the least instant after now on its day of the week at which the
      clock shows its time: later today if today is the day and the time has not come yet. */
  lemma WeeklyNextIsEarliest(weekday: int, hour: int, minute: int, now: int)
    requires 0 <= weekday <= 6 && IsClock(hour, minute)
    ensures var next := WeeklyNext(weekday, hour, minute, now);
      now < next <= now + 7 * DAY && ClockShows(next, hour, minute) && Weekday(next / DAY) == weekday
      && forall t :: now < t < next && ClockShows(t, hour, minute) ==> Weekday(t / DAY) != weekday
  {
    hide WeeklyNext, ClockShows;
    var day, next := now / DAY, WeeklyNext(weekday, hour, minute, now);
    var target := day + (weekday - Weekday(day)) % 7;
    WeeklyNextAt(weekday, hour, minute, now);
    ClockTimes(target, hour, minute, now);
    ClockTimes(target + 7, hour, minute, now);
    InsideDay(now, hour, minute);
    WeekdayAhead(day, weekday, target);
    WeekdayAhead(day, weekday, target + 7);
    hide At, IsClock, Weekday;
    LaterDay(target, target + 7, hour, minute);
    LaterDay(day, target, hour, minute);
    LaterDay(day + 1, target, hour, minute);
    forall t | now < t < next && ClockShows(t, hour, minute) ensures Weekday(t / DAY) != weekday {
      NoneBetween(weekday, hour, minute, now, next, t);
    }
  }

  lemma NoneBetween(weekday: int, hour: int, minute: int, now: int, next: int, t: int)
    requires 0 <= weekday <= 6 && IsClock(hour, minute)
    requires now < t < next && ClockShows(t, hour, minute)
    requires var target := now / DAY + (weekday - Weekday(now / DAY)) % 7;
      next == if At(target, hour, minute) <= now then At(target + 7, hour, minute) else At(target, hour, minute)
    ensures Weekday(t / DAY) != weekday
  {
    hide ClockShows;
    var day := now / DAY;
    var target := day + (weekday - Weekday(day)) % 7;
    ClockTimes(target, hour, minute, t);
    hide At, IsClock, Weekday;
    DayOrder(now, t);
    LaterDay(t / DAY, target, hour, minute);
    LaterDay(t / DAY, target + 7, hour, minute);
    LaterDay(target, t / DAY, hour, minute);
    WeekdayAhead(day, weekday, t / DAY);
    WithinAWeek(t / DAY - target);
  }

  lemma WithinAWeek(n: int)
    requires -7 < n < 7 && n != 0
    ensures n % 7 != 0
  {
  }

  lemma WeekdayAhead(day: int, weekday: int, other: int)
    requires 0 <= weekday <= 6
    ensures var target := day + (weekday - Weekday(day)) % 7;
      Weekday(other) == weekday <==> (other - target) % 7 == 0
  {
    assert (other + 1) % 7 == weekday <==> (other + 1 - weekday) % 7 == 0;
  }

  // ----- any schedule

  datatype Schedule =
    | Interval(interval: int)
    | Daily(hour: int, minute: int)
    | Weekly(weekday: int, hour: int, minute: int)
    | Cron(expr: FullCron)

  /** What registering a task checks; a cron expression is checked where it is parsed. */
  predicate ValidSchedule(s: Schedule) {
    match s
    case Interval(i) => i > 0
    case Daily(h, m) => IsClock(h, m)
    case Weekly(w, h, m) => 0 <= w <= 6 && IsClock(h, m)
    case Cron(_) => true
  }

  function NextRun(s: Schedule, now: int): int {
    match s
    case Interval(i) => now + i
    case Daily(h, m) => DailyNext(h, m, now)
    case Weekly(w, h, m) => WeeklyNext(w, h, m, now)
    case Cron(expr) => FullNext(expr, now)
  }

  /** A schedule moves forward, or stops for good by answering the zero time. */
  lemma NextRunAdvances(s: Schedule, now: int)
    requires ValidSchedule(s)
    ensures NextRun(s, now) > now || (s.Cron? && NextRun(s, now) == ZERO_TIME)
  {
    match s
    case Interval(i) =>
    case Daily(h, m) => DailyNextIsEarliest(h, m, now);
    case Weekly(w, h, m) => WeeklyNextIsEarliest(w, h, m, now);
    case Cron(expr) => FullNextIsEarliest(expr, now);
  }

  /** The instants at which a clock or cron schedule fires; an interval has none of its own. */
  predicate FiresAt(s: Schedule, t: int) {
    match s
    case Interval(_) => false
    case Daily(h, m) => ClockShows(t, h, m)
    case Weekly(w, h, m) => ClockShows(t, h, m) && (t / DAY + 1) % 7 == w
    case Cron(expr) => Fires(expr, t)
  }

  /** The next run is one interval on, or the earliest instant after now at which the schedule fires; a cron
      expression may have none for 366 days and then answers the zero time. */
  lemma NextRunIsEarliest(s: Schedule, now: int)
    requires ValidSchedule(s)
    ensures var next := NextRun(s, now);
      if s.Interval? then next == now + s.interval
      else if s.Cron? && !Found(s.expr, now) then
        next == ZERO_TIME && forall t :: now < t && t / MINUTE <= now / MINUTE + MAX_ATTEMPTS ==> !FiresAt(s, t)
      else now < next && FiresAt(s, next) && forall t :: now < t < next ==> !FiresAt(s, t)
  {
    hide DailyNext, WeeklyNext, FullNext, Fires, Found, ClockShows;
    match s
    case Interval(i) =>
    case Daily(h, m) => DailyNextIsEarliest(h, m, now);
    case Weekly(w, h, m) => WeeklyNextIsEarliest(w, h, m, now);
    case Cron(expr) => FullNextIsEarliest(expr, now);
  }

  // ----- parsing a whole expression

  function ParseStrict(expr: string): Option<FullCron> {
    var fields := Fields(expr);
    if |fields| != 5 then None
    else if !ValidField(fields[0], 0, 59) then None
    else if !ValidField(fields[1], 0, 23) then None
    else if !ValidField(fields[2], 1, 31) then None
    else if !ValidField(fields[3], 1, 12) then None
    else if !ValidField(fields[4], 0, 6) then None
    else Some(FullCron(fields[0], fields[1], fields[2], fields[3], fields[4]))
  }

  /** The star, or a list of well-formed items within the range. */
  ghost predicate LegalField(field: string, min: int, max: int) {
    field == "*" || AllLegal(Split(field, ','), min, max)
  }

  /** An expression is accepted exactly if it has five words, and each is legal as the field in its place; it
      is accepted as these five. */
  lemma ParsesExactly(expr: string, s: FullCron)
    ensures ParseStrict(expr) == Some(s) <==>
      && Fields(expr) == [s.minute, s.hour, s.day, s.month, s.weekday]
      && LegalField(s.minute, 0, 59) && LegalField(s.hour, 0, 23) && LegalField(s.day, 1, 31)
      && LegalField(s.month, 1, 12) && LegalField(s.weekday, 0, 6)
  {
    FieldAccepted(s.minute, 0, 59);
    FieldAccepted(s.hour, 0, 23);
    FieldAccepted(s.day, 1, 31);
    FieldAccepted(s.month, 1, 12);
    FieldAccepted(s.weekday, 0, 6);
    hide ValidField, AllLegal, Fields;
  }

  function Written(s: FullCron): string {
    s.minute + " " + (s.hour + " " + (s.day + " " + (s.month + " " + s.weekday)))
  }

  /** Writing an accepted schedule back with single spaces and parsing it again changes nothing. */
  lemma ParseWritten(expr: string)
    requires ParseStrict(expr).Some?
    ensures ParseStrict(Written(ParseStrict(expr).value)) == ParseStrict(expr)
  {
    hide ValidField;
    var f := Fields(expr);
    var s := ParseStrict(expr).value;
    WrittenFields(f);
  }

  lemma WrittenFields(f: seq<string>)
    requires |f| == 5
    requires forall i :: 0 <= i < 5 ==> f[i] != [] && forall j :: 0 <= j < |f[i]| ==> !IsSpace(f[i][j])
    ensures Fields(Written(FullCron(f[0], f[1], f[2], f[3], f[4]))) == f
  {
    hide Fields;
    FieldsCons(f[4], "");
    FieldsCons(f[3], f[4]);
    FieldsCons(f[2], f[3] + " " + f[4]);
    FieldsCons(f[1], f[2] + " " + (f[3] + " " + f[4]));
    FieldsCons(f[0], f[1] + " " + (f[2] + " " + (f[3] + " " + f[4])));
  }
}
