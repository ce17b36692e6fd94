/** Is a search over 366 days long enough?  When the weekday field is free, exactly the
    expressions that admit a date of a common year are found from every starting point. */
module CronBound {
  import opened Arith
  import opened Calendar
  import opened CronField
  import opened CronNext
  import opened Text

  /** The fields admit this clock time on this date, and the date exists in common years. */
  ghost predicate CommonDate(s: FullCron, minute: int, hour: int, day: int, month: int) {
    && IsClock(hour, minute) && 1 <= month <= 12 && 1 <= day <= DaysInMonth(false, month)
    && MatchField(s.minute, minute, 0, 59) && MatchField(s.hour, hour, 0, 23)
    && MatchField(s.day, day, 1, 31) && MatchField(s.month, month, 1, 12)
  }

  /** The weekday field is free: a star, or any other spelling of all seven days. */
  ghost predicate AnyWeekday(s: FullCron) { forall d :: 0 <= d <= 6 ==> MatchField(s.weekday, d, 0, 6) }

  /** So are the day and the month. */
  ghost predicate AnyDate(s: FullCron) {
    && (forall d :: 1 <= d <= 31 ==> MatchField(s.day, d, 1, 31))
    && (forall m :: 1 <= m <= 12 ==> MatchField(s.month, m, 1, 12))
  }

  ghost predicate FiresInCommonYears(s: FullCron) {
    exists minute, hour, day, month :: CommonDate(s, minute, hour, day, month)
  }

  /** The number of the minute at which the clock shows hour:minute on the date. */
  function MinuteAt(d: Date, hour: int, minute: int): int
    requires 1 <= d.month <= 12
  {
    DayNumber(d) * DAY_MINUTES + hour * 60 + minute
  }

  lemma MinuteParts(day: int, hour: int, minute: int)
    requires IsClock(hour, minute)
    ensures var m := day * DAY_MINUTES + hour * 60 + minute;
      m / DAY_MINUTES == day && m / 60 % 24 == hour && m % 60 == minute
  {
    var m := day * DAY_MINUTES + hour * 60 + minute;
    DivModUnique(m, day, hour * 60 + minute, DAY_MINUTES);
    DivModUnique(m, day * 24 + hour, minute, 60);
    DivModUnique(day * 24 + hour, day, hour, 24);
  }

  lemma PartsOfMinute(m: int)
    ensures IsClock(m / 60 % 24, m % 60)
    ensures m == m / DAY_MINUTES * DAY_MINUTES + m / 60 % 24 * 60 + m % 60
  {
  }

  lemma MatchesOnDate(s: FullCron, d: Date, hour: int, minute: int)
    requires IsDate(d) && IsClock(hour, minute)
    ensures Matches(s, MinuteAt(d, hour, minute)) <==>
      && MatchField(s.minute, minute, 0, 59) && MatchField(s.hour, hour, 0, 23)
      && MatchField(s.day, d.day, 1, 31) && MatchField(s.month, d.month, 1, 12)
      && MatchField(s.weekday, Weekday(DayNumber(d)), 0, 6)
  {
    hide MatchField, DateOf, DayNumber, Weekday, DaysInMonth, IsLeap;
    DateRoundTrip(d);
    MinuteParts(DayNumber(d), hour, minute);
  }

  lemma YearBounds(y: int, month: int, day: int)
    requires 1 <= month <= 12 && 1 <= day <= DaysInMonth(false, month)
    ensures IsDate(Date(y, month, day))
    ensures DaysBeforeYear(y) <= DayNumber(Date(y, month, day)) < DaysBeforeYear(y) + 366
    ensures DayNumber(Date(y, month, day)) + 365 <= DayNumber(Date(y + 1, month, day))
    ensures DayNumber(Date(y + 1, month, day)) <= DayNumber(Date(y, month, day)) + 366
  {
    YearLength(y);
    YearlyGap(y, month, day);
    InsideYear(Date(y, month, day));
  }

  lemma TodayInYear(day: int)
    ensures var y := DateOf(day).year;
      DaysBeforeYear(y) <= day < DaysBeforeYear(y + 1) <= DaysBeforeYear(y) + 366
  {
    var d := DateOf(day);
    InsideYear(d);
    YearLength(d.year);
  }

  /** From any minute, an admitted date of the year comes round within 366 days. */
  lemma NextYearlyMinute(m: int, minute: int, hour: int, day: int, month: int) returns (y: int)
    requires IsClock(hour, minute) && 1 <= month <= 12 && 1 <= day <= DaysInMonth(false, month)
    ensures IsDate(Date(y, month, day))
    ensures m <= MinuteAt(Date(y, month, day), hour, minute) < m + MAX_ATTEMPTS
  {
    hide DateOf, DayNumber, IsDate, DaysBeforeYear;
    y := DateOf(m / DAY_MINUTES).year;
    TodayInYear(m / DAY_MINUTES);
    YearBounds(y, month, day);
    if MinuteAt(Date(y, month, day), hour, minute) < m {
      y := y + 1;
      YearBounds(y, month, day);
    }
  }

  /** The 366-day bound is enough for every expression with a free weekday field that admits a
      date of a common year: the search succeeds from every start. */
  lemma YearIsEnough(s: FullCron, now: int, minute: int, hour: int, day: int, month: int)
    requires AnyWeekday(s) && CommonDate(s, minute, hour, day, month)
    ensures Found(s, now)
  {
    hide MatchField;
    var m := now / MINUTE + 1;
    var y := NextYearlyMinute(m, minute, hour, day, month);
    var today := Weekday(DayNumber(Date(y, month, day)));
    assert 0 <= today <= 6 && MatchField(s.weekday, today, 0, 6);
    MatchesOnDate(s, Date(y, month, day), hour, minute);
    hide Matches, MinuteAt, AnyWeekday;
    FirstMatchIsFirst(s, m, MAX_ATTEMPTS);
  }

  /** New Year 2025: the 366 days that follow lie in two common years. */
  function NewYear2025(): int { Instant(Date(2025, 1, 1), 0, 0) }

  lemma CommonYearsAhead(m: int)
    requires NewYear2025() / MINUTE < m <= NewYear2025() / MINUTE + MAX_ATTEMPTS
    ensures !IsLeap(DateOf(m / DAY_MINUTES).year)
  {
    var day := m / DAY_MINUTES;
    assert DaysBeforeYear(2025) == 739251;
    assert DayNumber(Date(2025, 1, 1)) == 739251;
    assert NewYear2025() / MINUTE == 739251 * DAY_MINUTES;
    assert DaysBeforeYear(2026) == 739616 && DaysBeforeYear(2027) == 739981;
    assert 739251 <= day < 739981;
    if day < 739616 { YearIsUnique(day, 2025); } else { YearIsUnique(day, 2026); }
    InsideYear(DateOf(day));
  }

  lemma CommonYearMatch(s: FullCron, m: int)
    requires Matches(s, m) && !IsLeap(DateOf(m / DAY_MINUTES).year)
    ensures FiresInCommonYears(s)
  {
    PartsOfMinute(m);
    var d := DateOf(m / DAY_MINUTES);
    hide DateOf;
    assert CommonDate(s, m % 60, m / 60 % 24, d.day, d.month);
  }

  /** Without such a date the search gives up at least when it starts at New Year 2025. */
  lemma MissedFrom2025(s: FullCron)
    requires !FiresInCommonYears(s)
    ensures !Found(s, NewYear2025())
  {
    hide Matches, FiresInCommonYears, NewYear2025;
    var start := NewYear2025() / MINUTE + 1;
    forall m | start <= m < start + MAX_ATTEMPTS ensures !Matches(s, m) {
      CommonYearsAhead(m);
      if Matches(s, m) { CommonYearMatch(s, m); }
    }
    FirstMatchIsFirst(s, start, MAX_ATTEMPTS);
  }

  /** For expressions with a free weekday field, the search succeeds from every start exactly if
      the other fields admit a clock time on a date that exists in common years. */
  lemma SearchAlwaysSucceeds(s: FullCron)
    requires AnyWeekday(s)
    ensures (forall now :: Found(s, now)) <==> FiresInCommonYears(s)
  {
    hide Found, AnyWeekday;
    if FiresInCommonYears(s) {
      var minute, hour, day, month :| CommonDate(s, minute, hour, day, month);
      forall now ensures Found(s, now) { YearIsEnough(s, now, minute, hour, day, month); }
    } else {
      MissedFrom2025(s);
    }
  }

  // ----- free date fields

  ghost predicate WeeklyTime(s: FullCron, minute: int, hour: int, weekday: int) {
    && IsClock(hour, minute) && 0 <= weekday <= 6
    && MatchField(s.minute, minute, 0, 59) && MatchField(s.hour, hour, 0, 23)
    && MatchField(s.weekday, weekday, 0, 6)
  }

  const WEEK_MINUTES: nat := 7 * 24 * 60

  /** With the day and month fields free, the first 10080 minutes decide: either a weekday and
      clock time is admitted and comes up within them, or none ever will. */
  lemma WeekDecides(s: FullCron, now: int)
    requires AnyDate(s)
    ensures FirstMatch(s, now / MINUTE + 1, WEEK_MINUTES).Some?
       <==> exists minute, hour, weekday :: WeeklyTime(s, minute, hour, weekday)
  {
    var start := now / MINUTE + 1;
    FirstMatchIsFirst(s, start, WEEK_MINUTES);
    if exists minute, hour, weekday :: WeeklyTime(s, minute, hour, weekday) {
      var minute, hour, weekday :| WeeklyTime(s, minute, hour, weekday);
      var m := NextWeeklyMinute(start, minute, hour, weekday);
      WeeklyTimeMatches(s, m, minute, hour, weekday);
      hide Matches, FirstMatch;
    } else {
      match FirstMatch(s, start, WEEK_MINUTES)
      case None =>
      case Some(m) =>
        PartsOfMinute(m);
        assert WeeklyTime(s, m % 60, m / 60 % 24, Weekday(m / DAY_MINUTES));
    }
  }

  lemma WeeklyTimeMatches(s: FullCron, m: int, minute: int, hour: int, weekday: int)
    requires AnyDate(s) && WeeklyTime(s, minute, hour, weekday)
    requires m % 60 == minute && m / 60 % 24 == hour && Weekday(m / DAY_MINUTES) == weekday
    ensures Matches(s, m)
  {
    hide MatchField;
    var d := DateOf(m / DAY_MINUTES);
    assert 1 <= d.day <= 31 && 1 <= d.month <= 12 by { hide AnyDate, WeeklyTime; }
    hide DateOf, Weekday, IsClock;
    assert MatchField(s.day, d.day, 1, 31) && MatchField(s.month, d.month, 1, 12);
  }

  lemma NextWeeklyMinute(m: int, minute: int, hour: int, weekday: int) returns (r: int)
    requires IsClock(hour, minute) && 0 <= weekday <= 6
    ensures m <= r < m + WEEK_MINUTES
    ensures r % 60 == minute && r / 60 % 24 == hour && Weekday(r / DAY_MINUTES) == weekday
  {
    hide Weekday;
    var day := m / DAY_MINUTES;
    var ahead := (weekday - Weekday(day)) % 7;
    PartsOfMinute(m);
    WeekdayAhead(day, weekday, day + ahead);
    WeekdayAhead(day, weekday, day + ahead + 7);
    MinuteParts(day + ahead, hour, minute);
    MinuteParts(day + ahead + 7, hour, minute);
    r := WithinWeek(m, day, ahead, hour * 60 + minute);
  }

  /** The minute of the day, `ahead` days on, or a week later if that is over. */
  lemma WithinWeek(m: int, day: int, ahead: int, minuteOfDay: int) returns (r: int)
    requires day * DAY_MINUTES <= m < (day + 1) * DAY_MINUTES && 0 <= ahead < 7 && 0 <= minuteOfDay < DAY_MINUTES
    ensures m <= r < m + WEEK_MINUTES
    ensures r == (day + ahead) * DAY_MINUTES + minuteOfDay || r == (day + ahead + 7) * DAY_MINUTES + minuteOfDay
  {
    r := (day + ahead) * DAY_MINUTES + minuteOfDay;
    if r < m { r := r + WEEK_MINUTES; }
  }

  // ----- the bound is tight

  /** A plain number is read as itself. */
  lemma NumberReads(text: string)
    requires text != "" && AllDigits(text) && DecimalValue(text) <= MAX_INT
    ensures TrimSpace(text) == text && Atoi(text) == Some(DecimalValue(text) as int)
    ensures Index(text, ',').None? && Index(text, '/').None? && Index(text, '-').None?
  {
    assert TrimLeft(text) == text && TrimRight(text) == text;
  }

  lemma NumberField(text: string, v: int, min: int, max: int)
    requires text != "" && AllDigits(text) && min <= DecimalValue(text) <= max <= MAX_INT && !IsWeekdayField(min, max)
    ensures MatchField(text, v, min, max) <==> v == DecimalValue(text)
    ensures ValidField(text, min, max)
  {
    NumberReads(text);
    hide Atoi, TrimSpace, Index, DecimalValue;
    assert Split(text, ',') == [text] && [text][1..] == [];
    assert IsDigit(text[0]) && !IsDigit('*');
    assert MatchItem(text, v, min, max) <==> v == DecimalValue(text);
    assert ValidItem(text, min, max);
    hide MatchItem, ValidItem;
    assert AnyItemMatches([], v, min, max) == false;
    assert AllItemsValid([], min, max);
  }

  lemma OneDigit(c: char)
    requires IsDigit(c)
    ensures AllDigits([c]) && DecimalValue([c]) == (c - '0') as int
  {
    assert DecimalValue([]) == 0 && [c][..0] == [];
  }

  lemma OneDigitField(c: char, v: int, min: int, max: int)
    requires IsDigit(c) && min <= (c - '0') as int <= max <= MAX_INT && !IsWeekdayField(min, max)
    ensures MatchField([c], v, min, max) <==> v == (c - '0') as int
    ensures ValidField([c], min, max)
  {
    OneDigit(c);
    hide DecimalValue, MatchField, ValidField;
    NumberField([c], v, min, max);
  }

  // ----- 29 February

  const LEAP_DAY := FullCron("0", "0", "29", "2", "*")

  lemma LeapDayFields(minute: int, hour: int, day: int, month: int)
    ensures MatchField(LEAP_DAY.minute, minute, 0, 59) <==> minute == 0
    ensures MatchField(LEAP_DAY.hour, hour, 0, 23) <==> hour == 0
    ensures MatchField(LEAP_DAY.day, day, 1, 31) <==> day == 29
    ensures MatchField(LEAP_DAY.month, month, 1, 12) <==> month == 2
    ensures ValidField("0", 0, 59) && ValidField("0", 0, 23) && ValidField("29", 1, 31) && ValidField("2", 1, 12)
  {
    OneDigitField('0', minute, 0, 59);
    OneDigitField('0', hour, 0, 23);
    OneDigitField('2', month, 1, 12);
    OneDigit('2');
    assert "29"[..1] == "2" && DecimalValue("29") == 10 * DecimalValue("2") + 9;
    hide MatchField, ValidField, DecimalValue;
    NumberField("29", day, 1, 31);
  }

  /** The search for 29 February alone: accepted when it is parsed, found in the two months before it comes,
      and given up at New Year 2025, although the day comes again. */
  lemma LeapDayIsMissed()
    ensures ParseStrict("0 0 29 2 *") == Some(LEAP_DAY)
    ensures !FiresInCommonYears(LEAP_DAY)
    ensures !Found(LEAP_DAY, NewYear2025()) && FullNext(LEAP_DAY, NewYear2025()) == ZERO_TIME
    ensures Found(LEAP_DAY, Instant(Date(2028, 1, 1), 0, 0))
  {
    LeapDayParses();
    hide ParseStrict, MatchField;
    forall minute, hour, day, month ensures !CommonDate(LEAP_DAY, minute, hour, day, month) {
      LeapDayFields(minute, hour, day, month);
    }
    MissedFrom2025(LEAP_DAY);
    LeapDayFound();
  }

  lemma ParseOf(s: FullCron)
    requires ValidField(s.minute, 0, 59) && ValidField(s.hour, 0, 23) && ValidField(s.day, 1, 31)
    requires ValidField(s.month, 1, 12) && ValidField(s.weekday, 0, 6)
    requires IsWord(s.minute) && IsWord(s.hour) && IsWord(s.day) && IsWord(s.month) && IsWord(s.weekday)
    ensures ParseStrict(Written(s)) == Some(s)
  {
    hide ValidField, Fields, Written;
    WrittenFields([s.minute, s.hour, s.day, s.month, s.weekday]);
  }

  predicate IsWord(w: string) { w != "" && forall j :: 0 <= j < |w| ==> !IsSpace(w[j]) }

  lemma LeapDayWritten()
    ensures Written(LEAP_DAY) == "0 0 29 2 *"
  {
  }

  lemma LeapDayParses()
    ensures ParseStrict("0 0 29 2 *") == Some(LEAP_DAY)
  {
    hide ValidField, ParseStrict, Written, IsSpace;
    LeapDayFields(0, 0, 29, 2);
    StarIsValid();
    LeapDayWords();
    LeapDayWritten();
    ParseOf(LEAP_DAY);
  }

  lemma StarIsValid()
    ensures ValidField("*", 0, 6)
  {
  }

  lemma LeapDayWords()
    ensures IsWord("0") && IsWord("29") && IsWord("2") && IsWord("*")
  {
  }

  lemma LeapDayComes()
    ensures Instant(Date(2028, 1, 1), 0, 0) / MINUTE < MinuteAt(Date(2028, 2, 29), 0, 0)
    ensures MinuteAt(Date(2028, 2, 29), 0, 0) <= Instant(Date(2028, 1, 1), 0, 0) / MINUTE + MAX_ATTEMPTS
  {
    hide DaysBeforeYear;
    assert DayNumber(Date(2028, 2, 29)) == DayNumber(Date(2028, 1, 1)) + 59;
    assert Instant(Date(2028, 1, 1), 0, 0) / MINUTE == DayNumber(Date(2028, 1, 1)) * DAY_MINUTES;
  }

  lemma LeapDayFound()
    ensures Found(LEAP_DAY, Instant(Date(2028, 1, 1), 0, 0))
  {
    hide MatchField, Matches, MinuteAt, Instant;
    var start := Instant(Date(2028, 1, 1), 0, 0) / MINUTE + 1;
    LeapDayComes();
    LeapDayFields(0, 0, 29, 2);
    StarMatches(Weekday(DayNumber(Date(2028, 2, 29))));
    MatchesOnDate(LEAP_DAY, Date(2028, 2, 29), 0, 0);
    FirstMatchIsFirst(LEAP_DAY, start, MAX_ATTEMPTS);
  }

  lemma StarMatches(v: int)
    ensures MatchField("*", v, 0, 6)
  {
  }

  // ----- the bound is needed

  /** One day less would not do: right after 1 March 2023 at 00:00 the next one is a full 366 days
      away. */
  lemma YearIsNeeded()
    ensures var s := FullCron("0", "0", "1", "3", "*");
      FiresInCommonYears(s) && FirstMatch(s, MinuteAt(Date(2023, 3, 1), 0, 0) + 1, 365 * 24 * 60).None?
  {
    var s := FullCron("0", "0", "1", "3", "*");
    var start := MinuteAt(Date(2023, 3, 1), 0, 0) + 1;
    FirstOfMarch(s, 0, 0, 1, 3);
    assert CommonDate(s, 0, 0, 1, 3);
    hide Matches, MinuteAt, CommonDate, MatchField;
    forall m | start <= m < start + 365 * 24 * 60 ensures !Matches(s, m) { NotTheFirstOfMarch(s, m); }
    FirstMatchIsFirst(s, start, 365 * 24 * 60);
  }

  lemma NotTheFirstOfMarch(s: FullCron, m: int)
    requires s == FullCron("0", "0", "1", "3", "*")
    requires MinuteAt(Date(2023, 3, 1), 0, 0) < m <= MinuteAt(Date(2023, 3, 1), 0, 0) + 365 * 24 * 60
    ensures !Matches(s, m)
  {
    hide MatchField, DateOf, DayNumber, IsDate, IsClock;
    var d := DateOf(m / DAY_MINUTES);
    FirstOfMarch(s, m % 60, m / 60 % 24, d.day, d.month);
    if Matches(s, m) {
      PartsOfMinute(m);
      assert d == Date(d.year, 3, 1);
      MarchYears(d.year);
    }
  }

  lemma FirstOfMarch(s: FullCron, minute: int, hour: int, day: int, month: int)
    requires s == FullCron("0", "0", "1", "3", "*")
    ensures MatchField(s.minute, minute, 0, 59) <==> minute == 0
    ensures MatchField(s.hour, hour, 0, 23) <==> hour == 0
    ensures MatchField(s.day, day, 1, 31) <==> day == 1
    ensures MatchField(s.month, month, 1, 12) <==> month == 3
  {
    OneDigitField('0', minute, 0, 59);
    OneDigitField('0', hour, 0, 23);
    OneDigitField('1', day, 1, 31);
    OneDigitField('3', month, 1, 12);
    hide MatchField;
  }

  lemma MarchYears(y: int)
    ensures DayNumber(Date(y, 3, 1)) <= DayNumber(Date(2023, 3, 1))
      || DayNumber(Date(y, 3, 1)) >= DayNumber(Date(2023, 3, 1)) + 366
  {
    assert DaysBeforeYear(2024) == DaysBeforeYear(2023) + 365;
    assert DaysBeforeMonth(true, 3) == 60 && DaysBeforeMonth(false, 3) == 59;
    if y < 2023 { YearsApart(y, 2023); }
    if y > 2024 { YearsApart(2024, y); }
  }
}
