/** The proleptic Gregorian calendar in UTC.

    Days are numbered from 1 January of year 1, which is day 0 and a Monday, so that day 0 at
    00:00 is also the zero value of the source's time type.  `DateOf` is the cycle arithmetic a
    time library uses to read a date off a day number; `DayNumber` counts days the naive way.
    Each is the inverse of the other, which is what makes statements about "the next 1 March"
    statements about day numbers. */
module Calendar {
  import opened Arith

  datatype Date = Date(year: int, month: int, day: int)

  predicate IsLeap(y: int) {
    y % 4 == 0 && (y % 100 != 0 || y % 400 == 0)
  }

  function DaysInYear(y: int): int {
    if IsLeap(y) then 366 else 365
  }

  function DaysInMonth(leap: bool, m: int): int {
    if m == 2 then (if leap then 29 else 28)
    else if m == 4 || m == 6 || m == 9 || m == 11 then 30
    else 31
  }

  /** Days of the year before the first of month m. */
  function DaysBeforeMonth(leap: bool, m: int): (n: int)
    requires 1 <= m <= 13
    ensures 28 * (m - 1) <= n <= 31 * (m - 1)
    decreases m
  {
    if m == 1 then 0 else DaysBeforeMonth(leap, m - 1) + DaysInMonth(leap, m - 1)
  }

  /** Days before 1 January of year y. */
  function DaysBeforeYear(y: int): int {
    365 * (y - 1) + (y - 1) / 4 - (y - 1) / 100 + (y - 1) / 400
  }

  predicate IsDate(d: Date) {
    1 <= d.month <= 12 && 1 <= d.day <= DaysInMonth(IsLeap(d.year), d.month)
  }

  /** The number of the day; like the source's date constructor it lets the day of the month
      run past the end of the month. */
  function DayNumber(d: Date): int
    requires 1 <= d.month <= 12
  {
    DaysBeforeYear(d.year) + DaysBeforeMonth(IsLeap(d.year), d.month) + d.day - 1
  }

  /** Sunday is 0. */
  function Weekday(day: int): (w: int)
    ensures 0 <= w <= 6
  {
    (day + 1) % 7
  }

  function YearOf(day: int): int {
    var cycle, r400 := day / 146097, day % 146097;
    var century := if r400 / 36524 > 3 then 3 else r400 / 36524;
    var r100 := r400 - 36524 * century;
    var quad := r100 / 1461;
    var r4 := r100 - 1461 * quad;
    var year := if r4 / 365 > 3 then 3 else r4 / 365;
    400 * cycle + 100 * century + 4 * quad + year + 1
  }

  /** The month, at or after m, that contains the given day of the year. */
  function MonthOf(leap: bool, dayOfYear: int, m: int): (month: int)
    requires 1 <= m <= 12
    requires DaysBeforeMonth(leap, m) <= dayOfYear < DaysBeforeMonth(leap, 13)
    ensures m <= month <= 12
    ensures DaysBeforeMonth(leap, month) <= dayOfYear < DaysBeforeMonth(leap, month + 1)
    decreases 12 - m
  {
    if dayOfYear < DaysBeforeMonth(leap, m + 1) then m else MonthOf(leap, dayOfYear, m + 1)
  }

  lemma DaysInAllMonths(leap: bool)
    ensures DaysBeforeMonth(leap, 13) == if leap then 366 else 365
  {
    assert DaysBeforeMonth(leap, 4) == 90 + if leap then 1 else 0;
    assert DaysBeforeMonth(leap, 7) == DaysBeforeMonth(leap, 4) + 91;
    assert DaysBeforeMonth(leap, 10) == DaysBeforeMonth(leap, 7) + 92;
    assert DaysBeforeMonth(leap, 13) == DaysBeforeMonth(leap, 10) + 92;
  }

  lemma YearLength(y: int)
    ensures DaysBeforeYear(y + 1) == DaysBeforeYear(y) + DaysInYear(y)
  {
    assert y / 4 == (y - 1) / 4 + if y % 4 == 0 then 1 else 0;
    assert y / 100 == (y - 1) / 100 + if y % 100 == 0 then 1 else 0;
    assert y / 400 == (y - 1) / 400 + if y % 400 == 0 then 1 else 0;
    assert y % 400 == 0 ==> y % 100 == 0;
    assert y % 100 == 0 ==> y % 4 == 0;
  }

  lemma YearOfParts(cycle: int, century: int, quad: int, year: int)
    requires 0 <= century <= 3 && 0 <= quad <= 24 && 0 <= year <= 3
    ensures DaysBeforeYear(400 * cycle + 100 * century + 4 * quad + year + 1)
         == 146097 * cycle + 36524 * century + 1461 * quad + 365 * year
  {
    var y := 400 * cycle + 100 * century + 4 * quad + year;
    assert y / 4 == 100 * cycle + 25 * century + quad;
    assert y / 100 == 4 * cycle + century;
    assert y / 400 == cycle;
  }

  /** The cycle arithmetic finds the one year that contains the day. */
  lemma YearOfBounds(day: int)
    ensures DaysBeforeYear(YearOf(day)) <= day < DaysBeforeYear(YearOf(day) + 1)
  {
    var cycle, r400 := day / 146097, day % 146097;
    var century := if r400 / 36524 > 3 then 3 else r400 / 36524;
    var r100 := r400 - 36524 * century;
    assert 0 <= r100 <= 36524;
    var quad := r100 / 1461;
    assert quad <= 24 || (quad == 25 && r100 >= 36525);
    var r4 := r100 - 1461 * quad;
    var year := if r4 / 365 > 3 then 3 else r4 / 365;
    YearOfParts(cycle, century, quad, year);
    YearLength(YearOf(day));
    if year == 3 {
      // The fourth year of a group is short exactly when the group closes a short century.
      var y := YearOf(day);
      assert y == 400 * cycle + 100 * century + 4 * quad + 4;
      if !IsLeap(y) {
        LastOfGroup(cycle, century, quad);
      }
    }
  }

  lemma LastOfGroup(cycle: int, century: int, quad: int)
    requires 0 <= century <= 3 && 0 <= quad <= 24
    requires !IsLeap(400 * cycle + 100 * century + 4 * quad + 4)
    ensures quad == 24 && century < 3
  {
    var y := 400 * cycle + 100 * century + 4 * quad + 4;
    DivModUnique(y, 100 * cycle + 25 * century + quad + 1, 0, 4);
    if quad < 24 {
      DivModUnique(y, 4 * cycle + century, 4 * quad + 4, 100);
    } else if century == 3 {
      DivModUnique(y, cycle + 1, 0, 400);
    }
  }

  lemma {:induction false} YearsApart(y: int, z: int)
    requires y <= z
    ensures DaysBeforeYear(y) + 365 * (z - y) <= DaysBeforeYear(z)
    decreases z - y
  {
    if y < z {
      YearsApart(y, z - 1);
      YearLength(z - 1);
    }
  }

  lemma YearIsUnique(day: int, y: int)
    requires DaysBeforeYear(y) <= day < DaysBeforeYear(y + 1)
    ensures YearOf(day) == y
  {
    YearOfBounds(day);
    var z := YearOf(day);
    if z < y { YearsApart(z + 1, y); }
    if y < z { YearsApart(y + 1, z); }
  }

  lemma {:induction false} MonthsApart(leap: bool, m: int, n: int)
    requires 1 <= m <= n <= 13
    ensures DaysBeforeMonth(leap, m) <= DaysBeforeMonth(leap, n)
    decreases n - m
  {
    if m < n { MonthsApart(leap, m, n - 1); }
  }

  function DateOf(day: int): (d: Date)
    ensures IsDate(d)
    ensures DayNumber(d) == day
  {
    YearOfBounds(day);
    YearLength(YearOf(day));
    var y := YearOf(day);
    var leap := IsLeap(y);
    DaysInAllMonths(leap);
    var dayOfYear := day - DaysBeforeYear(y);
    var m := MonthOf(leap, dayOfYear, 1);
    Date(y, m, dayOfYear - DaysBeforeMonth(leap, m) + 1)
  }

  lemma InsideYear(d: Date)
    requires IsDate(d)
    ensures DaysBeforeYear(d.year) <= DayNumber(d) < DaysBeforeYear(d.year + 1)
    ensures YearOf(DayNumber(d)) == d.year
  {
    YearLength(d.year);
    DaysInAllMonths(IsLeap(d.year));
    MonthsApart(IsLeap(d.year), d.month + 1, 13);
    YearIsUnique(DayNumber(d), d.year);
  }

  lemma MonthIsUnique(leap: bool, dayOfYear: int, m: int, n: int)
    requires 1 <= m <= 12 && 1 <= n <= 12
    requires DaysBeforeMonth(leap, m) <= dayOfYear < DaysBeforeMonth(leap, m + 1)
    requires DaysBeforeMonth(leap, n) <= dayOfYear < DaysBeforeMonth(leap, n + 1)
    ensures m == n
  {
    hide DaysBeforeMonth;
    if m < n { MonthsApart(leap, m + 1, n); }
    if n < m { MonthsApart(leap, n + 1, m); }
  }

  lemma DayNumberInjective(d: Date, e: Date)
    requires IsDate(d) && IsDate(e)
    requires DayNumber(d) == DayNumber(e)
    ensures d == e
  {
    InsideYear(d);
    InsideYear(e);
    MonthIsUnique(IsLeap(d.year), DayNumber(d) - DaysBeforeYear(d.year), d.month, e.month);
  }

  /** Every date has its own day number, and reading the number gives the date back. */
  lemma DateRoundTrip(d: Date)
    requires IsDate(d)
    ensures DateOf(DayNumber(d)) == d
  {
    DayNumberInjective(DateOf(DayNumber(d)), d);
  }

  function Tomorrow(d: Date): Date {
    if d.day < DaysInMonth(IsLeap(d.year), d.month) then d.(day := d.day + 1)
    else if d.month < 12 then Date(d.year, d.month + 1, 1)
    else Date(d.year + 1, 1, 1)
  }

  lemma MonthStep(leap: bool, m: int)
    requires 1 <= m <= 12
    ensures DaysBeforeMonth(leap, m + 1) == DaysBeforeMonth(leap, m) + DaysInMonth(leap, m)
    ensures DaysBeforeMonth(leap, 1) == 0 && DaysInMonth(leap, m) >= 28
  {
  }

  lemma TomorrowNumber(d: Date)
    requires IsDate(d)
    ensures IsDate(Tomorrow(d))
    ensures DayNumber(Tomorrow(d)) == DayNumber(d) + 1
  {
    hide DaysBeforeYear, IsLeap, DaysBeforeMonth, DaysInMonth;
    var leap := IsLeap(d.year);
    MonthStep(leap, d.month);
    if d.month < 12 {
      MonthStep(leap, d.month + 1);
    } else {
      YearLength(d.year);
      DaysInAllMonths(leap);
      MonthStep(IsLeap(d.year + 1), 1);
    }
  }

  lemma FollowingDate(d: Date, e: Date)
    requires IsDate(d) && IsDate(e)
    requires DayNumber(e) == DayNumber(d) + 1
    ensures e == Tomorrow(d)
  {
    TomorrowNumber(d);
    DayNumberInjective(Tomorrow(d), e);
  }

  /** Consecutive day numbers are consecutive dates. */
  lemma NextDay(day: int)
    ensures DateOf(day + 1) == Tomorrow(DateOf(day))
  {
    FollowingDate(DateOf(day), DateOf(day + 1));
  }

  /** Ties the numbering to the clock everyone uses: 1 January 1970 was a Thursday. */
  lemma UnixEpoch()
    ensures DayNumber(Date(1970, 1, 1)) == 719162
    ensures Weekday(719162) == 4
  {
    assert DaysBeforeYear(1970) == 719162;
  }

  /** A date that exists in every year comes round again after 365 or 366 days. */
  lemma YearlyGap(y: int, m: int, d: int)
    requires 1 <= m <= 12 && 1 <= d <= DaysInMonth(false, m)
    ensures IsDate(Date(y, m, d)) && IsDate(Date(y + 1, m, d))
    ensures 365 <= DayNumber(Date(y + 1, m, d)) - DayNumber(Date(y, m, d)) <= 366
  {
    YearLength(y);
    LeapShift(m);
    NoTwoLeapYears(y);
    hide IsLeap, DaysBeforeYear, DaysBeforeMonth;
  }

  lemma NoTwoLeapYears(y: int)
    ensures !(IsLeap(y) && IsLeap(y + 1))
  {
  }

  lemma {:induction false} LeapShift(m: int)
    requires 1 <= m <= 13
    ensures DaysBeforeMonth(true, m) == DaysBeforeMonth(false, m) + if m > 2 then 1 else 0
    decreases m
  {
    if m > 1 { LeapShift(m - 1); }
  }
}
