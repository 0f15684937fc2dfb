/**
 * The proleptic Gregorian calendar of Python's `datetime`, on whole seconds counted from
 * 0001-01-01 00:00:00 (a Monday): day numbers, weekdays, month starts and the
 * `%Y%m%d_%H%M%S` rendering used in session identifiers.
 */
module Calendar {
  import opened Text

  const SecondsPerDay: nat := 86400

  predicate IsLeap(y: nat)
  {
    y % 4 == 0 && (y % 100 != 0 || y % 400 == 0)
  }

  function DaysInYear(y: nat): nat
  {
    if IsLeap(y) then 366 else 365
  }

  function DaysInMonth(y: nat, m: nat): (n: nat)
    requires 1 <= m <= 12
    ensures 28 <= n <= 31
  {
    if m == 2 then (if IsLeap(y) then 29 else 28)
    else if m == 4 || m == 6 || m == 9 || m == 11 then 30
    else 31
  }

  /** Days from 0001-01-01 to January 1st of year y. */
  function DaysBeforeYear(y: nat): nat
    requires y >= 1
  {
    var p := y - 1;
    p * 365 + p / 4 - p / 100 + p / 400
  }

  /** Days from January 1st to the first of month m. */
  function DaysBeforeMonth(y: nat, m: nat): nat
    requires 1 <= m <= 12
  {
    if m == 1 then 0 else DaysBeforeMonth(y, m - 1) + DaysInMonth(y, m - 1)
  }

  predicate ValidDate(y: nat, m: nat, d: nat)
  {
    y >= 1 && 1 <= m <= 12 && 1 <= d <= DaysInMonth(y, m)
  }

  /** `date(y, m, d).toordinal() - 1`. */
  function DayNumber(y: nat, m: nat, d: nat): nat
    requires ValidDate(y, m, d)
  {
    DaysBeforeYear(y) + DaysBeforeMonth(y, m) + d - 1
  }

  lemma YearLength(y: nat)
    requires y >= 1
    ensures DaysBeforeYear(y + 1) == DaysBeforeYear(y) + DaysInYear(y)
  {
    DivStep4(y);
    DivStep100(y);
    DivStep400(y);
    DivisibleChain(y);
  }

  lemma DivisibleChain(y: nat)
    ensures y % 400 == 0 ==> y % 100 == 0
    ensures y % 100 == 0 ==> y % 4 == 0
  {
    if y % 400 == 0 {
      assert y == 400 * (y / 400);
      assert y == 100 * (4 * (y / 400));
    }
    if y % 100 == 0 {
      assert y == 100 * (y / 100);
      assert y == 4 * (25 * (y / 100));
    }
  }

  lemma DivStep4(y: nat)
    requires y >= 1
    ensures y / 4 == (y - 1) / 4 + (if y % 4 == 0 then 1 else 0)
  {
  }

  lemma DivStep100(y: nat)
    requires y >= 1
    ensures y / 100 == (y - 1) / 100 + (if y % 100 == 0 then 1 else 0)
  {
  }

  lemma DivStep400(y: nat)
    requires y >= 1
    ensures y / 400 == (y - 1) / 400 + (if y % 400 == 0 then 1 else 0)
  {
  }

  lemma {:induction false} MonthsFillYear(y: nat)
    ensures DaysBeforeMonth(y, 12) + DaysInMonth(y, 12) == DaysInYear(y)
  {
    var leap := if IsLeap(y) then 1 else 0;
    assert DaysBeforeMonth(y, 2) == 31;
    assert DaysBeforeMonth(y, 3) == 59 + leap;
    assert DaysBeforeMonth(y, 4) == 90 + leap;
    assert DaysBeforeMonth(y, 5) == 120 + leap;
    assert DaysBeforeMonth(y, 6) == 151 + leap;
    assert DaysBeforeMonth(y, 7) == 181 + leap;
    assert DaysBeforeMonth(y, 8) == 212 + leap;
    assert DaysBeforeMonth(y, 9) == 243 + leap;
    assert DaysBeforeMonth(y, 10) == 273 + leap;
    assert DaysBeforeMonth(y, 11) == 304 + leap;
    assert DaysBeforeMonth(y, 12) == 334 + leap;
  }

  /** The months partition the year: the days before month m are fewer than a year. */
  lemma {:induction false} DaysBeforeMonthBound(y: nat, m: nat)
    requires 1 <= m <= 12
    ensures DaysBeforeMonth(y, m) + DaysInMonth(y, m) <= DaysInYear(y)
    decreases 12 - m
  {
    if m < 12 {
      DaysBeforeMonthBound(y, m + 1);
    } else {
      MonthsFillYear(y);
    }
  }

  function NextYear(y: nat, m: nat): nat
  {
    if m == 12 then y + 1 else y
  }

  function NextMonth(m: nat): nat
  {
    if m == 12 then 1 else m + 1
  }

  /** Instant of `datetime(y, m, 1)`. */
  function MonthStart(y: nat, m: nat): nat
    requires y >= 1 && 1 <= m <= 12
  {
    DayNumber(y, m, 1) * SecondsPerDay
  }

  /** The next month starts exactly the length of this month later. */
  lemma NextMonthStart(y: nat, m: nat)
    requires y >= 1 && 1 <= m <= 12
    ensures MonthStart(NextYear(y, m), NextMonth(m)) == MonthStart(y, m) + DaysInMonth(y, m) * SecondsPerDay
  {
    if m == 12 {
      YearLength(y);
      MonthsFillYear(y);
    }
  }

  /** The year containing day number n, searching upwards from year y. */
  function YearFrom(y: nat, n: nat): (r: nat)
    requires y >= 1 && DaysBeforeYear(y) <= n
    ensures r >= y && DaysBeforeYear(r) <= n < DaysBeforeYear(r + 1)
    decreases n - DaysBeforeYear(y)
  {
    YearLength(y);
    if n < DaysBeforeYear(y + 1) then y else YearFrom(y + 1, n)
  }

  /** The month containing day k of year y, searching upwards from month m. */
  function MonthFrom(y: nat, m: nat, k: nat): (r: nat)
    requires 1 <= m <= 12 && DaysBeforeMonth(y, m) <= k < DaysInYear(y)
    ensures m <= r <= 12 && DaysBeforeMonth(y, r) <= k < DaysBeforeMonth(y, r) + DaysInMonth(y, r)
    decreases 12 - m
  {
    if k < DaysBeforeMonth(y, m) + DaysInMonth(y, m) || m == 12 then
      (if m == 12 then MonthsFillYear(y); m else m)
    else MonthFrom(y, m + 1, k)
  }

  datatype CivilDate = CivilDate(year: nat, month: nat, day: nat)

  /** `date.fromordinal(n + 1)`: the calendar date of day number n. */
  function CivilOf(n: nat): (c: CivilDate)
    ensures ValidDate(c.year, c.month, c.day)
    ensures DayNumber(c.year, c.month, c.day) == n
  {
    var y := YearFrom(1, n);
    YearLength(y);
    var k := n - DaysBeforeYear(y);
    var m := MonthFrom(y, 1, k);
    CivilDate(y, m, k - DaysBeforeMonth(y, m) + 1)
  }

  /** A date's day number names that date again. */
  lemma {:induction false} CivilOfDayNumber(y: nat, m: nat, d: nat)
    requires ValidDate(y, m, d)
    ensures CivilOf(DayNumber(y, m, d)) == CivilDate(y, m, d)
  {
    hide DaysBeforeYear, DaysBeforeMonth, DaysInYear, DaysInMonth, CivilOf;
    var n := DayNumber(y, m, d);
    var c := CivilOf(n);
    DaysBeforeMonthBound(y, m);
    YearLength(y);
    YearLength(c.year);
    DaysBeforeMonthBound(c.year, c.month);
    assert !(y < c.year) by {
      if y < c.year { YearsIncrease(y, c.year); }
    }
    assert !(c.year < y) by {
      if c.year < y { YearsIncrease(c.year, y); }
    }
    assert !(m < c.month) by {
      if m < c.month { MonthsIncrease(y, m, c.month); }
    }
    assert !(c.month < m) by {
      if c.month < m { MonthsIncrease(y, c.month, m); }
    }
  }

  lemma {:induction false} YearsIncrease(a: nat, b: nat)
    requires 1 <= a < b
    ensures DaysBeforeYear(a + 1) <= DaysBeforeYear(b)
    decreases b - a
  {
    if a + 1 < b {
      YearsIncrease(a + 1, b);
      YearLength(a + 1);
    }
  }

  lemma {:induction false} MonthsIncrease(y: nat, a: nat, b: nat)
    requires 1 <= a < b <= 12
    ensures DaysBeforeMonth(y, a) + DaysInMonth(y, a) <= DaysBeforeMonth(y, b)
    decreases b - a
  {
    if a + 1 < b {
      MonthsIncrease(y, a + 1, b);
    }
  }

  /** `datetime.weekday()`: 0 for Monday. */
  function Weekday(t: nat): nat
  {
    (t / SecondsPerDay) % 7
  }

  /** `t.replace(hour=0, minute=0, second=0)`. */
  function Midnight(t: nat): nat
  {
    t / SecondsPerDay * SecondsPerDay
  }

  /** Midnight of the Monday of t's week. */
  function WeekStart(t: nat): (w: nat)
    ensures w <= t < w + 7 * SecondsPerDay
    ensures Weekday(w) == 0
    ensures w % SecondsPerDay == 0
    ensures w == Midnight(t) - Weekday(t) * SecondsPerDay
  {
    var day := t / SecondsPerDay;
    assert day % 7 <= day;
    var mondayDay := day - day % 7;
    assert mondayDay % 7 == 0;
    assert mondayDay * SecondsPerDay / SecondsPerDay == mondayDay;
    mondayDay * SecondsPerDay
  }

  /** Four-digit year; a year beyond 9999 cannot occur in `datetime`. */
  function YearText(y: nat): string
  {
    if y < 10000 then PaddedDigits(y, 4) else DigitsOf(y)
  }

  /** `t.strftime('%Y%m%d_%H%M%S')`. */
  function Stamp(t: nat): string
  {
    var c := CivilOf(t / SecondsPerDay);
    var secs := t % SecondsPerDay;
    assert Pow10(2) == 100;
    YearText(c.year) + PaddedDigits(c.month, 2) + PaddedDigits(c.day, 2) + "_"
      + PaddedDigits(secs / 3600, 2) + PaddedDigits(secs % 3600 / 60, 2) + PaddedDigits(secs % 60, 2)
  }
}
