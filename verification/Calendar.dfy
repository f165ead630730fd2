/** The proleptic Gregorian calendar by day ordinals, and Asia/Seoul midnights. Ordinal 1 is Monday
    0001-01-01; instants count microseconds from the UTC midnight of ordinal 0. */
module Calendar {
  import opened TimeCalculation
  import opened Attribution

  datatype Date = Date(year: int, month: int, day: int)

  predicate IsLeap(y: int) { y % 4 == 0 && (y % 100 != 0 || y % 400 == 0) }

  function DaysInMonth(y: int, m: int): (n: int)
    ensures 28 <= n <= 31
  {
    if m == 2 then (if IsLeap(y) then 29 else 28)
    else if m == 4 || m == 6 || m == 9 || m == 11 then 30
    else 31
  }

  function DaysBeforeYear(y: int): int { (y - 1) * 365 + (y - 1) / 4 - (y - 1) / 100 + (y - 1) / 400 }

  function DaysBeforeMonth(y: int, m: int): int
    decreases m
  {
    if m <= 1 then 0 else DaysBeforeMonth(y, m - 1) + DaysInMonth(y, m - 1)
  }

  function Ordinal(d: Date): int { DaysBeforeYear(d.year) + DaysBeforeMonth(d.year, d.month) + d.day }

  /** Monday is 0. */
  function Weekday(ordinal: int): int { (ordinal + 6) % 7 }

  function FirstOf(d: Date): Date { d.(day := 1) }

  function NextMonth(d: Date): Date {
    if d.month == 12 then Date(d.year + 1, 1, 1) else Date(d.year, d.month + 1, 1)
  }

  function PreviousMonth(d: Date): Date {
    if d.month == 1 then Date(d.year - 1, 12, 1) else Date(d.year, d.month - 1, 1)
  }

  lemma CenturyIsFourth(y: int)
    requires y % 100 == 0
    ensures y % 4 == 0
  {
    var k := 25 * (y / 100);
    assert y == 4 * k;
  }

  lemma FourthCentury(y: int)
    requires y % 400 == 0
    ensures y % 100 == 0
  {
    var k := 4 * (y / 400);
    assert y == 100 * k;
  }

  lemma YearLength(y: int)
    ensures DaysBeforeYear(y + 1) == DaysBeforeYear(y) + (if IsLeap(y) then 366 else 365)
  {
    Fourth(y);
    Hundredth(y);
    FourHundredth(y);
    if y % 400 == 0 { FourthCentury(y); }
    if y % 100 == 0 { CenturyIsFourth(y); }
  }

  lemma Fourth(y: int)
    ensures y / 4 == (y - 1) / 4 + (if y % 4 == 0 then 1 else 0)
  {
  }

  lemma Hundredth(y: int)
    ensures y / 100 == (y - 1) / 100 + (if y % 100 == 0 then 1 else 0)
  {
  }

  lemma FourHundredth(y: int)
    ensures y / 400 == (y - 1) / 400 + (if y % 400 == 0 then 1 else 0)
  {
  }

  lemma MonthsOfYear(y: int)
    ensures DaysBeforeMonth(y, 12) + DaysInMonth(y, 12) == if IsLeap(y) then 366 else 365
  {
    assert DaysBeforeMonth(y, 3) == 31 + DaysInMonth(y, 2);
    assert DaysBeforeMonth(y, 5) == DaysBeforeMonth(y, 3) + 61;
    assert DaysBeforeMonth(y, 7) == DaysBeforeMonth(y, 5) + 61;
    assert DaysBeforeMonth(y, 9) == DaysBeforeMonth(y, 7) + 62;
    assert DaysBeforeMonth(y, 11) == DaysBeforeMonth(y, 9) + 61;
    assert DaysBeforeMonth(y, 12) == DaysBeforeMonth(y, 11) + 30;
  }

  /** Months follow each other without gap or overlap. */
  lemma MonthsAdjoin(d: Date)
    requires 1 <= d.month <= 12
    ensures Ordinal(NextMonth(d)) == Ordinal(FirstOf(d)) + DaysInMonth(d.year, d.month)
    ensures PreviousMonth(NextMonth(d)) == FirstOf(d)
  {
    if d.month == 12 {
      YearLength(d.year);
      MonthsOfYear(d.year);
    }
  }

  // ---- Seoul time ----

  function SeoulMidnight(ordinal: int): int { ordinal * DAY - SEOUL }

  /** timezone.localtime(t).date() */
  function LocalDate(t: int): int { (t + SEOUL) / DAY }

  /** An instant falls on a date exactly when it lies between that date's midnights. */
  lemma LocalDateBounds(t: int, a: int, b: int)
    ensures SeoulMidnight(a) <= t < SeoulMidnight(b) <==> a <= LocalDate(t) < b
  {
  }

  /** The instants of a month: from its first Seoul midnight to that of the next month. */
  function MonthStart(d: Date): int { SeoulMidnight(Ordinal(FirstOf(d))) }
  function MonthEnd(d: Date): int { SeoulMidnight(Ordinal(NextMonth(d))) }

  // ---- The calendar and the clock in plain numbers ----

  lemma FebruaryIs(y: int)
    ensures DaysInMonth(y, 2) == if y % 400 == 0 || (y % 4 == 0 && y % 100 != 0) then 29 else 28
  {
    if y % 400 == 0 { FourthCentury(y); CenturyIsFourth(y); }
  }

  lemma MonthLengths(y: int, m: int)
    requires 1 <= m <= 12
    ensures DaysInMonth(y, m) == if m == 2 then DaysInMonth(y, 2) else if m in {4, 6, 9, 11} then 30 else 31
  {
  }

  /** Ordinals count days, from 1 for 0001-01-01. */
  lemma DaysFollow(d: Date)
    requires 1 <= d.month <= 12
    ensures Ordinal(d.(day := d.day + 1)) == Ordinal(d) + 1
    ensures Ordinal(NextMonth(d)) == Ordinal(d.(day := DaysInMonth(d.year, d.month))) + 1
    ensures Ordinal(Date(1, 1, 1)) == 1
  {
    MonthsAdjoin(d);
    SameMonth(d, d.(day := DaysInMonth(d.year, d.month)));
    SameMonth(d, d.(day := d.day + 1));
  }

  lemma SameMonth(c: Date, d: Date)
    requires c.year == d.year && c.month == d.month
    ensures Ordinal(d) - d.day == Ordinal(c) - c.day == Ordinal(FirstOf(c)) - 1
  {
  }

  /** That day was a Monday, and the weekdays go round. */
  lemma WeekdaysGoRound(ordinal: int)
    ensures Weekday(1) == 0 && Weekday(ordinal + 1) == if Weekday(ordinal) == 6 then 0 else Weekday(ordinal) + 1
    ensures 0 <= Weekday(ordinal) <= 6
  {
  }

  /** Seoul is nine hours ahead: a month begins nine hours before the UTC midnight of its first day. */
  lemma MonthsInUtc(d: Date)
    ensures MonthStart(d) + 9 * HOUR == Ordinal(FirstOf(d)) * (24 * HOUR)
    ensures MonthEnd(d) + 9 * HOUR == Ordinal(NextMonth(d)) * (24 * HOUR)
    ensures HOUR == 60 * 60 * 1_000_000
  {
  }

  lemma LocalDateIs(t: int, k: int)
    ensures LocalDate(t) == k <==> k * (24 * HOUR) <= t + 9 * HOUR < (k + 1) * (24 * HOUR)
  {
    assert DAY == 24 * HOUR;
    var q := (t + SEOUL) / DAY;
    assert q * DAY <= t + SEOUL < (q + 1) * DAY;
    if k * DAY <= t + SEOUL < (k + 1) * DAY { QuotientIs(t + SEOUL, k, q); }
  }

  lemma QuotientIs(x: int, k: int, q: int)
    requires k * DAY <= x < (k + 1) * DAY && q * DAY <= x < (q + 1) * DAY
    ensures k == q
  {
  }
}
