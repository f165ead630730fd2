/** Months, dates and wages of counted time in plain numbers: day ordinals and Seoul's nine hours. */
module SeoulMonths {
  import opened Sorting
  import opened TimeCalculation
  import opened Attribution
  import opened AttendanceDb
  import opened Calendar
  import opened Wages
  import opened BasePay
  import opened Preview
  import opened PreviewMeaning

  /** The instant belongs to the day of this ordinal in Seoul. */
  predicate OnDay(t: int, day: int) { day * (24 * HOUR) <= t + 9 * HOUR < (day + 1) * (24 * HOUR) }

  /** …to the days from `first` on, before `end`. */
  predicate OnDays(t: int, first: int, end: int) { first * (24 * HOUR) <= t + 9 * HOUR < end * (24 * HOUR) }

  // ---- Which segments a line counts ----

  lemma {:induction false} StartingKeeps(segs: seq<Segment>, lo: int, hi: int, k: nat) returns (i: nat)
    requires k < |segs| && lo <= segs[k].start < hi
    ensures i < |StartingIn(segs, lo, hi)| && StartingIn(segs, lo, hi)[i] == segs[k]
  {
    var n := |segs| - 1;
    if k < n { i := StartingKeeps(segs[..n], lo, hi, k); } else { i := |StartingIn(segs[..n], lo, hi)|; }
  }

  lemma {:induction false} FlatHolds<T>(ids: seq<nat>, f: nat -> seq<T>, i: nat, j: nat) returns (k: nat)
    requires i < |ids| && j < |f(ids[i])|
    ensures k < |Flat(ids, f)| && Flat(ids, f)[k] == f(ids[i])[j]
  {
    var n := |ids| - 1;
    if i < n { k := FlatHolds(ids[..n], f, i, j); } else { k := |Flat(ids[..n], f)| + j; }
  }

  /** Every counted segment starts, by Seoul's clock, on a day of the month. */
  lemma CountedStartsInTheMonth(books: Books, employee: nat, date: Date, k: nat)
    requires k < |CountedFor(books, employee, date)|
    ensures OnDays(CountedFor(books, employee, date)[k].start, Ordinal(FirstOf(date)), Ordinal(NextMonth(date)))
  {
    MonthsInUtc(date);
    CountedStart(books.db, ShiftsFor(books, employee), MonthStart(date), MonthEnd(date), k);
  }

  /** And every segment of the employee's shifts that does is counted. */
  lemma StartsInTheMonthCounted(books: Books, employee: nat, date: Date, i: nat, j: nat) returns (k: nat)
    requires i < |ShiftsFor(books, employee)|
    requires var segs := Segments(EffectiveEvents(books.db, ShiftsFor(books, employee)[i]));
      j < |segs| && OnDays(segs[j].start, Ordinal(FirstOf(date)), Ordinal(NextMonth(date)))
    ensures k < |CountedFor(books, employee, date)|
    ensures CountedFor(books, employee, date)[k]
         == Segments(EffectiveEvents(books.db, ShiftsFor(books, employee)[i]))[j]
  {
    MonthsInUtc(date);
    var shifts, lo, hi := ShiftsFor(books, employee), MonthStart(date), MonthEnd(date);
    var l := StartingKeeps(Segments(EffectiveEvents(books.db, shifts[i])), lo, hi, j);
    k := FlatHolds(shifts, StartsOf(books.db, lo, hi), i, l);
  }

  // ---- At which wage ----

  /** The wage on a day is that of the employee's row whose half-open range contains it. */
  lemma WageOnIs(rows: seq<WageRow>, employee: nat, day: int, i: nat)
    requires Apart(rows) && i < |rows| && rows[i].employee == employee
    requires rows[i].lower <= day && (rows[i].upper == None || day < rows[i].upper.value)
    ensures WageOn(rows, employee, day) == Some(rows[i].amount)
  {
    OneInForce(rows, employee, day, i);
  }

  lemma NoWageOn(rows: seq<WageRow>, employee: nat, day: int)
    requires forall i :: 0 <= i < |rows| && rows[i].employee == employee && rows[i].lower <= day ==>
      rows[i].upper.Some? && rows[i].upper.value <= day
    ensures WageOn(rows, employee, day) == None
  {
  }

  /** A segment is rated at the wage of the Seoul day on which it starts. */
  lemma {:induction false} RatedAtItsDay(segs: seq<Segment>, wages: seq<WageRow>, employee: nat, k: nat, day: int,
                                         wage: nat)
    returns (i: nat)
    requires k < |segs| && segs[k].start < segs[k].end && OnDay(segs[k].start, day)
    requires WageOn(wages, employee, day) == Some(wage)
    ensures i < |WorkOf(segs, wages, employee)|
    ensures WorkOf(segs, wages, employee)[i] == Work(segs[k].end - segs[k].start, wage)
  {
    var n := |segs| - 1;
    if k < n {
      i := RatedAtItsDay(segs[..n], wages, employee, k, day, wage);
    } else {
      LocalDateIs(segs[k].start, day);
      i := |WorkOf(segs[..n], wages, employee)|;
    }
  }

  /** Without one the line lacks a wage. */
  lemma UnpaidOnItsDay(segs: seq<Segment>, wages: seq<WageRow>, employee: nat, k: nat, day: int)
    requires k < |segs| && OnDay(segs[k].start, day) && WageOn(wages, employee, day) == None
    ensures AnyUnpaid(segs, wages, employee)
  {
    LocalDateIs(segs[k].start, day);
  }

  // ---- Midnights ----

  lemma SeoulDayStart(p: int, day: int)
    requires p + 9 * HOUR == day * (24 * HOUR)
    ensures IsMidnight(p, 9 * HOUR)
  {
    assert (day * DAY) % DAY == 0;
  }

  /** Shifts recorded with Seoul's offset are paid, between any two Seoul midnights, exactly for the time worked. */
  lemma SeoulEventsAreExact(events: seq<Event>, lo: int, hi: int, a: int, b: int)
    requires Accepted(events) && forall i :: 0 <= i < |events| ==> events[i].offset == 9 * HOUR
    requires lo + 9 * HOUR == a * (24 * HOUR) && hi + 9 * HOUR == b * (24 * HOUR) && a <= b
    ensures PaidIn(Segments(events), lo, hi) == WorkedTime(SortByTime(events), lo, hi)
  {
    SeoulDayStart(lo, a);
    SeoulDayStart(hi, b);
    StoreOffsetIsExact(events, lo, hi, 9 * HOUR);
  }

  /** A night shift over the end of a month: 22:00 to 02:00 by Seoul's clock. */
  function NightShift(p: int, offset: int): seq<Event> {
    [Event(ClockIn, p - 2 * HOUR, offset), Event(ClockOut, p + 2 * HOUR, offset)]
  }

  /** The months on both sides of the instant, each longer than a night. */
  lemma MonthsAround(date: Date, p: int)
    requires 1 <= date.month <= 12 && p + 9 * HOUR == Ordinal(NextMonth(date)) * (24 * HOUR)
    ensures MonthEnd(date) == MonthStart(NextMonth(date)) == p
    ensures MonthStart(date) + 24 * HOUR <= p <= MonthEnd(NextMonth(date)) - 24 * HOUR
  {
    var n := NextMonth(date);
    assert FirstOf(n) == n;
    MonthsInUtc(date);
    MonthsInUtc(n);
    MonthsAdjoin(date);
    MonthsAdjoin(n);
    DaysApart(Ordinal(FirstOf(date)), Ordinal(n));
    DaysApart(Ordinal(n), Ordinal(NextMonth(n)));
  }

  lemma DaysApart(a: int, b: int)
    requires a < b
    ensures a * (24 * HOUR) + 24 * HOUR <= b * (24 * HOUR)
  {
  }

  lemma NightWord(p: int, offset: int)
    ensures var w := NightShift(p, offset); TimeSorted(w) && Complete(w) && SortByTime(w) == w
  {
    var w := NightShift(p, offset);
    SortedIsFixed(w, (e: Event) => e.at);
    assert LegalAt(w[0].kind, 0, false) && LegalAt(w[1].kind, 1, true);
  }

  lemma UtcNightIsOneSegment(p: int, day: int)
    requires p + 9 * HOUR == day * (24 * HOUR)
    ensures Segments(NightShift(p, 0)) == [Segment(p - 2 * HOUR, p + 2 * HOUR)]
  {
    SeoulDayStart(p, day);
    forall q | p - 2 * HOUR < q < p + 2 * HOUR ensures !IsMidnight(q, 0) { NoUtcMidnight(p, q); }
    NightWord(p, 0);
    OneStretch(NightShift(p, 0));
  }

  lemma NoUtcMidnight(p: int, q: int)
    requires IsMidnight(p, 9 * HOUR) && p - 2 * HOUR < q < p + 2 * HOUR
    ensures !IsMidnight(q, 0)
  {
  }

  lemma OneSegmentPaid(s: Segment, lo: int, hi: int)
    ensures PaidIn([s], lo, hi) == if lo <= s.start < hi then s.end - s.start else 0
  {
    assert [s][..0] == [];
  }

  /** Punched, and so read back in UTC, it is one segment that starts in the old month: all four hours are counted there
      and none in the new month. */
  lemma UtcNightAtMonthEnd(date: Date, p: int)
    requires 1 <= date.month <= 12 && p + 9 * HOUR == Ordinal(NextMonth(date)) * (24 * HOUR)
    ensures Segments(NightShift(p, 0)) == [Segment(p - 2 * HOUR, p + 2 * HOUR)]
    ensures PaidIn(Segments(NightShift(p, 0)), MonthStart(date), MonthEnd(date)) == 4 * HOUR
    ensures PaidIn(Segments(NightShift(p, 0)), MonthStart(NextMonth(date)), MonthEnd(NextMonth(date))) == 0
  {
    UtcNightIsOneSegment(p, Ordinal(NextMonth(date)));
    MonthsAround(date, p);
    OneSegmentPaid(Segment(p - 2 * HOUR, p + 2 * HOUR), MonthStart(date), MonthEnd(date));
    OneSegmentPaid(Segment(p - 2 * HOUR, p + 2 * HOUR), MonthStart(NextMonth(date)), MonthEnd(NextMonth(date)));
  }

  /** Typed with Seoul's offset it is cut at the month's end: two hours on each side. */
  lemma SeoulNightAtMonthEnd(date: Date, p: int)
    requires 1 <= date.month <= 12 && p + 9 * HOUR == Ordinal(NextMonth(date)) * (24 * HOUR)
    ensures var segs := Segments(NightShift(p, 9 * HOUR));
      && PaidIn(segs, MonthStart(date), MonthEnd(date)) == 2 * HOUR
      && PaidIn(segs, MonthStart(NextMonth(date)), MonthEnd(NextMonth(date))) == 2 * HOUR
  {
    var n := NextMonth(date);
    MonthsAround(date, p);
    MonthsInUtc(date);
    MonthsInUtc(n);
    assert FirstOf(n) == n;
    NightWord(p, 9 * HOUR);
    MonthsAdjoin(date);
    MonthsAdjoin(n);
    SeoulEventsAreExact(NightShift(p, 9 * HOUR), MonthStart(date), p, Ordinal(FirstOf(date)), Ordinal(n));
    SeoulEventsAreExact(NightShift(p, 9 * HOUR), p, MonthEnd(n), Ordinal(n), Ordinal(NextMonth(n)));
    NightWorked(p, MonthStart(date), MonthEnd(n));
  }

  lemma NightWorked(p: int, lo: int, hi: int)
    requires lo + 2 * HOUR <= p <= hi - 2 * HOUR
    ensures WorkedTime(NightShift(p, 9 * HOUR), lo, p) == WorkedTime(NightShift(p, 9 * HOUR), p, hi) == 2 * HOUR
  {
    NightShared(p, lo, p);
    NightShared(p, p, hi);
  }

  lemma NightShared(p: int, lo: int, hi: int)
    ensures WorkedTime(NightShift(p, 9 * HOUR), lo, hi) == Overlap(p - 2 * HOUR, p + 2 * HOUR, lo, hi)
  {
    var w := NightShift(p, 9 * HOUR);
    NightWord(p, 9 * HOUR);
    AcceptedWord(w);
    WorkedTimeIsShared(w, lo, hi);
    OneInterval(w);
    OneShared(Interval(p - 2 * HOUR, 9 * HOUR, p + 2 * HOUR), lo, hi);
  }

  lemma OneShared(x: Interval, lo: int, hi: int)
    ensures SharedByIntervals([] + [x], lo, hi) == Overlap(x.start, x.end, lo, hi)
  {
    assert ([] + [x])[..0] == [];
  }
}
