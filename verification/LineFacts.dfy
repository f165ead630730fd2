/** Whose lines a month has, which shifts they read, and what they and the payload carry, in terms of rows and days. */
module LineFacts {
  import opened Sorting
  import opened TimeCalculation
  import opened AttendanceDb
  import opened Calendar
  import opened Wages
  import opened BasePay
  import opened Preview
  import opened PreviewMeaning
  import opened PreviewRuns
  import opened CloseGate
  import opened MonthPayload

  // ---- Employees ----

  /** Employed on the day: hired by then, and not gone before. */
  predicate WorksOn(e: Employee, day: int) {
    e.hired <= day && match e.left { case Some(left) => day <= left case None => true }
  }

  /** An employee belongs to a month who works there on some day of it. */
  lemma EmployedOnSomeDay(e: Employee, date: Date)
    requires 1 <= date.month <= 12 && (e.left.Some? ==> e.hired <= e.left.value)
    ensures EmployedIn(e, date) <==>
      exists day :: Ordinal(FirstOf(date)) <= day < Ordinal(NextMonth(date)) && WorksOn(e, day)
  {
    MonthsAdjoin(date);
    var first := Ordinal(FirstOf(date));
    var day := if e.hired < first then first else e.hired;
    if EmployedIn(e, date) { assert first <= day < Ordinal(NextMonth(date)) && WorksOn(e, day); }
  }

  /** Each of them has one line, and nobody else has one. */
  lemma OneLineEach(staff: seq<Employee>, date: Date, e: nat)
    ensures multiset(EmployeesOf(staff, date))[e] == if e < |staff| && EmployedIn(staff[e], date) then 1 else 0
  {
    var key := (i: nat) => if i < |staff| then staff[i].code else 0;
    SortBySorts(EmployeeIds(staff, date), key);
    OneIdEach(staff, date, e);
  }

  lemma {:induction false} OneIdEach(staff: seq<Employee>, date: Date, e: nat)
    ensures multiset(EmployeeIds(staff, date))[e] == if e < |staff| && EmployedIn(staff[e], date) then 1 else 0
  {
    if staff != [] {
      var n := |staff| - 1;
      OneIdEach(staff[..n], date, e);
      OneMore(EmployeeIds(staff[..n], date), n, e);
    }
  }

  lemma OneMore(ids: seq<nat>, n: nat, e: nat)
    ensures multiset(ids + [n])[e] == multiset(ids)[e] + if e == n then 1 else 0
  {
  }

  // ---- Shifts ----

  lemma {:induction false} OneShiftIdEach(rows: seq<ShiftRow>, employee: nat, shift: nat)
    ensures multiset(ShiftIds(rows, employee))[shift]
            == if shift < |rows| && rows[shift].employee == employee then 1 else 0
  {
    if rows != [] {
      var n := |rows| - 1;
      OneShiftIdEach(rows[..n], employee, shift);
      OneMore(ShiftIds(rows[..n], employee), n, shift);
    }
  }

  /** A line reads each shift of its employee once, and no other, in the order in which they were opened. */
  lemma ShiftsRead(rows: seq<ShiftRow>, employee: nat, shift: nat)
    ensures multiset(ShiftsOf(rows, employee))[shift]
            == if shift < |rows| && rows[shift].employee == employee then 1 else 0
    ensures forall i, j :: 0 <= i < j < |ShiftsOf(rows, employee)| ==>
      OpenedBy(rows, ShiftsOf(rows, employee)[i], ShiftsOf(rows, employee)[j])
  {
    var key := (i: nat) => if i < |rows| then rows[i].openedAt else 0;
    SortBySorts(ShiftIds(rows, employee), key);
    OneShiftIdEach(rows, employee, shift);
    var ids := ShiftsOf(rows, employee);
    assert ids == SortBy(ShiftIds(rows, employee), key);
  }

  predicate OpenedBy(rows: seq<ShiftRow>, a: nat, b: nat) {
    a < |rows| && b < |rows| ==> rows[a].openedAt <= rows[b].openedAt
  }

  // ---- Raw punches ----

  /** Punches are read back in UTC: each row of the shift gives one event of offset 0. */
  lemma {:induction false} RawHolds(rows: seq<EventRow>, shift: nat, k: nat)
    requires k < |rows| && rows[k].shift == shift
    ensures Event(rows[k].kind, rows[k].at, 0) in EventsOf(rows, shift)
  {
    if k < |rows| - 1 { RawHolds(rows[..|rows| - 1], shift, k); }
  }

  function RowsOf(rows: seq<EventRow>, shift: nat): nat {
    if rows == [] then 0 else RowsOf(rows[..|rows| - 1], shift) + if rows[|rows| - 1].shift == shift then 1 else 0
  }

  lemma {:induction false} RawAsMany(rows: seq<EventRow>, shift: nat)
    ensures |EventsOf(rows, shift)| == RowsOf(rows, shift)
    ensures forall e :: e in EventsOf(rows, shift) ==> e.offset == 0
  {
    if rows != [] { RawAsMany(rows[..|rows| - 1], shift); }
  }

  // ---- Lines ----

  /** The wage shown on a line is the one in force on the first of the month, if any is. */
  lemma LineShowsFirstWage(books: Books, employee: nat, date: Date, rnd: real -> real)
    requires Apart(books.wages)
    ensures LineFor(books, employee, date, rnd).hourlyWage == WageOn(books.wages, employee, Ordinal(FirstOf(date)))
    ensures LineFor(books, employee, date, rnd).employee == employee
    ensures WageOn(books.wages, employee, Ordinal(FirstOf(date))) == None ==>
      MissingHourlyWage in LineFor(books, employee, date, rnd).blockers
  {
    WageAtStart(books.wages, employee, Ordinal(FirstOf(date)));
  }

  /** Each rated segment is explained by its hours, its wage and their rounded product… */
  lemma ExplanationIs(segments: seq<RatedSegment>, rnd: real -> real, i: nat)
    requires i < |segments|
    ensures |Explained(segments, rnd)| == |segments|
    ensures var line := Explained(segments, rnd)[i];
      && line.hours == segments[i].hours && line.hourlyWage == segments[i].hourlyWage
      && line.subtotal == rnd(segments[i].hours * segments[i].hourlyWage as real)
  {
    var h, wage := segments[i].hours, segments[i].hourlyWage;
    assert Times(h, wage) == h * wage as real;
  }

  /** …and the running rounded total of these products is the gross. */
  lemma {:induction false} ExplanationAddsUp(segments: seq<RatedSegment>, rnd: real -> real)
    ensures RunningTotal(Explained(segments, rnd), rnd) == GrossTotal(segments, rnd)
  {
    if segments != [] {
      ExplanationAddsUp(segments[..|segments| - 1], rnd);
      var lines := Explained(segments, rnd);
      assert lines[..|lines| - 1] == Explained(segments[..|segments| - 1], rnd);
    }
  }

  function RunningTotal(lines: seq<Line>, rnd: real -> real): real {
    if lines == [] then 0.0 else rnd(RunningTotal(lines[..|lines| - 1], rnd) + lines[|lines| - 1].subtotal)
  }

  /** The hours of a line: each segment's microseconds are divided into hours, rounded, and added to a total that is
      rounded after each addition. */
  lemma {:induction false} HoursAddUp(segs: seq<Segment>, totals: seq<real>, rnd: real -> real)
    requires |totals| == |segs| + 1 && totals[0] == 0.0
    requires forall i :: 0 <= i < |segs| ==> segs[i].start < segs[i].end
    requires forall i :: 0 <= i < |segs| ==>
      totals[i + 1] == rnd(totals[i] + rnd((segs[i].end - segs[i].start) as real / (60.0 * 60.0 * 1_000_000.0)))
    ensures HoursTotal(segs, rnd) == totals[|segs|]
  {
    if segs != [] {
      var n := |segs| - 1;
      HoursAddUp(segs[..n], totals[..n + 1], rnd);
      var micros := segs[n].end - segs[n].start;
      assert PerHour(micros as real) == micros as real / (60.0 * 60.0 * 1_000_000.0);
    }
  }

  // ---- The payload ----

  /** What the i-th line of a built payload carries: the code and the gross of the month's i-th employee, as one earning
      and without deductions or anything that blocks. */
  predicate CarriesLine(p: PayloadLine, e: Employee, gross: int) {
    && p.employee == Some(e.code) && p.net == gross && p.earnings == [Item("기본급", gross)] && p.deductions == []
    && p.timeBlockers == {} && p.weeklyAllowanceResolved && p.insuranceFinal && p.restWeekday == None
    && p.boundaryWeekComplete && !p.missingContractFacts
  }

  lemma BuiltLineCarries(payload: seq<PayloadLine>, books: Books, date: Date, rnd: real -> real, i: nat)
    requires BuiltFrom(payload, books, date, rnd) && i < |payload|
    ensures i < |EmployeesOf(books.staff, date)| && EmployeesOf(books.staff, date)[i] < |books.staff|
    ensures var e := EmployeesOf(books.staff, date)[i];
      CarriesLine(payload[i], books.staff[e], LineFor(books, e, date, rnd).gross)
  {
    var employees := EmployeesOf(books.staff, date);
    if employees != [] { LinesForAt(books, date, rnd, if i < |employees| then i else 0); }
    assert employees[i] in employees;
    EveryEmployeeHasALine(books.staff, date, employees[i]);
  }
}
