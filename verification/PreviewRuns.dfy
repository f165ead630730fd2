/** Which blockers a payroll line can carry after any history of the services. */
module PreviewRuns {
  import opened Sorting
  import opened TimeCalculation
  import opened MonthScope
  import opened AttendanceDb
  import opened AttendanceRun
  import opened AttendanceWords
  import opened AttendanceCorrections
  import opened Calendar
  import opened Wages
  import opened Preview
  import opened PreviewMeaning

  // ---- The lists are complete ----

  lemma {:induction false} ShiftIdsComplete(rows: seq<ShiftRow>, employee: nat, sh: nat)
    ensures sh in ShiftIds(rows, employee) <==> sh < |rows| && rows[sh].employee == employee
  {
    if rows != [] { ShiftIdsComplete(rows[..|rows| - 1], employee, sh); }
  }

  lemma {:induction false} EmployeeIdsComplete(staff: seq<Employee>, date: Date, e: nat)
    ensures e in EmployeeIds(staff, date) <==> e < |staff| && EmployedIn(staff[e], date)
  {
    if staff != [] { EmployeeIdsComplete(staff[..|staff| - 1], date, e); }
  }

  lemma SortedMembers(xs: seq<nat>, key: nat -> int, x: nat)
    ensures x in SortBy(xs, key) <==> x in xs
  {
    SortBySorts(xs, key);
    assert x in SortBy(xs, key) <==> x in multiset(SortBy(xs, key));
    assert x in xs <==> x in multiset(xs);
  }

  lemma ShiftsOfComplete(rows: seq<ShiftRow>, employee: nat, sh: nat)
    ensures sh in ShiftsOf(rows, employee) <==> sh < |rows| && rows[sh].employee == employee
  {
    SortedMembers(ShiftIds(rows, employee), (i: nat) => if i < |rows| then rows[i].openedAt else 0, sh);
    ShiftIdsComplete(rows, employee, sh);
  }

  /** Exactly the month's employees get a line, ordered by code. */
  lemma EveryEmployeeHasALine(staff: seq<Employee>, date: Date, e: nat)
    ensures e in EmployeesOf(staff, date) <==> e < |staff| && EmployedIn(staff[e], date)
    ensures forall i, j :: 0 <= i < j < |EmployeesOf(staff, date)| ==>
      var a, b := EmployeesOf(staff, date)[i], EmployeesOf(staff, date)[j];
      a < |staff| && b < |staff| ==> staff[a].code <= staff[b].code
  {
    var key := (i: nat) => if i < |staff| then staff[i].code else 0;
    SortedMembers(EmployeeIds(staff, date), key, e);
    EmployeeIdsComplete(staff, date, e);
    SortBySorts(EmployeeIds(staff, date), key);
  }

  // ---- Time blockers ----

  predicate Raises(db: Db, shift: nat, lo: int, hi: int, b: LineBlocker) {
    b in ShiftBlockers(EffectiveEvents(db, shift), lo, hi)
  }

  predicate SomeRaises(db: Db, shifts: seq<nat>, lo: int, hi: int, b: LineBlocker) {
    exists i :: 0 <= i < |shifts| && Raises(db, shifts[i], lo, hi, b)
  }

  lemma {:induction false} InUnion<T>(ids: seq<nat>, f: nat -> set<T>, x: T)
    ensures x in Union(ids, f) <==> exists i :: 0 <= i < |ids| && x in f(ids[i])
  {
    if ids != [] {
      var front := ids[..|ids| - 1];
      InUnion(front, f, x);
      if i: nat :| i < |front| && x in f(front[i]) { assert ids[i] == front[i]; }
      if i: nat :| i < |front| && x in f(ids[i]) { assert front[i] == ids[i]; }
    }
  }

  lemma TimeBlockersAre(db: Db, shifts: seq<nat>, lo: int, hi: int, b: LineBlocker)
    ensures b in TimeBlockers(db, shifts, lo, hi) <==> SomeRaises(db, shifts, lo, hi, b)
  {
    var f := BlockersOf(db, lo, hi);
    InUnion(shifts, f, b);
    assert forall i :: 0 <= i < |shifts| ==> (b in f(shifts[i]) <==> Raises(db, shifts[i], lo, hi, b));
  }

  /** The shift is unclosed and was clocked in before `end`. */
  predicate StillOpenBefore(db: Db, shift: nat, end: int) {
    shift < |db.shifts| && !IsClosed(db, shift)
    && var clockIn := EarliestClockIn(EffectiveEvents(db, shift)); clockIn.Some? && clockIn.value < end
  }

  lemma ShiftBlocksIff(schedule: seq<Choice>, shift: nat, lo: int, hi: int)
    requires AllTimely(schedule) && shift < |Run(EMPTY, schedule).db.shifts|
    ensures var db := Run(EMPTY, schedule).db;
      ShiftBlockers(EffectiveEvents(db, shift), lo, hi) ==
        if StillOpenBefore(db, shift, hi) then {FromTime(OpenShift)} else {}
  {
    var db := Run(EMPTY, schedule).db;
    var events := EffectiveEvents(db, shift);
    OnlyOpenShiftsBlock(schedule, shift);
    if !IsClosed(db, shift) {
      assert FromTimeAll([OpenShift]) == {FromTime(OpenShift)};
      OpenShiftTouchesIff(events, lo, hi);
    } else {
      assert FromTimeAll([]) == {};
    }
  }

  /** After any timely run of kiosk punches, manual entries, approvals and corrections a line's time blockers are
      OPEN_SHIFT or nothing, and it is blocked exactly by shifts of the employee, clocked in before the month's
      end, that are still open — in this month or left over from any earlier one. */
  lemma OnlyOpenShiftsBlockLines(schedule: seq<Choice>, employee: nat, lo: int, hi: int)
    requires AllTimely(schedule)
    ensures var db := Run(EMPTY, schedule).db; var blockers := TimeBlockers(db, ShiftsOf(db.shifts, employee), lo, hi);
      && blockers <= {FromTime(OpenShift)}
      && (FromTime(OpenShift) in blockers
          <==> exists sh :: 0 <= sh < |db.shifts| && db.shifts[sh].employee == employee && StillOpenBefore(db, sh, hi))
  {
    var db := Run(EMPTY, schedule).db;
    var shifts := ShiftsOf(db.shifts, employee);
    var blockers := TimeBlockers(db, shifts, lo, hi);
    forall b | b in blockers ensures b == FromTime(OpenShift) {
      TimeBlockersAre(db, shifts, lo, hi, b);
      var i :| 0 <= i < |shifts| && Raises(db, shifts[i], lo, hi, b);
      ShiftsOfComplete(db.shifts, employee, shifts[i]);
      ShiftBlocksIff(schedule, shifts[i], lo, hi);
    }
    TimeBlockersAre(db, shifts, lo, hi, FromTime(OpenShift));
    if FromTime(OpenShift) in blockers {
      var i :| 0 <= i < |shifts| && Raises(db, shifts[i], lo, hi, FromTime(OpenShift));
      ShiftsOfComplete(db.shifts, employee, shifts[i]);
      ShiftBlocksIff(schedule, shifts[i], lo, hi);
    }
    if sh: nat :| sh < |db.shifts| && db.shifts[sh].employee == employee && StillOpenBefore(db, sh, hi) {
      ShiftsOfComplete(db.shifts, employee, sh);
      ShiftBlocksIff(schedule, sh, lo, hi);
      var i :| 0 <= i < |shifts| && shifts[i] == sh;
      assert Raises(db, shifts[i], lo, hi, FromTime(OpenShift));
    }
  }

  // ---- Missing wages ----

  /** Only a missing wage raises MISSING_HOURLY_WAGE. */
  lemma MissingComesFromWages(books: Books, employee: nat, date: Date, rnd: real -> real)
    ensures MissingHourlyWage in LineFor(books, employee, date, rnd).blockers <==>
      || AnyUnpaid(CountedFor(books, employee, date), books.wages, employee)
      || LastInForce(books.wages, employee, Ordinal(FirstOf(date))).None?
  {
    TimeBlockersAre(books.db, ShiftsOf(books.db.shifts, employee), MonthStart(date), MonthEnd(date), MissingHourlyWage);
  }

  lemma UnpaidIff(acts: seq<Act>, segs: seq<Segment>, employee: nat)
    requires employee < |History(acts).hires|
    ensures AnyUnpaid(segs, History(acts).rows, employee) <==>
      exists i :: 0 <= i < |segs| && LocalDate(segs[i].start) < History(acts).hires[employee]
  {
    HistoryKeeps(acts);
    var p := History(acts);
    forall i | 0 <= i < |segs|
      ensures WageOn(p.rows, employee, LocalDate(segs[i].start)).None?
        <==> LocalDate(segs[i].start) < p.hires[employee] {
      assert WageOn(p.rows, employee, LocalDate(segs[i].start)).Some?
        <==> p.hires[employee] <= LocalDate(segs[i].start);
    }
  }

  /** After any history of hirings and wage changes a line misses a wage exactly when the employee was hired after
      the first of the month, or has counted work dated before the hire date. */
  lemma WageMissingIff(acts: seq<Act>, books: Books, employee: nat, date: Date, rnd: real -> real)
    requires books.wages == History(acts).rows && employee < |History(acts).hires| && 1 <= date.month <= 12
    ensures var hired := History(acts).hires[employee]; var segs := CountedFor(books, employee, date);
      MissingHourlyWage in LineFor(books, employee, date, rnd).blockers
      <==> Ordinal(FirstOf(date)) < hired || exists i :: 0 <= i < |segs| && LocalDate(segs[i].start) < hired
  {
    MissingComesFromWages(books, employee, date, rnd);
    UnpaidIff(acts, CountedFor(books, employee, date), employee);
    HistoryKeeps(acts);
    WageAtStart(books.wages, employee, Ordinal(FirstOf(date)));
    assert WageOn(books.wages, employee, Ordinal(FirstOf(date))).Some?
      <==> History(acts).hires[employee] <= Ordinal(FirstOf(date));
  }

  /** An employee hired during a month, after its first day: the month's line is blocked for want of a wage, and no
      wage set for that month is ever accepted, however the wages were changed before. */
  lemma MidMonthHireCannotBePaid(acts: seq<Act>, books: Books, employee: nat, date: Date, amount: nat,
                                 rnd: real -> real)
    requires books.wages == History(acts).rows && employee < |books.staff| == |History(acts).hires|
    requires books.staff[employee].hired == History(acts).hires[employee] && 1 <= date.month <= 12
    requires EmployedIn(books.staff[employee], date) && Ordinal(FirstOf(date)) < books.staff[employee].hired
    ensures employee in EmployeesOf(books.staff, date)
    ensures MissingHourlyWage in LineFor(books, employee, date, rnd).blockers
    ensures SetWage(books.wages, employee, Ordinal(FirstOf(date)), amount) == Overlapping
  {
    EveryEmployeeHasALine(books.staff, date, employee);
    WageMissingIff(acts, books, employee, date, rnd);
    WagesCoverEmployment(acts, employee, 0, Ordinal(FirstOf(date)), amount);
  }

  /** Put together: a line is only ever blocked by OPEN_SHIFT or MISSING_HOURLY_WAGE, and by the latter never once
      the employee was hired by the first of the month. */
  lemma LineBlockersAre(schedule: seq<Choice>, acts: seq<Act>, books: Books, employee: nat, date: Date,
                        rnd: real -> real)
    requires AllTimely(schedule) && books.db == Run(EMPTY, schedule).db
    requires books.wages == History(acts).rows && employee < |History(acts).hires| && 1 <= date.month <= 12
    ensures LineFor(books, employee, date, rnd).blockers <= {FromTime(OpenShift), MissingHourlyWage}
    ensures History(acts).hires[employee] <= Ordinal(FirstOf(date)) ==>
      MissingHourlyWage !in LineFor(books, employee, date, rnd).blockers
  {
    OnlyOpenShiftsBlockLines(schedule, employee, MonthStart(date), MonthEnd(date));
    WageMissingIff(acts, books, employee, date, rnd);
    var segs := CountedFor(books, employee, date);
    forall i | 0 <= i < |segs| ensures Ordinal(FirstOf(date)) <= LocalDate(segs[i].start) {
      CountedDate(books, employee, date, i);
    }
  }
}
