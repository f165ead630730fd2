/** What a month's payload reads: its employees, their wages on its dates, and their shifts that touch it. */
module MonthUntouched {
  import opened Sorting
  import opened AttendanceDb
  import opened Calendar
  import opened Wages
  import opened Preview
  import opened PreviewMeaning
  import opened CloseGate
  import opened MonthPayload

  // ---- The premise ----

  /** A shift of the employee that touches the month. */
  predicate Concerns(db: Db, employee: nat, month: Date, shift: nat) {
    shift < |db.shifts| && db.shifts[shift].employee == employee && InMonth(db, shift, month)
  }

  /** Such a shift is in both databases, opened at the same time and with the same effective events. It may have been
      closed, approved, or corrected to the same events. */
  predicate SameShift(a: Db, b: Db, employee: nat, shift: nat) {
    && shift < |a.shifts| && shift < |b.shifts|
    && a.shifts[shift].employee == b.shifts[shift].employee == employee
    && a.shifts[shift].openedAt == b.shifts[shift].openedAt
    && EffectiveEvents(a, shift) == EffectiveEvents(b, shift)
  }

  /** Shifts that touch the month in neither database may appear, close, be corrected, or gain punches. */
  ghost predicate ShiftsUntouched(a: Db, b: Db, employee: nat, month: Date) {
    forall shift: nat :: Concerns(a, employee, month, shift) || Concerns(b, employee, month, shift) ==>
      SameShift(a, b, employee, shift)
  }

  ghost predicate WagesUntouched(a: seq<WageRow>, b: seq<WageRow>, employee: nat, month: Date) {
    forall day :: FirstDay(month) <= day < EndDay(month) ==> WageOn(a, employee, day) == WageOn(b, employee, day)
  }

  /** The month has the same employees, and nothing that concerns them in it has changed. */
  ghost predicate BooksUntouched(a: Books, b: Books, month: Date) {
    var employees := EmployeesOf(a.staff, month);
    && EmployeesOf(b.staff, month) == employees
    && forall i :: 0 <= i < |employees| ==>
         && CodeOf(a.staff, employees[i]) == CodeOf(b.staff, employees[i])
         && ShiftsUntouched(a.db, b.db, employees[i], month)
         && WagesUntouched(a.wages, b.wages, employees[i], month)
  }

  // ---- Shifts that do not touch the month contribute nothing ----

  lemma {:induction false} FlatKeeps<T>(ids: seq<nat>, f: nat -> seq<T>, p: nat -> bool)
    requires forall i :: 0 <= i < |ids| && !p(ids[i]) ==> f(ids[i]) == []
    ensures Flat(ids, f) == Flat(Keep(ids, p), f)
  {
    if ids != [] {
      var front := ids[..|ids| - 1];
      assert forall i :: 0 <= i < |front| ==> front[i] == ids[i];
      FlatKeeps(front, f, p);
      assert (Keep(front, p) + [ids[|ids| - 1]])[..|Keep(front, p)|] == Keep(front, p);
    }
  }

  lemma {:induction false} UnionKeeps<T>(ids: seq<nat>, f: nat -> set<T>, p: nat -> bool)
    requires forall i :: 0 <= i < |ids| && !p(ids[i]) ==> f(ids[i]) == {}
    ensures Union(ids, f) == Union(Keep(ids, p), f)
  {
    if ids != [] {
      var front := ids[..|ids| - 1];
      assert forall i :: 0 <= i < |front| ==> front[i] == ids[i];
      UnionKeeps(front, f, p);
      assert (Keep(front, p) + [ids[|ids| - 1]])[..|Keep(front, p)|] == Keep(front, p);
    }
  }

  lemma {:induction false} FlatCongruent<T>(ids: seq<nat>, f: nat -> seq<T>, g: nat -> seq<T>)
    requires forall i :: 0 <= i < |ids| ==> f(ids[i]) == g(ids[i])
    ensures Flat(ids, f) == Flat(ids, g)
  {
    if ids != [] {
      var front := ids[..|ids| - 1];
      assert forall i :: 0 <= i < |front| ==> front[i] == ids[i];
      FlatCongruent(front, f, g);
    }
  }

  lemma {:induction false} UnionCongruent<T>(ids: seq<nat>, f: nat -> set<T>, g: nat -> set<T>)
    requires forall i :: 0 <= i < |ids| ==> f(ids[i]) == g(ids[i])
    ensures Union(ids, f) == Union(ids, g)
  {
    if ids != [] {
      var front := ids[..|ids| - 1];
      assert forall i :: 0 <= i < |front| ==> front[i] == ids[i];
      UnionCongruent(front, f, g);
    }
  }

  lemma {:induction false} EachCongruent<T>(ids: seq<nat>, f: nat -> T, g: nat -> T)
    requires forall i :: 0 <= i < |ids| ==> f(ids[i]) == g(ids[i])
    ensures Each(ids, f) == Each(ids, g)
  {
    if ids != [] {
      var front := ids[..|ids| - 1];
      assert forall i :: 0 <= i < |front| ==> front[i] == ids[i];
      EachCongruent(front, f, g);
    }
  }

  // ---- The shifts that do, in the order in which a line reads them ----

  /** The ids below n that satisfy q. */
  function Below(n: nat, q: nat -> bool): seq<nat> {
    if n == 0 then [] else if q(n - 1) then Below(n - 1, q) + [n - 1] else Below(n - 1, q)
  }

  lemma {:induction false} BelowAt(n: nat, q: nat -> bool, i: nat)
    requires i < |Below(n, q)|
    ensures Below(n, q)[i] < n && q(Below(n, q)[i])
  {
    if i < |Below(n - 1, q)| { BelowAt(n - 1, q, i); }
  }

  lemma {:induction false} BelowCongruent(n: nat, q: nat -> bool, r: nat -> bool)
    requires forall i: nat :: i < n ==> q(i) == r(i)
    ensures Below(n, q) == Below(n, r)
  {
    if n > 0 { BelowCongruent(n - 1, q, r); }
  }

  lemma {:induction false} NoneBetween(m: nat, n: nat, q: nat -> bool)
    requires m <= n && forall i: nat :: m <= i < n ==> !q(i)
    ensures Below(n, q) == Below(m, q)
    decreases n
  {
    if m < n { NoneBetween(m, n - 1, q); }
  }

  function OwnedBy(rows: seq<ShiftRow>, employee: nat, p: nat -> bool): nat -> bool {
    (i: nat) => i < |rows| && rows[i].employee == employee && p(i)
  }

  lemma {:induction false} KeptIds(rows: seq<ShiftRow>, employee: nat, p: nat -> bool)
    ensures Keep(ShiftIds(rows, employee), p) == Below(|rows|, OwnedBy(rows, employee, p))
  {
    if rows != [] {
      var n := |rows| - 1;
      KeptIds(rows[..n], employee, p);
      BelowCongruent(n, OwnedBy(rows[..n], employee, p), OwnedBy(rows, employee, p));
      var front := ShiftIds(rows[..n], employee);
      assert (front + [n])[..|front|] == front;
    }
  }

  function TouchesMonth(db: Db, month: Date): nat -> bool { (shift: nat) => InMonth(db, shift, month) }

  /** Of the employee's shifts, those that touch the month. */
  function TouchingIds(db: Db, employee: nat, month: Date): seq<nat> {
    Below(|db.shifts|, OwnedBy(db.shifts, employee, TouchesMonth(db, month)))
  }

  function OpenedAt(rows: seq<ShiftRow>): nat -> int { (i: nat) => if i < |rows| then rows[i].openedAt else 0 }

  lemma KeptShifts(db: Db, employee: nat, month: Date)
    ensures Keep(ShiftsOf(db.shifts, employee), TouchesMonth(db, month))
         == SortBy(TouchingIds(db, employee, month), OpenedAt(db.shifts))
  {
    var ids, p := ShiftIds(db.shifts, employee), TouchesMonth(db, month);
    var key := (i: nat) => if i < |db.shifts| then db.shifts[i].openedAt else 0;
    SortCongruent(ids, key, OpenedAt(db.shifts));
    assert ShiftsOf(db.shifts, employee) == SortBy(ids, OpenedAt(db.shifts));
    KeepSort(ids, OpenedAt(db.shifts), p);
    KeptIds(db.shifts, employee, p);
  }

  lemma SameTouchingIds(a: Db, b: Db, employee: nat, month: Date)
    requires ShiftsUntouched(a, b, employee, month)
    ensures TouchingIds(a, employee, month) == TouchingIds(b, employee, month)
  {
    var q := OwnedBy(a.shifts, employee, TouchesMonth(a, month));
    var r := OwnedBy(b.shifts, employee, TouchesMonth(b, month));
    forall i: nat ensures q(i) == r(i) && (q(i) ==> i < |a.shifts| && i < |b.shifts|) {
      assert q(i) == Concerns(a, employee, month, i) && r(i) == Concerns(b, employee, month, i);
      if q(i) || r(i) { assert SameShift(a, b, employee, i); }
    }
    var m, n := |a.shifts|, |b.shifts|;
    if m <= n { NoneBetween(m, n, r); BelowCongruent(m, q, r); } else { NoneBetween(n, m, q); BelowCongruent(n, q, r); }
  }

  /** The shifts of the month come in the same order, each with the same events. */
  lemma SameShiftsInOrder(a: Db, b: Db, employee: nat, month: Date)
    requires ShiftsUntouched(a, b, employee, month)
    ensures var ids := Keep(ShiftsOf(a.shifts, employee), TouchesMonth(a, month));
      && ids == Keep(ShiftsOf(b.shifts, employee), TouchesMonth(b, month))
      && forall i :: 0 <= i < |ids| ==> EffectiveEvents(a, ids[i]) == EffectiveEvents(b, ids[i])
  {
    KeptShifts(a, employee, month);
    KeptShifts(b, employee, month);
    SameTouchingIds(a, b, employee, month);
    var ids := TouchingIds(a, employee, month);
    forall i | 0 <= i < |ids| ensures SameShift(a, b, employee, ids[i]) {
      BelowAt(|a.shifts|, OwnedBy(a.shifts, employee, TouchesMonth(a, month)), i);
      assert Concerns(a, employee, month, ids[i]);
    }
    SortCongruent(ids, OpenedAt(a.shifts), OpenedAt(b.shifts));
    SortBySorts(ids, OpenedAt(a.shifts));
    var sorted := SortBy(ids, OpenedAt(a.shifts));
    forall i | 0 <= i < |sorted| ensures EffectiveEvents(a, sorted[i]) == EffectiveEvents(b, sorted[i]) {
      assert sorted[i] in multiset(ids);
      var k :| 0 <= k < |ids| && ids[k] == sorted[i];
      assert SameShift(a, b, employee, ids[k]);
    }
  }

  // ---- The line and the payload ----

  lemma OutsideContributesNothing(db: Db, shift: nat, month: Date)
    requires !InMonth(db, shift, month)
    ensures StartsOf(db, MonthStart(month), MonthEnd(month))(shift) == []
    ensures BlockersOf(db, MonthStart(month), MonthEnd(month))(shift) == {}
  {
    OutOfScopeCountsNothing(EffectiveEvents(db, shift), MonthStart(month), MonthEnd(month));
  }

  /** A line counts and reports only the shifts that touch the month. */
  lemma OnlyTouchingShiftsCount(db: Db, employee: nat, month: Date)
    ensures var lo, hi := MonthStart(month), MonthEnd(month);
      var all := ShiftsOf(db.shifts, employee);
      var ids := Keep(all, TouchesMonth(db, month));
      && Counted(db, all, lo, hi) == Counted(db, ids, lo, hi)
      && TimeBlockers(db, all, lo, hi) == TimeBlockers(db, ids, lo, hi)
  {
    var lo, hi, all := MonthStart(month), MonthEnd(month), ShiftsOf(db.shifts, employee);
    forall i | 0 <= i < |all| && !TouchesMonth(db, month)(all[i])
      ensures StartsOf(db, lo, hi)(all[i]) == [] && BlockersOf(db, lo, hi)(all[i]) == {} {
      OutsideContributesNothing(db, all[i], month);
    }
    FlatKeeps(all, StartsOf(db, lo, hi), TouchesMonth(db, month));
    UnionKeeps(all, BlockersOf(db, lo, hi), TouchesMonth(db, month));
  }

  lemma UntouchedCountsAlike(a: Db, b: Db, employee: nat, month: Date)
    requires ShiftsUntouched(a, b, employee, month)
    ensures var lo, hi := MonthStart(month), MonthEnd(month);
      var s, t := ShiftsOf(a.shifts, employee), ShiftsOf(b.shifts, employee);
      Counted(a, s, lo, hi) == Counted(b, t, lo, hi) && TimeBlockers(a, s, lo, hi) == TimeBlockers(b, t, lo, hi)
  {
    var lo, hi := MonthStart(month), MonthEnd(month);
    var ids := Keep(ShiftsOf(a.shifts, employee), TouchesMonth(a, month));
    OnlyTouchingShiftsCount(a, employee, month);
    OnlyTouchingShiftsCount(b, employee, month);
    SameShiftsInOrder(a, b, employee, month);
    FlatCongruent(ids, StartsOf(a, lo, hi), StartsOf(b, lo, hi));
    UnionCongruent(ids, BlockersOf(a, lo, hi), BlockersOf(b, lo, hi));
  }

  lemma UntouchedSameLine(a: Books, b: Books, employee: nat, month: Date, rnd: real -> real)
    requires 1 <= month.month <= 12 && Apart(a.wages) && Apart(b.wages)
    requires ShiftsUntouched(a.db, b.db, employee, month) && WagesUntouched(a.wages, b.wages, employee, month)
    ensures LineFor(a, employee, month, rnd) == LineFor(b, employee, month, rnd)
  {
    UntouchedCountsAlike(a.db, b.db, employee, month);
    assert LineFor(a, employee, month, rnd) == LineFor(b.(wages := a.wages), employee, month, rnd);
    LineReadsItsMonth(b.(wages := a.wages), b.wages, employee, month, rnd);
    assert b.(wages := a.wages).(wages := b.wages) == b;
  }

  /** So books that agree on the month build the same payload for it, or none. */
  lemma UntouchedMonthSamePayload(a: Books, b: Books, month: Date, rnd: real -> real)
    requires 1 <= month.month <= 12 && Apart(a.wages) && Apart(b.wages) && BooksUntouched(a, b, month)
    ensures PayloadFor(a, month, rnd) == PayloadFor(b, month, rnd)
  {
    var employees := EmployeesOf(a.staff, month);
    forall i | 0 <= i < |employees|
      ensures LineFor(a, employees[i], month, rnd) == LineFor(b, employees[i], month, rnd) {
      UntouchedSameLine(a, b, employees[i], month, rnd);
    }
    EachCongruent(employees, Liner(a, month, rnd), Liner(b, month, rnd));
    var lines := LinesFor(a, month, rnd);
    forall i | 0 <= i < |lines| ensures CodeOf(a.staff, lines[i].employee) == CodeOf(b.staff, lines[i].employee) {
      LineOfEmployee(a, month, rnd, i);
    }
    SameCodesSamePayload(lines, a.staff, b.staff);
  }

  lemma LineOfEmployee(books: Books, month: Date, rnd: real -> real, i: nat)
    requires i < |LinesFor(books, month, rnd)|
    ensures i < |EmployeesOf(books.staff, month)|
    ensures LinesFor(books, month, rnd)[i].employee == EmployeesOf(books.staff, month)[i]
  {
    var employees := EmployeesOf(books.staff, month);
    if employees != [] { LinesForAt(books, month, rnd, if i < |employees| then i else 0); }
  }

  lemma SameCodesSamePayload(lines: seq<PayrollLine>, s: seq<Employee>, t: seq<Employee>)
    requires forall i :: 0 <= i < |lines| ==> CodeOf(s, lines[i].employee) == CodeOf(t, lines[i].employee)
    ensures PayloadFrom(lines, s) == PayloadFrom(lines, t)
  {
    var p, q := PayloadFrom(lines, s), PayloadFrom(lines, t);
    if p.Some? { assert p.value == q.value; }
  }

  /** Someone hired for a later month is not among the month's employees and changes nothing about them. */
  lemma LaterHire(staff: seq<Employee>, e: Employee, month: Date)
    requires EndDay(month) <= e.hired
    ensures EmployeesOf(staff + [e], month) == EmployeesOf(staff, month)
    ensures forall i :: 0 <= i < |EmployeesOf(staff, month)| ==>
      CodeOf(staff + [e], EmployeesOf(staff, month)[i]) == CodeOf(staff, EmployeesOf(staff, month)[i])
  {
    var ids := EmployeeIds(staff, month);
    assert (staff + [e])[..|staff|] == staff;
    assert EmployeeIds(staff + [e], month) == ids;
    var before := (i: nat) => if i < |staff| then staff[i].code else 0;
    var after := (i: nat) => if i < |staff + [e]| then (staff + [e])[i].code else 0;
    SortCongruent(ids, before, after);
    SortBySorts(ids, before);
    var employees := EmployeesOf(staff, month);
    forall i | 0 <= i < |employees| ensures CodeOf(staff + [e], employees[i]) == CodeOf(staff, employees[i]) {
      assert employees[i] in multiset(ids);
    }
  }
}
