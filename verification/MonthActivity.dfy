/** Attendance that goes on after a month has been closed: what concerns other months leaves its payload alone. */
module MonthActivity {
  import opened Sorting
  import opened TimeCalculation
  import opened Attribution
  import opened MonthScope
  import opened AttendanceDb
  import opened AttendanceRun
  import opened AttendanceSafety
  import opened AttendanceWords
  import opened AttendanceCorrections
  import opened Calendar
  import opened Wages
  import opened Preview
  import opened CloseGate
  import opened MonthPayload
  import opened MonthUntouched

  predicate InScope(db: Db, shift: nat, month: Date) { shift < |db.shifts| && InMonth(db, shift, month) }

  predicate SameRow(a: Db, b: Db, shift: nat) {
    && shift < |a.shifts| && shift < |b.shifts| && a.shifts[shift].employee == b.shifts[shift].employee
    && a.shifts[shift].openedAt == b.shifts[shift].openedAt && EffectiveEvents(a, shift) == EffectiveEvents(b, shift)
  }

  /** Every shift that touches the month in either database is the same in both. */
  ghost predicate DbUntouched(a: Db, b: Db, month: Date) {
    forall shift: nat :: InScope(a, shift, month) || InScope(b, shift, month) ==> SameRow(a, b, shift)
  }

  lemma UntouchedForEach(a: Db, b: Db, employee: nat, month: Date)
    requires DbUntouched(a, b, month)
    ensures ShiftsUntouched(a, b, employee, month)
  {
    forall shift: nat | Concerns(a, employee, month, shift) || Concerns(b, employee, month, shift)
      ensures SameShift(a, b, employee, shift) {
      assert InScope(a, shift, month) || InScope(b, shift, month);
      assert SameRow(a, b, shift);
    }
  }

  lemma UntouchedTransitive(a: Db, b: Db, c: Db, month: Date)
    requires DbUntouched(a, b, month) && DbUntouched(b, c, month)
    ensures DbUntouched(a, c, month)
  {
    forall shift: nat | InScope(a, shift, month) || InScope(c, shift, month) ensures SameRow(a, c, shift) {
      if InScope(a, shift, month) { SameRowInScope(a, b, shift, month); } else { SameRowInScope(c, b, shift, month); }
      assert SameRow(a, b, shift) && SameRow(b, c, shift);
    }
  }

  lemma SameRowInScope(a: Db, b: Db, shift: nat, month: Date)
    requires InScope(a, shift, month) && (DbUntouched(a, b, month) || DbUntouched(b, a, month))
    ensures InScope(b, shift, month)
  {
    assert SameRow(a, b, shift) || SameRow(b, a, shift);
  }

  // ---- The writes ----

  /** Only `changed` has other effective events than before, and it touches the month neither before nor after. */
  lemma OneShiftElsewhere(a: Db, b: Db, changed: nat, month: Date)
    requires |a.shifts| <= |b.shifts| <= |a.shifts| + 1 && (|b.shifts| == |a.shifts| + 1 ==> changed == |a.shifts|)
    requires forall sh: nat :: sh < |a.shifts| && sh != changed ==> SameRow(a, b, sh)
    requires !InScope(a, changed, month) && !InScope(b, changed, month)
    ensures DbUntouched(a, b, month)
  {
    forall shift: nat | InScope(a, shift, month) || InScope(b, shift, month) ensures SameRow(a, b, shift) {
      assert shift != changed;
    }
  }

  lemma SameEffective(a: Db, b: Db, shift: nat)
    requires a.corrections == b.corrections && RawEvents(a, shift) == RawEvents(b, shift)
    ensures EffectiveEvents(a, shift) == EffectiveEvents(b, shift)
  {
  }

  /** A punch after the month's end on an open shift that does not touch the month. */
  lemma LaterPunch(db: Db, shift: nat, kind: Kind, at: int, key: Key, month: Date)
    requires Words(db) && CorrectionsOk(db) && shift < |db.shifts| && !IsClosed(db, shift)
    requires !InMonth(db, shift, month) && MonthEnd(month) <= at
    ensures DbUntouched(db, AddPunch(db, shift, kind, at, key), month)
  {
    var b := AddPunch(db, shift, kind, at, key);
    forall sh: nat | sh < |db.shifts| && sh != shift ensures SameRow(db, b, sh) {
      AddPunchRaw(db, shift, kind, at, key, sh);
      SameEffective(db, b, sh);
    }
    AddPunchRaw(db, shift, kind, at, key, shift);
    forall k | 0 <= k < |db.corrections| ensures db.corrections[k].shift != shift {
      assert IsClosed(db, db.corrections[k].shift);
    }
    OpenMeansRaw(db, shift);
    OpenMeansRaw(b, shift);
    RawSorted(db, shift);
    OpenShiftsBlock(db, shift);
    OpenOutsideComesLater(RawEvents(db, shift), MonthStart(month), MonthEnd(month));
    LaterInserted(RawEvents(db, shift), Event(kind, at, UTC), MonthEnd(month));
    LaterEventsAreOutside(RawEvents(b, shift), MonthStart(month), MonthEnd(month));
    OneShiftElsewhere(db, b, shift, month);
  }

  /** Corrections belong to closed shifts. */
  lemma OpenMeansRaw(db: Db, shift: nat)
    requires forall k :: 0 <= k < |db.corrections| ==> db.corrections[k].shift != shift
    ensures EffectiveEvents(db, shift) == RawEvents(db, shift)
  {
  }

  lemma LaterInserted(w: seq<Event>, e: Event, p: int)
    requires TimeSorted(w) && p <= e.at && forall i :: 0 <= i < |w| ==> p <= w[i].at
    ensures var u := InsertBy(w, e, (x: Event) => x.at); forall i :: 0 <= i < |u| ==> p <= u[i].at
  {
    InsertByKeeps(w, e, (x: Event) => x.at);
    var u := InsertBy(w, e, (x: Event) => x.at);
    forall i | 0 <= i < |u| ensures p <= u[i].at { assert u[i] in multiset(w) + multiset{e}; }
  }

  /** A clock-in after the month's end. */
  lemma LaterClockIn(db: Db, employee: nat, openedAt: int, at: int, key: Key, month: Date)
    requires References(db) && MonthEnd(month) <= at
    ensures DbUntouched(db, OpenNewShift(db, employee, openedAt, at, key), month)
  {
    var b, n := OpenNewShift(db, employee, openedAt, at, key), |db.shifts|;
    forall sh: nat | sh < n ensures SameRow(db, b, sh) {
      OpenNewShiftRaw(db, employee, openedAt, at, key, sh);
      SameEffective(db, b, sh);
    }
    OpenNewShiftRaw(db, employee, openedAt, at, key, n);
    OpenMeansRaw(b, n);
    LaterEventsAreOutside(RawEvents(b, n), MonthStart(month), MonthEnd(month));
    OneShiftElsewhere(db, b, n, month);
  }

  /** An entry's two punches do not touch the month. */
  predicate EntryElsewhere(e: Entry, month: Date) {
    !Touches([Event(ClockIn, e.start, UTC), Event(ClockOut, e.end, UTC)], MonthStart(month), MonthEnd(month))
  }

  lemma EntryOfAnotherMonth(db: Db, employee: nat, e: Entry, month: Date)
    requires References(db) && e.start < e.end && EntryElsewhere(e, month)
    ensures DbUntouched(db, AddManualShift(db, employee, e.start, e.end, e.id), month)
  {
    var b, n := AddManualShift(db, employee, e.start, e.end, e.id), |db.shifts|;
    forall sh: nat | sh < n ensures SameRow(db, b, sh) {
      AddManualRaw(db, employee, e.start, e.end, e.id, sh);
      SameEffective(db, b, sh);
    }
    AddManualRaw(db, employee, e.start, e.end, e.id, n);
    OpenMeansRaw(b, n);
    OneShiftElsewhere(db, b, n, month);
  }

  /** A correction of a shift that does not touch the month, to events that do not either. */
  lemma CorrectionElsewhere(db: Db, row: CorrectionRow, month: Date)
    requires !InMonth(db, row.shift, month) && !Touches(row.events, MonthStart(month), MonthEnd(month))
    ensures DbUntouched(db, AddCorrection(db, row), month)
  {
    var b := AddCorrection(db, row);
    forall sh: nat | sh < |db.shifts| && sh != row.shift ensures SameRow(db, b, sh) {
      CurrentSnoc(db.corrections, row, sh);
    }
    CurrentSnoc(db.corrections, row, row.shift);
    assert EffectiveEvents(b, row.shift) in [EffectiveEvents(db, row.shift), row.events];
    OneShiftElsewhere(db, b, row.shift, month);
  }

  lemma SameTablesUntouched(a: Db, b: Db, month: Date)
    requires a.shifts == b.shifts && a.events == b.events && a.corrections == b.corrections
    ensures DbUntouched(a, b, month)
  {
    forall shift: nat ensures EffectiveEvents(a, shift) == EffectiveEvents(b, shift) { SameEffective(a, b, shift); }
  }

  lemma {:induction false} DraftsElsewhere(s: System, employee: nat, drafts: seq<Draft>, month: Date)
    requires Consistent(s.db) && ManualRowsClosed(s.db) && DraftsApart(drafts)
    requires forall k :: 0 <= k < |drafts| ==> DraftOk(s.db, employee, drafts[k])
    requires forall k :: 0 <= k < |drafts| ==> EntryElsewhere(drafts[k].entry, month)
    ensures DbUntouched(s.db, CommitDrafts(s, employee, drafts).db, month)
  {
    if drafts == [] {
      SameTablesUntouched(s.db, s.db, month);
    } else {
      var front, d := drafts[..|drafts| - 1], drafts[|drafts| - 1];
      DraftsElsewhere(s, employee, front, month);
      DraftsCommit(s, employee, front);
      assert DraftOk(s.db, employee, d);
      var u := CommitDrafts(s, employee, front);
      EntryOfAnotherMonth(u.db, employee, d.entry, month);
      UntouchedTransitive(s.db, u.db, CommitDraft(u, employee, d).db, month);
    }
  }

  // ---- Runs ----

  /** What the next step of a job writes, if anything, concerns other months: a punch is made after the month's end on a
      shift that does not touch it, an entry does not touch it, a correction replaces events that do not touch it by
      others that do not. Approvals may concern any month. */
  predicate JobElsewhere(s: System, job: Job, month: Date) {
    match job
    case Punching(p, pc) =>
      && (pc.ClockingIn? || pc.Written? ==> MonthEnd(month) <= p.now)
      && (pc.Written? ==> !InMonth(s.db, pc.shift, month))
    case Manual(b, next, drafts, _, _, _) =>
      next >= |b.entries| ==> forall k :: 0 <= k < |drafts| ==> EntryElsewhere(drafts[k].entry, month)
    case Correcting(c, pc) =>
      pc.Stored? ==>
        !InMonth(s.db, c.shift, month) && !Touches(pc.row.events, MonthStart(month), MonthEnd(month))
    case _ => true
  }

  predicate Elsewhere(s: System, choice: Choice, month: Date) {
    choice.Go? && choice.i < |s.jobs| ==> JobElsewhere(s, s.jobs[choice.i], month)
  }

  lemma WrittenElsewhere(s: System, i: nat, p: Punch, shift: nat, month: Date)
    requires Inv(s) && Words(s.db) && CorrectionsOk(s.db) && i < |s.jobs| && s.jobs[i] == Punching(p, Written(shift))
    requires MonthEnd(month) <= p.now && !InMonth(s.db, shift, month)
    ensures DbUntouched(s.db, Advance(s, i).db, month)
  {
    assert JobOk(s.db, s.jobs[i]);
    LaterPunch(s.db, shift, p.kind, p.now, p.key, month);
  }

  lemma ClockedInElsewhere(s: System, i: nat, p: Punch, month: Date)
    requires Inv(s) && i < |s.jobs| && s.jobs[i] == Punching(p, ClockingIn) && MonthEnd(month) <= p.now
    ensures DbUntouched(s.db, Advance(s, i).db, month)
  {
    if Advance(s, i).db == s.db {
      SameTablesUntouched(s.db, s.db, month);
    } else {
      LaterClockIn(s.db, p.employee, p.insertedAt, p.now, p.key, month);
    }
  }

  lemma PunchElsewhere(s: System, i: nat, p: Punch, pc: PunchPc, month: Date)
    requires Inv(s) && Words(s.db) && CorrectionsOk(s.db) && i < |s.jobs| && s.jobs[i] == Punching(p, pc)
    requires JobElsewhere(s, s.jobs[i], month)
    ensures DbUntouched(s.db, Advance(s, i).db, month)
  {
    if pc.Written? {
      WrittenElsewhere(s, i, p, pc.shift, month);
    } else if pc.ClockingIn? {
      ClockedInElsewhere(s, i, p, month);
    } else {
      SameTablesUntouched(s.db, Advance(s, i).db, month);
    }
  }

  lemma BatchElsewhere(s: System, i: nat, job: Job, month: Date)
    requires Inv(s) && i < |s.jobs| && s.jobs[i] == job && job.Manual? && JobElsewhere(s, job, month)
    ensures DbUntouched(s.db, Advance(s, i).db, month)
  {
    assert JobOk(s.db, job);
    if job.next >= |job.b.entries| {
      var u := Become(s, i, Done(Committed));
      DraftsElsewhere(u, job.b.employee, job.drafts, month);
      var v := CommitDrafts(u, job.b.employee, job.drafts);
      ApprovalsKeepRows(v, job.marks + NewMarks(s, job.drafts));
      SameTablesUntouched(v.db, Advance(s, i).db, month);
      UntouchedTransitive(s.db, v.db, Advance(s, i).db, month);
    } else {
      SameTablesUntouched(s.db, Advance(s, i).db, month);
    }
  }

  lemma CorrectElsewhere(s: System, i: nat, c: Correction, pc: CorrectPc, month: Date)
    requires Inv(s) && i < |s.jobs| && s.jobs[i] == Correcting(c, pc) && JobElsewhere(s, s.jobs[i], month)
    ensures DbUntouched(s.db, Advance(s, i).db, month)
  {
    assert JobOk(s.db, s.jobs[i]);
    var db := Advance(s, i).db;
    if pc.Stored? {
      var u := AddCorrection(s.db, pc.row);
      CorrectionElsewhere(s.db, pc.row, month);
      SameTablesUntouched(u, db, month);
      UntouchedTransitive(s.db, u, db, month);
    } else {
      SameTablesUntouched(s.db, db, month);
    }
  }

  lemma StepElsewhere(s: System, choice: Choice, month: Date)
    requires Inv(s) && Words(s.db) && CorrectionsOk(s.db) && Elsewhere(s, choice, month)
    ensures DbUntouched(s.db, Step(s, choice).db, month)
  {
    if choice.Go? && choice.i < |s.jobs| {
      var i := choice.i;
      match s.jobs[i]
      case Punching(p, pc) => PunchElsewhere(s, i, p, pc, month);
      case Manual(_, _, _, _, _, _) => BatchElsewhere(s, i, s.jobs[i], month);
      case Approving(_, _) => SameTablesUntouched(s.db, Advance(s, i).db, month);
      case Correcting(c, pc) => CorrectElsewhere(s, i, c, pc, month);
      case Done(_) => SameTablesUntouched(s.db, s.db, month);
    } else {
      SameTablesUntouched(s.db, Step(s, choice).db, month);
    }
  }

  /** From the n-th choice on, every step concerns other months. */
  ghost predicate AllElsewhere(schedule: seq<Choice>, n: nat, month: Date) {
    forall k :: n <= k < |schedule| ==> Elsewhere(At(schedule, k), schedule[k], month)
  }

  lemma ElsewhereSnoc(schedule: seq<Choice>, n: nat, month: Date)
    requires n < |schedule| && AllElsewhere(schedule, n, month)
    ensures AllElsewhere(schedule[..|schedule| - 1], n, month)
    ensures Elsewhere(Run(EMPTY, schedule[..|schedule| - 1]), schedule[|schedule| - 1], month)
  {
    var front := schedule[..|schedule| - 1];
    forall k | n <= k < |front| ensures Elsewhere(At(front, k), front[k], month) { AtFront(schedule, k); }
  }

  /** Along a timely run, whatever is punched, entered, corrected and approved for other months leaves every shift of
      the month as it is. */
  lemma {:induction false} ElsewhereLeavesTheMonth(schedule: seq<Choice>, n: nat, month: Date)
    requires n <= |schedule| && AllTimely(schedule) && AllElsewhere(schedule, n, month)
    ensures DbUntouched(Run(EMPTY, schedule[..n]).db, Run(EMPTY, schedule).db, month)
    decreases |schedule|
  {
    if n == |schedule| {
      assert schedule[..n] == schedule;
      SameTablesUntouched(Run(EMPTY, schedule).db, Run(EMPTY, schedule).db, month);
    } else {
      var m := |schedule| - 1;
      var front := schedule[..m];
      TimelySnoc(schedule);
      ElsewhereSnoc(schedule, n, month);
      ElsewhereLeavesTheMonth(front, n, month);
      assert front[..n] == schedule[..n];
      LastElsewhere(front, schedule[m], month);
      UntouchedTransitive(Run(EMPTY, schedule[..n]).db, Run(EMPTY, front).db, Run(EMPTY, schedule).db, month);
    }
  }

  lemma LastElsewhere(front: seq<Choice>, choice: Choice, month: Date)
    requires AllTimely(front) && Elsewhere(Run(EMPTY, front), choice, month)
    ensures DbUntouched(Run(EMPTY, front).db, Step(Run(EMPTY, front), choice).db, month)
  {
    EmptyIsFine();
    RunKeeps(EMPTY, front);
    WordsAtEnd(front);
    RunKeepsCorrections(front);
    StepElsewhere(Run(EMPTY, front), choice, month);
  }

  /** So the month's payload stays what it was, also when people hired for later months have joined and later wages
      have been set. */
  lemma ElsewhereLeavesThePayload(schedule: seq<Choice>, n: nat, a: Books, b: Books, month: Date, rnd: real -> real)
    requires n <= |schedule| && AllTimely(schedule) && AllElsewhere(schedule, n, month) && 1 <= month.month <= 12
    requires a.db == Run(EMPTY, schedule[..n]).db && b.db == Run(EMPTY, schedule).db
    requires Apart(a.wages) && Apart(b.wages) && StaffAndWagesUntouched(a, b, month)
    ensures PayloadFor(a, month, rnd) == PayloadFor(b, month, rnd)
  {
    ElsewhereLeavesTheMonth(schedule, n, month);
    var employees := EmployeesOf(a.staff, month);
    forall i | 0 <= i < |employees| ensures ShiftsUntouched(a.db, b.db, employees[i], month) {
      UntouchedForEach(a.db, b.db, employees[i], month);
    }
    UntouchedMonthSamePayload(a, b, month, rnd);
  }

  ghost predicate StaffAndWagesUntouched(a: Books, b: Books, month: Date) {
    var employees := EmployeesOf(a.staff, month);
    && EmployeesOf(b.staff, month) == employees
    && forall i :: 0 <= i < |employees| ==>
         && CodeOf(a.staff, employees[i]) == CodeOf(b.staff, employees[i])
         && WagesUntouched(a.wages, b.wages, employees[i], month)
  }
}
