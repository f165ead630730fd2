/** Manual entries: pairwise disjoint whatever the interleaving, all-or-nothing batches, harmless replays. */
module AttendanceManual {
  import opened TimeCalculation
  import opened AttendanceDb
  import opened AttendanceRun
  import opened AttendanceSafety

  /** Entry `e` overlaps no manual shift of the employee. */
  ghost predicate Clear(s: System, employee: nat, e: Entry) {
    forall m :: m in s.manual && m < |s.db.shifts| && s.db.shifts[m].employee == employee
      ==> !OverlapsRow(s.db.shifts[m], e)
  }

  /** A manual shift's own interval, as an entry. */
  function AsEntry(row: ShiftRow): Entry
    requires row.closedAt.Some?
  {
    Entry(0, row.openedAt, row.closedAt.value)
  }

  ghost predicate ManualRow(db: Db, m: nat) {
    IsClosed(db, m) && db.shifts[m].openedAt < db.shifts[m].closedAt.value
  }

  ghost predicate ManualRows(s: System) { forall m :: m in s.manual ==> ManualRow(s.db, m) && s.manual[m] <= m }

  /** Manual shift m overlaps no shift its check could see… */
  ghost predicate ApartFromSeen(s: System)
    requires ManualRows(s)
  {
    forall m, k :: m in s.manual && 0 <= k < s.manual[m] && s.db.shifts[k].employee == s.db.shifts[m].employee
      ==> !OverlapsRow(s.db.shifts[k], AsEntry(s.db.shifts[m]))
  }

  /** …and no other manual shift. */
  ghost predicate ApartFromManual(s: System)
    requires ManualRows(s)
  {
    forall m, k :: m in s.manual && k in s.manual && m != k && s.db.shifts[k].employee == s.db.shifts[m].employee
      ==> !OverlapsRow(s.db.shifts[k], AsEntry(s.db.shifts[m]))
  }

  /** Manual shifts are non-empty half-open intervals, disjoint from one another and from every shift that
      was present when their overlap check ran. */
  ghost predicate ManualApart(s: System) { ManualRows(s) && ApartFromSeen(s) && ApartFromManual(s) }

  ghost predicate JobClear(s: System, job: Job) {
    job.Manual? ==>
      && (forall k :: 0 <= k < |job.drafts| ==> Clear(s, job.b.employee, job.drafts[k].entry))
      && (job.stage.Inserting? && job.next < |job.b.entries| ==> Clear(s, job.b.employee, job.b.entries[job.next]))
  }

  ghost predicate ManualInv(s: System) {
    ManualApart(s) && forall i :: 0 <= i < |s.jobs| ==> JobClear(s, s.jobs[i])
  }

  /** Rows that are not manual may appear and open shifts may close: nothing manual changes. */
  lemma OtherWritesKeepApart(s: System, t: System)
    requires ManualInv(s) && Grows(s.db, t.db) && t.manual == s.manual
    ensures ManualApart(t)
    ensures forall job :: JobClear(s, job) ==> JobClear(t, job)
  {
    forall m | m in t.manual ensures ManualRow(t.db, m) && t.db.shifts[m] == s.db.shifts[m] {
      assert ManualRow(s.db, m);
    }
    forall employee, e | Clear(s, employee, e) ensures Clear(t, employee, e) {
      forall m | m in t.manual && m < |t.db.shifts| && t.db.shifts[m].employee == employee
        ensures !OverlapsRow(t.db.shifts[m], e) {
        assert ManualRow(s.db, m);
      }
    }
  }

  lemma CommitOneDraft(s: System, employee: nat, d: Draft)
    requires ManualApart(s) && d.entry.start < d.entry.end && Clear(s, employee, d.entry)
    requires d.seen <= |s.db.shifts| && ApartFromFirst(s.db.shifts, employee, d.seen, d.entry)
    ensures ManualApart(CommitDraft(s, employee, d))
  {
    DraftKeepsRows(s, employee, d);
    DraftApartFromSeen(s, employee, d);
    DraftApartFromManual(s, employee, d);
  }

  lemma DraftKeepsRows(s: System, employee: nat, d: Draft)
    requires ManualRows(s) && d.entry.start < d.entry.end && d.seen <= |s.db.shifts|
    ensures var t, n := CommitDraft(s, employee, d), |s.db.shifts|;
      && ManualRows(t) && n in t.manual && t.manual[n] == d.seen && |t.db.shifts| == n + 1
      && t.db.shifts[n] == ShiftRow(employee, d.entry.start, Some(d.entry.end))
      && (forall m :: m in s.manual ==> m < n && m in t.manual && t.manual[m] == s.manual[m])
      && (forall m :: m in t.manual ==> m == n || m in s.manual)
      && (forall k :: 0 <= k < n ==> t.db.shifts[k] == s.db.shifts[k])
  {
    var t, n := CommitDraft(s, employee, d), |s.db.shifts|;
    forall m | m in s.manual ensures m < n { assert ManualRow(s.db, m); }
    forall m | m in t.manual ensures ManualRow(t.db, m) && t.manual[m] <= m {
      if m != n { assert ManualRow(s.db, m); }
    }
  }

  lemma DraftApartFromSeen(s: System, employee: nat, d: Draft)
    requires ManualRows(s) && ApartFromSeen(s) && d.entry.start < d.entry.end
    requires d.seen <= |s.db.shifts| && ApartFromFirst(s.db.shifts, employee, d.seen, d.entry)
    requires ManualRows(CommitDraft(s, employee, d))
    ensures ApartFromSeen(CommitDraft(s, employee, d))
  {
    DraftKeepsRows(s, employee, d);
  }

  lemma DraftApartFromManual(s: System, employee: nat, d: Draft)
    requires ManualRows(s) && ApartFromManual(s) && d.entry.start < d.entry.end && Clear(s, employee, d.entry)
    requires d.seen <= |s.db.shifts| && ManualRows(CommitDraft(s, employee, d))
    ensures ApartFromManual(CommitDraft(s, employee, d))
  {
    DraftKeepsRows(s, employee, d);
  }

  lemma ClearOfOneDraft(s: System, employee: nat, d: Draft, other: nat, e: Entry)
    requires ManualApart(s) && Clear(s, other, e) && (other == employee ==> EntriesApart(d.entry, e))
    ensures Clear(CommitDraft(s, employee, d), other, e)
  {
    var t := CommitDraft(s, employee, d);
    forall m | m in t.manual && m < |t.db.shifts| && t.db.shifts[m].employee == other
      ensures !OverlapsRow(t.db.shifts[m], e) {
      if m in s.manual { assert ManualRow(s.db, m); }
    }
  }

  ghost predicate ReadyDrafts(s: System, employee: nat, drafts: seq<Draft>) {
    && ManualApart(s) && Consistent(s.db) && ManualRowsClosed(s.db) && DraftsApart(drafts)
    && forall k :: 0 <= k < |drafts| ==> DraftOk(s.db, employee, drafts[k]) && Clear(s, employee, drafts[k].entry)
  }

  lemma {:induction false} ClearOfDrafts(s: System, employee: nat, drafts: seq<Draft>, other: nat, e: Entry)
    requires ReadyDrafts(s, employee, drafts) && Clear(s, other, e)
    requires other == employee ==> forall k :: 0 <= k < |drafts| ==> EntriesApart(drafts[k].entry, e)
    ensures Clear(CommitDrafts(s, employee, drafts), other, e)
    decreases |drafts|
  {
    if drafts != [] {
      var front := drafts[..|drafts| - 1];
      ClearOfDrafts(s, employee, front, other, e);
      CommitAllDrafts(s, employee, front);
      ClearOfOneDraft(CommitDrafts(s, employee, front), employee, drafts[|drafts| - 1], other, e);
    }
  }

  lemma {:induction false} CommitAllDrafts(s: System, employee: nat, drafts: seq<Draft>)
    requires ReadyDrafts(s, employee, drafts)
    ensures ManualApart(CommitDrafts(s, employee, drafts))
    decreases |drafts|
  {
    if drafts != [] {
      var front, d := drafts[..|drafts| - 1], drafts[|drafts| - 1];
      CommitAllDrafts(s, employee, front);
      ClearOfDrafts(s, employee, front, employee, d.entry);
      DraftsCommit(s, employee, front);
      var u := CommitDrafts(s, employee, front);
      StillApartFromFirst(s.db, u.db, employee, d);
      CommitOneDraft(u, employee, d);
    }
  }

  lemma StillApartFromFirst(a: Db, b: Db, employee: nat, d: Draft)
    requires Appended(a, b) && DraftOk(a, employee, d)
    ensures d.entry.start < d.entry.end && d.seen <= |b.shifts|
    ensures ApartFromFirst(b.shifts, employee, d.seen, d.entry)
  {
    assert forall k :: 0 <= k < |a.shifts| ==> b.shifts[k] == a.shifts[k];
  }

  lemma ManualCommitKeeps(s: System, i: nat, job: Job)
    requires Inv(s) && ManualInv(s) && i < |s.jobs| && s.jobs[i] == job && job.Manual? && job.next == |job.b.entries|
    ensures ManualInv(Advance(s, i))
  {
    assert JobOk(s.db, job) && JobClear(s, job);
    var u := Become(s, i, Done(Committed));
    forall k | 0 <= k < |job.drafts| ensures Clear(u, job.b.employee, job.drafts[k].entry) {
      assert Clear(s, job.b.employee, job.drafts[k].entry);
    }
    CommitAllDrafts(u, job.b.employee, job.drafts);
    DraftsCommit(u, job.b.employee, job.drafts);
    var v, t := CommitDrafts(u, job.b.employee, job.drafts), Advance(s, i);
    ApprovalsKeepRows(v, job.marks + NewMarks(s, job.drafts));
    forall j | 0 <= j < |t.jobs| ensures JobClear(t, t.jobs[j]) {
      if j != i { OtherJobStaysClear(s, i, job, u, v, t, j); }
    }
    SameManualRows(v, t);
  }

  lemma SameManualRows(v: System, t: System)
    requires t.db.shifts == v.db.shifts && t.manual == v.manual
    ensures ManualApart(v) ==> ManualApart(t)
    ensures forall employee, e :: Clear(v, employee, e) ==> Clear(t, employee, e)
  {
  }

  /** Another manual job with entries in flight holds another employee's lock. */
  lemma OtherJobStaysClear(s: System, i: nat, job: Job, u: System, v: System, t: System, j: nat)
    requires Inv(s) && ManualInv(s) && i < |s.jobs| && s.jobs[i] == job && job.Manual?
    requires u == Become(s, i, Done(Committed)) && v == CommitDrafts(u, job.b.employee, job.drafts)
    requires t.db.shifts == v.db.shifts && t.manual == v.manual
    requires ReadyDrafts(u, job.b.employee, job.drafts)
    requires j < |s.jobs| && j != i
    ensures JobClear(t, s.jobs[j])
  {
    var other := s.jobs[j];
    assert JobOk(s.db, other) && JobOk(s.db, job) && JobClear(s, other) && Compatible(job, other);
    SameManualRows(v, t);
    if other.Manual? && other.locked && job.locked {
      assert HoldsEmployee(job, job.b.employee) && HoldsEmployee(other, other.b.employee);
      assert other.b.employee != job.b.employee;
    }
    if other.Manual? && other.locked {
      forall e | Clear(s, other.b.employee, e) ensures Clear(t, other.b.employee, e) {
        ClearOfDrafts(u, job.b.employee, job.drafts, other.b.employee, e);
      }
    }
  }

  lemma ReplacedClear(s: System, i: nat, job: Job)
    requires ManualInv(s) && i < |s.jobs| && JobClear(s, job)
    ensures ManualInv(Become(s, i, job))
  {
    var t := Become(s, i, job);
    SameManualRows(s, t);
    forall j | 0 <= j < |t.jobs| ensures JobClear(t, t.jobs[j]) {
      assert j != i ==> JobClear(s, s.jobs[j]);
    }
  }

  lemma ManualStepKeeps(s: System, i: nat, job: Job)
    requires Inv(s) && ManualInv(s) && i < |s.jobs| && s.jobs[i] == job && job.Manual? && job.next < |job.b.entries|
    ensures ManualInv(Advance(s, i))
  {
    assert JobOk(s.db, job) && JobClear(s, job);
    if job.stage.Inserting? {
      InsertStaysClear(s, i, job);
    } else {
      QuietStepStaysClear(s, i, job);
    }
    ReplacedClear(s, i, Advance(s, i).jobs[i]);
  }

  lemma InsertStaysClear(s: System, i: nat, job: Job)
    requires i < |s.jobs| && s.jobs[i] == job && job.Manual? && job.next < |job.b.entries| && job.stage.Inserting?
    requires JobClear(s, job)
    ensures var t := Advance(s, i); t == Become(s, i, t.jobs[i]) && JobClear(s, t.jobs[i])
  {
    var job2 := Advance(s, i).jobs[i];
    assert job2.Manual? && job2.drafts != job.drafts ==>
      job2.drafts == job.drafts + [Draft(job.b.entries[job.next], job.stage.seen)];
  }

  lemma QuietStepStaysClear(s: System, i: nat, job: Job)
    requires i < |s.jobs| && s.jobs[i] == job && job.Manual? && job.next < |job.b.entries| && !job.stage.Inserting?
    requires JobClear(s, job) && ManualOk(s.db, job)
    ensures var t := Advance(s, i); t == Become(s, i, t.jobs[i]) && JobClear(s, t.jobs[i])
  {
    if job.stage.OverlapCheck? { NoOverlapIsClear(s, job.b.employee, job.b.entries[job.next]); }
  }

  lemma NoOverlapIsClear(s: System, employee: nat, e: Entry)
    ensures !Overlaps(s.db.shifts, employee, e) ==> Clear(s, employee, e)
  {
  }

  /** A job that claims no manual interval. */
  predicate NothingDrafted(job: Job) { job.Manual? ==> job.drafts == [] && job.stage == KeyCheck }

  lemma PunchLeavesManual(s: System, i: nat, p: Punch, pc: PunchPc)
    requires i < |s.jobs|
    ensures var t := AdvancePunch(s, i, p, pc);
      t.manual == s.manual && (t.jobs == s.jobs || exists job :: NothingDrafted(job) && t.jobs == s.jobs[i := job])
  {
    var t := AdvancePunch(s, i, p, pc);
    if t != s { assert NothingDrafted(t.jobs[i]) && t.jobs == s.jobs[i := t.jobs[i]]; }
  }

  lemma OtherStepKeeps(s: System, t: System, i: nat, job: Job)
    requires ManualInv(s) && Grows(s.db, t.db) && t.manual == s.manual && NothingDrafted(job)
    requires t.jobs == s.jobs || t.jobs == s.jobs + [job] || (i < |s.jobs| && t.jobs == s.jobs[i := job])
    ensures ManualInv(t)
  {
    OtherWritesKeepApart(s, t);
    forall j | 0 <= j < |t.jobs| ensures JobClear(t, t.jobs[j]) {
      if j < |s.jobs| { assert JobClear(s, s.jobs[j]); }
    }
  }

  lemma PunchKeepsManual(s: System, i: nat, p: Punch, pc: PunchPc)
    requires ManualInv(s) && i < |s.jobs| && Grows(s.db, AdvancePunch(s, i, p, pc).db)
    ensures ManualInv(AdvancePunch(s, i, p, pc))
  {
    var t := AdvancePunch(s, i, p, pc);
    PunchLeavesManual(s, i, p, pc);
    if t.jobs == s.jobs {
      OtherStepKeeps(s, t, i, Done(Committed));
    } else {
      var job :| NothingDrafted(job) && t.jobs == s.jobs[i := job];
      OtherStepKeeps(s, t, i, job);
    }
  }

  lemma ApproveKeepsManual(s: System, i: nat, shift: nat, pc: ApprovePc)
    requires ManualInv(s) && i < |s.jobs| && Grows(s.db, AdvanceApprove(s, i, shift, pc).db)
    ensures ManualInv(AdvanceApprove(s, i, shift, pc))
  {
    var t := AdvanceApprove(s, i, shift, pc);
    if t != s { OtherStepKeeps(s, t, i, t.jobs[i]); }
  }

  lemma CorrectKeepsManual(s: System, i: nat, c: Correction, pc: CorrectPc)
    requires ManualInv(s) && i < |s.jobs| && Grows(s.db, AdvanceCorrect(s, i, c, pc).db)
    ensures ManualInv(AdvanceCorrect(s, i, c, pc))
  {
    var t := AdvanceCorrect(s, i, c, pc);
    if t != s { OtherStepKeeps(s, t, i, t.jobs[i]); }
  }

  lemma GoKeepsManual(s: System, i: nat)
    requires Inv(s) && ManualInv(s) && i < |s.jobs| && !s.jobs[i].Manual? && Grows(s.db, Advance(s, i).db)
    ensures ManualInv(Advance(s, i))
  {
    match s.jobs[i]
    case Punching(p, pc) => PunchKeepsManual(s, i, p, pc);
    case Approving(shift, pc) => ApproveKeepsManual(s, i, shift, pc);
    case Correcting(c, pc) => CorrectKeepsManual(s, i, c, pc);
    case Done(_) =>
  }

  lemma StepKeepsManual(s: System, choice: Choice)
    requires Inv(s) && ManualInv(s)
    ensures ManualInv(Step(s, choice))
  {
    StepKeeps(s, choice);
    match choice
    case Arrive(job) =>
      if MayArrive(job) { OtherStepKeeps(s, Step(s, choice), 0, job); }
    case Go(i) =>
      if i < |s.jobs| {
        if !s.jobs[i].Manual? {
          GoKeepsManual(s, i);
        } else {
          assert JobOk(s.db, s.jobs[i]);
          if s.jobs[i].next < |s.jobs[i].b.entries| { ManualStepKeeps(s, i, s.jobs[i]); }
          else { ManualCommitKeeps(s, i, s.jobs[i]); }
        }
      }
  }

  lemma {:induction false} RunKeepsManual(schedule: seq<Choice>)
    ensures ManualInv(Run(EMPTY, schedule))
  {
    if schedule != [] {
      var front := schedule[..|schedule| - 1];
      RunKeepsManual(front);
      EmptyIsFine();
      RunKeeps(EMPTY, front);
      StepKeepsManual(Run(EMPTY, front), schedule[|schedule| - 1]);
    }
  }

  // ---- Main results ----

  /** For every interleaving: an employee's manual shifts are pairwise disjoint, and each is disjoint from
      every shift of the employee that its overlap check could see. */
  lemma ManualShiftsDisjoint(schedule: seq<Choice>, m: nat, k: nat)
    requires var s := Run(EMPTY, schedule);
      && m in s.manual && k < |s.db.shifts| && k != m
      && (k in s.manual || k < s.manual[m]) && m < |s.db.shifts| && s.db.shifts[k].employee == s.db.shifts[m].employee
    ensures var rows := Run(EMPTY, schedule).db.shifts;
      && rows[m].closedAt.Some? && rows[m].openedAt < rows[m].closedAt.value
      && (rows[m].closedAt.value <= rows[k].openedAt
          || (rows[k].closedAt.Some? && rows[k].closedAt.value <= rows[m].openedAt))
  {
    RunKeepsManual(schedule);
    assert ManualRow(Run(EMPTY, schedule).db, m);
  }
}
