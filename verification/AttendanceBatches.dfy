/** Manual batches: all-or-nothing, approved as a whole, harmless when replayed. */
module AttendanceBatches {
  import opened TimeCalculation
  import opened AttendanceDb
  import opened AttendanceRun
  import opened AttendanceSafety
  import opened AttendanceManual

  ghost predicate Recorded(db: Db, id: nat) { !FreshKey(db.events, ManualIn(id)) }

  /** The shift that an entry's key has made. */
  function ShiftOf(db: Db, id: nat): nat
    requires Recorded(db, id)
  {
    db.events[FindKey(db.events, ManualIn(id)).value].shift
  }

  ghost predicate HasMark(marks: seq<Mark>, shift: nat) { exists k :: 0 <= k < |marks| && marks[k].shift == shift }

  /** The entry is about to be recorded, or is recorded and its shift marked for approval. */
  ghost predicate EntryDone(db: Db, job: Job, id: nat)
    requires job.Manual?
  {
    HasId(job.drafts, id) || (Recorded(db, id) && (job.b.approves ==> HasMark(job.marks, ShiftOf(db, id))))
  }

  ghost predicate Passed(db: Db, job: Job)
    requires job.Manual?
  {
    && job.next <= |job.b.entries|
    && (forall k :: 0 <= k < job.next ==> EntryDone(db, job, job.b.entries[k].id))
    && (job.stage.Pinning? || job.stage.Marking? ==>
         job.next < |job.b.entries| && Recorded(db, job.b.entries[job.next].id)
         && ShiftOf(db, job.b.entries[job.next].id) == if job.stage.Pinning? then job.stage.shift
            else job.stage.mark.shift)
  }

  lemma StillRecorded(a: Db, b: Db, id: nat)
    requires a.events <= b.events && UniqueKeys(b.events) && Recorded(a, id)
    ensures Recorded(b, id) && ShiftOf(b, id) == ShiftOf(a, id)
  {
    var i := FindKey(a.events, ManualIn(id)).value;
    assert b.events[i] == a.events[i];
  }

  lemma PassedStays(a: Db, b: Db, job: Job)
    requires a.events <= b.events && UniqueKeys(b.events) && job.Manual? && Passed(a, job)
    ensures Passed(b, job)
  {
    forall id | Recorded(a, id) ensures Recorded(b, id) && ShiftOf(b, id) == ShiftOf(a, id) { StillRecorded(a, b, id); }
  }

  lemma HasMarkSnoc(marks: seq<Mark>, m: Mark, shift: nat)
    ensures HasMark(marks + [m], shift) <==> HasMark(marks, shift) || m.shift == shift
  {
    var all := marks + [m];
    assert all[|marks|] == m;
    if k: nat :| k < |marks| && marks[k].shift == shift { assert all[k] == marks[k]; }
  }

  /** What a job has done stays done when it goes on. */
  lemma EntriesStayDone(db: Db, job: Job, job2: Job)
    requires job.Manual? && job2.Manual? && job2.b == job.b
    requires job2.drafts == job.drafts || exists d :: job2.drafts == job.drafts + [d]
    requires job2.marks == job.marks || exists m :: job2.marks == job.marks + [m]
    ensures forall id :: EntryDone(db, job, id) ==> EntryDone(db, job2, id)
  {
    forall id | EntryDone(db, job, id) ensures EntryDone(db, job2, id) {
      if job2.drafts != job.drafts { var d :| job2.drafts == job.drafts + [d]; HasIdSnoc(job.drafts, d, id); }
      if job2.marks != job.marks && Recorded(db, id) {
        var m :| job2.marks == job.marks + [m];
        HasMarkSnoc(job.marks, m, ShiftOf(db, id));
      }
    }
  }

  lemma LookUpPasses(s: System, i: nat, job: Job)
    requires i < |s.jobs| && s.jobs[i] == job && job.Manual? && Passed(s.db, job) && job.next < |job.b.entries|
    requires job.stage.KeyCheck?
    ensures var t := Advance(s, i); t == Become(s, i, t.jobs[i]) && t.jobs[i].Manual? && Passed(s.db, t.jobs[i])
  {
    EntriesStayDone(s.db, job, Advance(s, i).jobs[i]);
  }

  lemma InsertPasses(s: System, i: nat, job: Job)
    requires i < |s.jobs| && s.jobs[i] == job && job.Manual? && Passed(s.db, job) && job.next < |job.b.entries|
    requires job.stage.Inserting?
    ensures var t := Advance(s, i);
      t == Become(s, i, t.jobs[i]) && (t.jobs[i].Manual? ==> Passed(s.db, t.jobs[i]))
  {
    var job2, e := Advance(s, i).jobs[i], job.b.entries[job.next];
    if job2.Manual? {
      EntriesStayDone(s.db, job, job2);
      HasIdSnoc(job.drafts, Draft(e, job.stage.seen), e.id);
    }
  }

  lemma MarkPasses(s: System, i: nat, job: Job)
    requires i < |s.jobs| && s.jobs[i] == job && job.Manual? && Passed(s.db, job) && job.next < |job.b.entries|
    requires job.stage.Marking?
    ensures var t := Advance(s, i); t == Become(s, i, t.jobs[i]) && t.jobs[i].Manual? && Passed(s.db, t.jobs[i])
  {
    EntriesStayDone(s.db, job, Advance(s, i).jobs[i]);
    HasMarkSnoc(job.marks, job.stage.mark, job.stage.mark.shift);
  }

  lemma OtherStagesPass(s: System, i: nat, job: Job)
    requires i < |s.jobs| && s.jobs[i] == job && job.Manual? && Passed(s.db, job) && job.next < |job.b.entries|
    requires job.stage.Locking? || job.stage.OverlapCheck? || job.stage.Pinning?
    ensures var t := Advance(s, i);
      t == Become(s, i, t.jobs[i]) && (t.jobs[i].Manual? ==> Passed(s.db, t.jobs[i]))
  {
    var job2 := Advance(s, i).jobs[i];
    if job2.Manual? { EntriesStayDone(s.db, job, job2); }
  }

  lemma BatchStepKeepsPassed(s: System, i: nat, job: Job)
    requires i < |s.jobs| && s.jobs[i] == job && job.Manual? && Passed(s.db, job) && job.next < |job.b.entries|
    ensures var t := Advance(s, i);
      t.db == s.db && |t.jobs| == |s.jobs| && (t.jobs[i].Manual? ==> Passed(t.db, t.jobs[i]))
  {
    match job.stage
    case KeyCheck => LookUpPasses(s, i, job);
    case Inserting(_) => InsertPasses(s, i, job);
    case Marking(_) => MarkPasses(s, i, job);
    case _ => OtherStagesPass(s, i, job);
  }

  ghost predicate AllPassed(s: System) {
    forall i :: 0 <= i < |s.jobs| && s.jobs[i].Manual? ==> Passed(s.db, s.jobs[i])
  }

  /** A step touches no job but its own. */
  lemma OnlyOwnJob(s: System, i: nat)
    requires Inv(s) && i < |s.jobs|
    ensures var t := Advance(s, i);
      |t.jobs| == |s.jobs| && forall j :: 0 <= j < |s.jobs| && j != i ==> t.jobs[j] == s.jobs[j]
  {
    match s.jobs[i]
    case Punching(p, pc) => PunchLeavesManual(s, i, p, pc);
    case Manual(_, _, _, _, _, _) => ManualTouchesOwnJob(s, i, s.jobs[i]);
    case Approving(shift, pc) => ApproveTouchesOwnJob(s, i, shift, pc);
    case Correcting(c, pc) => CorrectTouchesOwnJob(s, i, c, pc);
    case Done(_) =>
  }

  lemma ApproveTouchesOwnJob(s: System, i: nat, shift: nat, pc: ApprovePc)
    requires i < |s.jobs|
    ensures var t := AdvanceApprove(s, i, shift, pc); |t.jobs| == |s.jobs| && t.jobs == s.jobs[i := t.jobs[i]]
  {
  }

  lemma CorrectTouchesOwnJob(s: System, i: nat, c: Correction, pc: CorrectPc)
    requires i < |s.jobs|
    ensures var t := AdvanceCorrect(s, i, c, pc); |t.jobs| == |s.jobs| && t.jobs == s.jobs[i := t.jobs[i]]
  {
  }

  lemma ManualTouchesOwnJob(s: System, i: nat, job: Job)
    requires Inv(s) && i < |s.jobs| && s.jobs[i] == job && job.Manual?
    ensures var t := Advance(s, i); |t.jobs| == |s.jobs| && t.jobs == s.jobs[i := t.jobs[i]]
    ensures job.next >= |job.b.entries| ==> Advance(s, i).jobs[i] == Done(Committed)
  {
    assert JobOk(s.db, job);
    if job.next >= |job.b.entries| {
      var u := Become(s, i, Done(Committed));
      DraftsCommit(u, job.b.employee, job.drafts);
      ApprovalsKeepRows(CommitDrafts(u, job.b.employee, job.drafts), job.marks + NewMarks(s, job.drafts));
    }
  }

  lemma StepKeepsPassed(s: System, choice: Choice)
    requires Inv(s) && AllPassed(s)
    ensures AllPassed(Step(s, choice))
  {
    StepKeeps(s, choice);
    if choice.Go? && choice.i < |s.jobs| {
      var i, t := choice.i, Advance(s, choice.i);
      OnlyOwnJob(s, i);
      forall j | 0 <= j < |t.jobs| && t.jobs[j].Manual? ensures Passed(t.db, t.jobs[j]) {
        if j != i { PassedStays(s.db, t.db, s.jobs[j]); }
        else { OwnJobPasses(s, i); }
      }
    }
  }

  lemma OwnJobPasses(s: System, i: nat)
    requires Inv(s) && AllPassed(s) && i < |s.jobs| && |Advance(s, i).jobs| == |s.jobs| && Advance(s, i).jobs[i].Manual?
    ensures Passed(Advance(s, i).db, Advance(s, i).jobs[i])
  {
    var job := s.jobs[i];
    if job.Manual? {
      ManualTouchesOwnJob(s, i, job);
      assert job.next < |job.b.entries|;
      BatchStepKeepsPassed(s, i, job);
    } else {
      OnlyBatchesContinue(s, i);
    }
  }

  lemma OnlyBatchesContinue(s: System, i: nat)
    requires i < |s.jobs| && !s.jobs[i].Manual? && |Advance(s, i).jobs| == |s.jobs|
    ensures !Advance(s, i).jobs[i].Manual?
  {
  }

  lemma {:induction false} RunKeepsPassed(schedule: seq<Choice>)
    ensures AllPassed(Run(EMPTY, schedule)) && Inv(Run(EMPTY, schedule))
  {
    EmptyIsFine();
    RunKeeps(EMPTY, schedule);
    if schedule != [] {
      var front := schedule[..|schedule| - 1];
      RunKeepsPassed(front);
      StepKeepsPassed(Run(EMPTY, front), schedule[|schedule| - 1]);
    }
  }

  // ---- The commit of a batch ----

  /** Draft number k becomes shift n + k, under its own key. */
  lemma {:induction false} DraftBecomesShift(s: System, employee: nat, drafts: seq<Draft>, k: nat)
    requires Consistent(s.db) && ManualRowsClosed(s.db) && DraftsApart(drafts) && k < |drafts|
    requires forall l :: 0 <= l < |drafts| ==> DraftOk(s.db, employee, drafts[l])
    ensures var db := CommitDrafts(s, employee, drafts).db;
      Recorded(db, drafts[k].entry.id) && ShiftOf(db, drafts[k].entry.id) == |s.db.shifts| + k
  {
    var n := |drafts| - 1;
    DraftsCommit(s, employee, drafts);
    if k < n {
      DraftBecomesShift(s, employee, drafts[..n], k);
      var u, t := CommitDrafts(s, employee, drafts[..n]), CommitDrafts(s, employee, drafts);
      assert t == CommitDraft(u, employee, drafts[n]);
      StillRecorded(u.db, t.db, drafts[k].entry.id);
    } else {
      LastDraftBecomesShift(s, employee, drafts[..n], drafts[n]);
      assert drafts == drafts[..n] + [drafts[n]];
    }
  }

  lemma LastDraftBecomesShift(s: System, employee: nat, front: seq<Draft>, d: Draft)
    requires FreshKey(s.db.events, ManualIn(d.entry.id)) && !HasId(front, d.entry.id)
    ensures var u, t := CommitDrafts(s, employee, front), CommitDrafts(s, employee, front + [d]);
      Recorded(t.db, d.entry.id) && ShiftOf(t.db, d.entry.id) == |u.db.shifts| == |t.db.shifts| - 1
  {
    assert (front + [d])[..|front|] == front;
    DraftsFresh(s, employee, front, ManualIn(d.entry.id));
    LastDraftIsRecorded(CommitDrafts(s, employee, front).db, employee, d);
  }

  lemma LastDraftIsRecorded(db: Db, employee: nat, d: Draft)
    requires FreshKey(db.events, ManualIn(d.entry.id))
    ensures var e := d.entry; var after := AddManualShift(db, employee, e.start, e.end, e.id);
      Recorded(after, e.id) && ShiftOf(after, e.id) == |db.shifts|
  {
    var after, n := AddManualShift(db, employee, d.entry.start, d.entry.end, d.entry.id), |db.events|;
    assert after.events == db.events + [after.events[n]] + [after.events[n + 1]];
    FindKeySnoc(db.events, after.events[n], ManualIn(d.entry.id));
    FindKeySnoc(db.events + [after.events[n]], after.events[n + 1], ManualIn(d.entry.id));
  }

  lemma HasIdAt(drafts: seq<Draft>, id: nat) returns (k: nat)
    requires HasId(drafts, id)
    ensures k < |drafts| && drafts[k].entry.id == id
  {
    k :| k < |drafts| && drafts[k].entry.id == id;
  }

  /** Every shift that was marked is approved as it was marked last. */
  lemma {:induction false} MarksApprove(s: System, marks: seq<Mark>, k: nat)
    requires k < |marks|
    ensures var t := ApproveMarks(s, marks);
      && marks[k].shift in t.db.approvals
      && ((forall l :: k < l < |marks| ==> marks[l].shift != marks[k].shift) ==>
            t.db.approvals[marks[k].shift] == marks[k].pinned)
  {
    var n := |marks| - 1;
    if k < n { MarksApprove(s, marks[..n], k); }
  }

  /** A batch's new shifts are marked without a correction, after everything else. */
  lemma NewMarkApproves(v: System, marks: seq<Mark>, s: System, drafts: seq<Draft>, k: nat)
    requires k < |drafts|
    ensures var t, n := ApproveMarks(v, marks + NewMarks(s, drafts)), |s.db.shifts| + k;
      n in t.db.approvals && t.db.approvals[n] == None
  {
    var all := marks + NewMarks(s, drafts);
    assert all[|marks| + k] == Mark(|s.db.shifts| + k, None, |s.db.corrections|);
    MarksApprove(v, all, |marks| + k);
  }

  /** The tables just after a batch's last step: its rows, then its approvals. */
  lemma BatchEnd(s: System, i: nat, job: Job)
    requires Inv(s) && i < |s.jobs| && s.jobs[i] == job && job.Manual? && job.next == |job.b.entries|
    ensures var v := CommitDrafts(Become(s, i, Done(Committed)), job.b.employee, job.drafts);
      && Advance(s, i).db.shifts == v.db.shifts && Advance(s, i).db.events == v.db.events
      && Advance(s, i).db.corrections == v.db.corrections == s.db.corrections
      && |v.db.shifts| == |s.db.shifts| + |job.drafts| && Consistent(v.db) && s.db.events <= v.db.events
      && (job.b.approves ==> Advance(s, i) == ApproveMarks(v, job.marks + NewMarks(s, job.drafts)))
  {
    assert JobOk(s.db, job);
    var u := Become(s, i, Done(Committed));
    DraftsCommit(u, job.b.employee, job.drafts);
    ApprovalsKeepRows(CommitDrafts(u, job.b.employee, job.drafts), job.marks + NewMarks(s, job.drafts));
  }

  lemma DraftAtEnd(s: System, i: nat, job: Job, d: nat)
    requires Inv(s) && i < |s.jobs| && s.jobs[i] == job && job.Manual? && job.next == |job.b.entries|
      && d < |job.drafts|
    ensures var t := Advance(s, i); var id := job.drafts[d].entry.id;
      && Recorded(t.db, id) && ShiftOf(t.db, id) == |s.db.shifts| + d
      && (job.b.approves ==> |s.db.shifts| + d in t.db.approvals)
  {
    assert JobOk(s.db, job);
    BatchEnd(s, i, job);
    var u := Become(s, i, Done(Committed));
    DraftBecomesShift(u, job.b.employee, job.drafts, d);
    var v := CommitDrafts(u, job.b.employee, job.drafts);
    NewMarkApproves(v, job.marks, s, job.drafts, d);
    SameRowsSameShift(Advance(s, i).db, v.db, job.drafts[d].entry.id);
  }

  lemma SameRowsSameShift(a: Db, b: Db, id: nat)
    requires a.events == b.events && Recorded(b, id)
    ensures Recorded(a, id) && ShiftOf(a, id) == ShiftOf(b, id)
  {
  }

  lemma MarkedAtEnd(s: System, i: nat, job: Job, id: nat)
    requires Inv(s) && i < |s.jobs| && s.jobs[i] == job && job.Manual? && job.next == |job.b.entries|
    requires Recorded(s.db, id) && (job.b.approves ==> HasMark(job.marks, ShiftOf(s.db, id)))
    ensures var t := Advance(s, i);
      && Recorded(t.db, id) && ShiftOf(t.db, id) == ShiftOf(s.db, id)
      && (job.b.approves ==> ShiftOf(t.db, id) in t.db.approvals)
  {
    BatchEnd(s, i, job);
    var v := CommitDrafts(Become(s, i, Done(Committed)), job.b.employee, job.drafts);
    StillRecorded(s.db, v.db, id);
    if job.b.approves {
      var m :| 0 <= m < |job.marks| && job.marks[m].shift == ShiftOf(s.db, id);
      MarksApprove(v, job.marks + NewMarks(s, job.drafts), m);
    }
  }

  /** Every entry has a shift, and a batch that approves leaves an approval on each of them. */
  lemma EntriesAtEnd(s: System, i: nat, job: Job, k: nat)
    requires Inv(s) && i < |s.jobs| && s.jobs[i] == job && job.Manual? && job.next == |job.b.entries|
    requires Passed(s.db, job) && k < |job.b.entries|
    ensures var t := Advance(s, i); var id := job.b.entries[k].id;
      Recorded(t.db, id) && (job.b.approves ==> ShiftOf(t.db, id) in t.db.approvals)
  {
    var id := job.b.entries[k].id;
    assert EntryDone(s.db, job, id);
    if HasId(job.drafts, id) {
      var d := HasIdAt(job.drafts, id);
      DraftAtEnd(s, i, job, d);
    } else {
      MarkedAtEnd(s, i, job, id);
    }
  }

  lemma NewShiftApproved(s: System, i: nat, job: Job, k: nat)
    requires Inv(s) && i < |s.jobs| && s.jobs[i] == job && job.Manual? && job.next == |job.b.entries| && job.b.approves
    requires k < |job.drafts|
    ensures StatusOf(Advance(s, i).db, |s.db.shifts| + k) == Approved
  {
    BatchEnd(s, i, job);
    var v := CommitDrafts(Become(s, i, Done(Committed)), job.b.employee, job.drafts);
    NewMarkApproves(v, job.marks, s, job.drafts, k);
    assert CurrentIndex(s.db.corrections, |s.db.shifts| + k).None?;
  }

  predicate LastMarkOf(marks: seq<Mark>, k: nat) {
    k < |marks| && forall l :: k < l < |marks| ==> marks[l].shift != marks[k].shift
  }

  lemma KnownShiftApprovedIff(s: System, i: nat, job: Job, k: nat)
    requires Inv(s) && i < |s.jobs| && s.jobs[i] == job && job.Manual? && job.next == |job.b.entries| && job.b.approves
    requires LastMarkOf(job.marks, k)
    ensures var m, rows := job.marks[k], s.db.corrections;
      && m.at <= |rows|
      && (StatusOf(Advance(s, i).db, m.shift) == Approved <==> NoneBeats(rows, m.shift, m.pinned, m.at, |rows|))
  {
    assert JobOk(s.db, job) && MarkOk(s.db, job.marks[k]);
    BatchEnd(s, i, job);
    var marks := job.marks + NewMarks(s, job.drafts);
    assert marks[k] == job.marks[k] && LastMarkOf(marks, k);
    MarksApprove(CommitDrafts(Become(s, i, Done(Committed)), job.b.employee, job.drafts), marks, k);
    StillCurrentIff(s.db.corrections, job.marks[k].shift, job.marks[k].at);
  }

  // ---- Main results ----

  /** In every run a batch is all-or-nothing: until its last step it has written nothing; that step adds one shift for
      each new entry, leaves every entry recorded and, if the batch approves, every entry's shift with an approval. */
  lemma BatchIsAllOrNothing(schedule: seq<Choice>, i: nat)
    requires i < |Run(EMPTY, schedule).jobs| && Run(EMPTY, schedule).jobs[i].Manual?
    ensures var s := Run(EMPTY, schedule); var t, job := Advance(s, i), s.jobs[i];
      && (job.next < |job.b.entries| ==> t.db == s.db)
      && (job.next >= |job.b.entries| ==> |t.db.shifts| == |s.db.shifts| + |job.drafts|)
      && (job.next >= |job.b.entries| ==> forall k :: 0 <= k < |job.b.entries| ==>
           Recorded(t.db, job.b.entries[k].id)
           && (job.b.approves ==> ShiftOf(t.db, job.b.entries[k].id) in t.db.approvals))
  {
    RunKeepsPassed(schedule);
    var s := Run(EMPTY, schedule);
    var job := s.jobs[i];
    assert JobOk(s.db, job);
    if job.next < |job.b.entries| {
      BatchStepKeepsPassed(s, i, job);
    } else {
      BatchEnd(s, i, job);
      forall k | 0 <= k < |job.b.entries|
        ensures Recorded(Advance(s, i).db, job.b.entries[k].id)
        ensures job.b.approves ==> ShiftOf(Advance(s, i).db, job.b.entries[k].id) in Advance(s, i).db.approvals {
        EntriesAtEnd(s, i, job, k);
      }
    }
  }

  /** A batch's new shifts end up approved. A shift it found recorded ends up approved if and only if no correction that
      comes before the one the batch read was committed between that read and the batch's own commit. */
  lemma BatchApprovesIff(schedule: seq<Choice>, i: nat, k: nat)
    requires CommitsApprovals(Run(EMPTY, schedule), i)
    ensures NewApproved(Run(EMPTY, schedule), i, k) && KnownApprovedIff(Run(EMPTY, schedule), i, k)
  {
    RunKeepsPassed(schedule);
    CommitApproves(Run(EMPTY, schedule), i, k);
  }

  lemma CommitApproves(s: System, i: nat, k: nat)
    requires Inv(s) && CommitsApprovals(s, i)
    ensures NewApproved(s, i, k) && KnownApprovedIff(s, i, k)
  {
    assert JobOk(s.db, s.jobs[i]);
    if k < |s.jobs[i].drafts| { NewShiftApproved(s, i, s.jobs[i], k); }
    if LastMarkOf(s.jobs[i].marks, k) { KnownShiftApprovedIff(s, i, s.jobs[i], k); }
  }

  predicate CommitsApprovals(s: System, i: nat) {
    i < |s.jobs| && s.jobs[i].Manual? && s.jobs[i].b.approves && s.jobs[i].next >= |s.jobs[i].b.entries|
  }

  ghost predicate NewApproved(s: System, i: nat, k: nat)
    requires CommitsApprovals(s, i)
  {
    k < |s.jobs[i].drafts| ==> StatusOf(Advance(s, i).db, |s.db.shifts| + k) == Approved
  }

  ghost predicate KnownApprovedIff(s: System, i: nat, k: nat)
    requires CommitsApprovals(s, i)
  {
    LastMarkOf(s.jobs[i].marks, k) ==>
      var m, rows := s.jobs[i].marks[k], s.db.corrections;
      && m.at <= |rows|
      && (StatusOf(Advance(s, i).db, m.shift) == Approved <==> NoneBeats(rows, m.shift, m.pinned, m.at, |rows|))
  }

  // ---- Replays ----

  /** A batch, or its remains, all of whose entries are recorded. */
  ghost predicate Replaying(db: Db, job: Job) {
    || job == Done(Committed)
    || (job.Manual? && job.drafts == [] && (job.stage.KeyCheck? || job.stage.Pinning? || job.stage.Marking?)
        && forall k :: 0 <= k < |job.b.entries| ==> Recorded(db, job.b.entries[k].id))
  }

  lemma ReplayStep(s: System, i: nat)
    requires Inv(s) && i < |s.jobs| && Replaying(s.db, s.jobs[i])
    ensures var t := Advance(s, i);
      && t.db.shifts == s.db.shifts && t.db.events == s.db.events && t.db.corrections == s.db.corrections
      && |t.jobs| == |s.jobs| && Replaying(t.db, t.jobs[i])
  {
    var job := s.jobs[i];
    if job.Manual? {
      assert JobOk(s.db, job);
      ManualTouchesOwnJob(s, i, job);
      if job.next >= |job.b.entries| { BatchEnd(s, i, job); }
    }
  }

  lemma OthersKeepReplay(s: System, choice: Choice, i: nat)
    requires Inv(s) && i < |s.jobs| && Replaying(s.db, s.jobs[i])
    ensures var t := Step(s, choice); Inv(t) && i < |t.jobs| && Replaying(t.db, t.jobs[i])
  {
    StepKeeps(s, choice);
    var t := Step(s, choice);
    if choice.Go? && choice.i == i {
      ReplayStep(s, i);
    } else {
      if choice.Go? && choice.i < |s.jobs| { OnlyOwnJob(s, choice.i); }
      forall id | Recorded(s.db, id) ensures Recorded(t.db, id) { StillRecorded(s.db, t.db, id); }
    }
  }

  lemma {:induction false} ReplayingThroughout(s: System, after: seq<Choice>, i: nat)
    requires Inv(s) && i < |s.jobs| && Replaying(s.db, s.jobs[i])
    ensures var t := Run(s, after); Inv(t) && i < |t.jobs| && Replaying(t.db, t.jobs[i])
  {
    if after != [] {
      ReplayingThroughout(s, after[..|after| - 1], i);
      OthersKeepReplay(Run(s, after[..|after| - 1]), after[|after| - 1], i);
    }
  }

  /** A batch that arrives when all its entries are recorded never writes a shift, an event or a correction, at no later
      point of any schedule; all it can still do is approve. */
  lemma ReplayNeverWrites(before: seq<Choice>, b: Batch, after: seq<Choice>)
    requires forall k :: 0 <= k < |b.entries| ==> b.entries[k].start < b.entries[k].end
    requires forall k :: 0 <= k < |b.entries| ==> Recorded(Run(EMPTY, before).db, b.entries[k].id)
    ensures var s0 := Run(EMPTY, before); var i := |s0.jobs|;
      var s := Run(Step(s0, Arrive(Manual(b, 0, [], [], false, KeyCheck))), after);
      && i < |s.jobs| && (s.jobs[i].Manual? || s.jobs[i] == Done(Committed))
      && var t := Advance(s, i);
      t.db.shifts == s.db.shifts && t.db.events == s.db.events && t.db.corrections == s.db.corrections
  {
    EmptyIsFine();
    RunKeeps(EMPTY, before);
    var s0, job := Run(EMPTY, before), Manual(b, 0, [], [], false, KeyCheck);
    assert MayArrive(job);
    StepKeeps(s0, Arrive(job));
    ReplayingThroughout(Step(s0, Arrive(job)), after, |s0.jobs|);
    ReplayStep(Run(Step(s0, Arrive(job)), after), |s0.jobs|);
  }
}
