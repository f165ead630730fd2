/** Saving corrections and approving shifts when other requests for the same shift overlap. */
module AttendanceSaves {
  import opened TimeCalculation
  import opened AttendanceDb
  import opened AttendanceRun
  import opened AttendanceSafety
  import opened AttendanceWords

  // ---- What a saved correction leaves behind ----

  /** A correction about to commit. */
  predicate AboutToCommit(s: System, i: nat) { i < |s.jobs| && s.jobs[i].Correcting? && s.jobs[i].cpc.Stored? }

  /** No correction of the shift that comes before the one this save has pinned was committed since it read its pin. */
  ghost predicate PinUndisturbed(s: System, i: nat)
    requires AboutToCommit(s, i)
  {
    var pc, rows := s.jobs[i].cpc, s.db.corrections;
    pc.pinnedAt <= |rows| && NoneBeats(rows, s.jobs[i].c.shift, pc.pinned, pc.pinnedAt, |rows|)
  }

  /** No committed correction of the shift was created after this one. */
  ghost predicate Newest(s: System, i: nat)
    requires AboutToCommit(s, i)
  {
    NoneBeats(s.db.corrections, s.jobs[i].c.shift, Some(s.jobs[i].cpc.row), 0, |s.db.corrections|)
  }

  /** In every run: a saved correction leaves the shift approved if and only if its pin was undisturbed, and it takes
      effect if and only if no committed correction of the shift was created after it. */
  lemma SavedCorrectionOutcome(schedule: seq<Choice>, i: nat)
    requires AboutToCommit(Run(EMPTY, schedule), i)
    ensures var s := Run(EMPTY, schedule); var b, shift, row := Advance(s, i).db, s.jobs[i].c.shift, s.jobs[i].cpc.row;
      && (StatusOf(b, shift) == Approved <==> PinUndisturbed(s, i))
      && (CurrentCorrection(b.corrections, shift) == Some(row) <==> Newest(s, i))
      && (Newest(s, i) ==> EffectiveEvents(b, shift) == row.events)
  {
    EmptyIsFine();
    RunKeeps(EMPTY, schedule);
    CommitOutcome(Run(EMPTY, schedule), i);
  }

  lemma CommitOutcome(s: System, i: nat)
    requires Inv(s) && AboutToCommit(s, i)
    ensures var b, shift, row := Advance(s, i).db, s.jobs[i].c.shift, s.jobs[i].cpc.row;
      && (StatusOf(b, shift) == Approved <==> PinUndisturbed(s, i))
      && (CurrentCorrection(b.corrections, shift) == Some(row) <==> Newest(s, i))
  {
    var pc, rows := s.jobs[i].cpc, s.db.corrections;
    assert JobOk(s.db, s.jobs[i]);
    OwnViewStillCurrentIff(rows, pc.row, pc.pinnedAt);
    NewRowIsCurrentIff(rows, pc.row);
  }

  /** It leaves the raw punches and every other shift alone. */
  lemma SavedCorrectionTouchesNothingElse(s: System, i: nat, other: nat)
    requires Inv(s) && AboutToCommit(s, i) && other != s.jobs[i].c.shift
    ensures var a, b := s.db, Advance(s, i).db;
      && b.shifts == a.shifts && b.events == a.events
      && EffectiveEvents(b, other) == EffectiveEvents(a, other) && StatusOf(b, other) == StatusOf(a, other)
  {
    assert JobOk(s.db, s.jobs[i]);
    CurrentSnoc(s.db.corrections, s.jobs[i].cpc.row, other);
  }

  // ---- The chain of superseded corrections ----

  /** Each correction supersedes the one of its shift that was committed just before it. */
  ghost predicate Chained(rows: seq<CorrectionRow>) {
    forall k :: 0 <= k < |rows| ==> rows[k].supersedes == IdOf(LastCommitted(rows[..k], rows[k].shift))
  }

  /** Then no two corrections of a shift supersede the same one. */
  lemma ChainDoesNotFork(db: Db, i: nat, j: nat)
    requires DistinctIds(db) && Chained(db.corrections) && i < j < |db.corrections|
    requires db.corrections[i].shift == db.corrections[j].shift
    ensures db.corrections[i].supersedes != db.corrections[j].supersedes && db.corrections[j].supersedes.Some?
  {
    var rows, shift := db.corrections, db.corrections[i].shift;
    var k := LastIsAfter(rows[..j], shift, i);
    if LastCommitted(rows[..i], shift).Some? {
      var l :| 0 <= l < i && rows[..i][l] == LastCommitted(rows[..i], shift).value;
      assert rows[l].id != rows[k].id;
    }
  }

  lemma {:induction false} LastIsAfter(rows: seq<CorrectionRow>, shift: nat, i: nat) returns (k: nat)
    requires i < |rows| && rows[i].shift == shift
    ensures i <= k < |rows| && LastCommitted(rows, shift) == Some(rows[k])
  {
    var n := |rows| - 1;
    if rows[n].shift == shift { k := n; } else { k := LastIsAfter(rows[..n], shift, i); }
  }

  /** A commit is in turn when no other save of the shift was committed since this one looked for its predecessor, and
      what it found was the one committed last. */
  ghost predicate InTurn(s: System, choice: Choice) {
    choice.Go? && AboutToCommit(s, choice.i) ==>
      var pc, rows, shift := s.jobs[choice.i].cpc, s.db.corrections, s.jobs[choice.i].c.shift;
      && pc.linkedAt <= |rows|
      && (forall k :: pc.linkedAt <= k < |rows| ==> rows[k].shift != shift)
      && CurrentCorrection(rows[..pc.linkedAt], shift) == LastCommitted(rows[..pc.linkedAt], shift)
  }

  lemma ChainedSnoc(rows: seq<CorrectionRow>, row: CorrectionRow)
    ensures Chained(rows + [row]) <==> Chained(rows) && row.supersedes == IdOf(LastCommitted(rows, row.shift))
  {
    var all := rows + [row];
    assert all[..|rows|] == rows && all[|rows|] == row;
    assert forall k :: 0 <= k < |rows| ==> all[k] == rows[k] && all[..k] == rows[..k];
  }

  /** Rows of other shifts do not change which one was committed last. */
  lemma {:induction false} LastUnchanged(rows: seq<CorrectionRow>, shift: nat, at: nat)
    requires at <= |rows| && forall k :: at <= k < |rows| ==> rows[k].shift != shift
    ensures LastCommitted(rows, shift) == LastCommitted(rows[..at], shift)
    decreases |rows|
  {
    if at < |rows| {
      var front := rows[..|rows| - 1];
      LastUnchanged(front, shift, at);
      assert front[..at] == rows[..at];
    } else {
      assert rows[..at] == rows;
    }
  }

  /** The predecessor read at `at` is the last committed one exactly when the commit is in turn. */
  lemma LinkIsLastIff(db: Db, shift: nat, at: nat)
    requires DistinctIds(db) && at <= |db.corrections|
    ensures var rows := db.corrections; var read := CurrentCorrection(rows[..at], shift);
      IdOf(read) == IdOf(LastCommitted(rows, shift)) <==>
        (forall k :: at <= k < |rows| ==> rows[k].shift != shift) && read == LastCommitted(rows[..at], shift)
  {
    var rows := db.corrections;
    var read, i := CurrentCorrection(rows[..at], shift), CurrentIndex(rows[..at], shift);
    if k: nat :| at <= k < |rows| && rows[k].shift == shift {
      var l := LastIsAfter(rows, shift, k);
      if read.Some? { assert rows[i.value].id != rows[l].id; }
    } else {
      LastUnchanged(rows, shift, at);
      if LastCommitted(rows[..at], shift).Some? && read.Some? {
        var l :| 0 <= l < at && rows[..at][l] == LastCommitted(rows[..at], shift).value;
        assert l != i.value ==> rows[l].id != rows[i.value].id;
      }
    }
  }

  lemma CommitChainsIff(s: System, i: nat)
    requires Inv(s) && AboutToCommit(s, i)
    ensures Chained(Advance(s, i).db.corrections) <==> Chained(s.db.corrections) && InTurn(s, Go(i))
  {
    var pc := s.jobs[i].cpc;
    assert JobOk(s.db, s.jobs[i]);
    ChainedSnoc(s.db.corrections, pc.row);
    LinkIsLastIff(s.db, s.jobs[i].c.shift, pc.linkedAt);
  }

  lemma OthersKeepRows(s: System, choice: Choice)
    requires Inv(s) && !(choice.Go? && AboutToCommit(s, choice.i))
    ensures Step(s, choice).db.corrections == s.db.corrections
  {
    if choice.Go? && choice.i < |s.jobs| && s.jobs[choice.i].Manual? {
      BatchesKeepRows(s, choice.i, s.jobs[choice.i]);
    }
  }

  lemma BatchesKeepRows(s: System, i: nat, job: Job)
    requires Inv(s) && i < |s.jobs| && s.jobs[i] == job && job.Manual?
    ensures Advance(s, i).db.corrections == s.db.corrections
  {
    assert JobOk(s.db, job);
    if job.next >= |job.b.entries| {
      var u := Become(s, i, Done(Committed));
      DraftsCommit(u, job.b.employee, job.drafts);
      ApprovalsKeepRows(CommitDrafts(u, job.b.employee, job.drafts), job.marks + NewMarks(s, job.drafts));
    }
  }

  ghost predicate AllInTurn(schedule: seq<Choice>) {
    forall n :: 0 <= n < |schedule| ==> InTurn(At(schedule, n), schedule[n])
  }

  lemma InTurnSnoc(schedule: seq<Choice>)
    requires schedule != []
    ensures var m := |schedule| - 1;
      AllInTurn(schedule) <==> AllInTurn(schedule[..m]) && InTurn(At(schedule, m), schedule[m])
  {
    var m := |schedule| - 1;
    var front := schedule[..m];
    if AllInTurn(schedule) {
      forall n | 0 <= n < m ensures InTurn(At(front, n), front[n]) { AtFront(schedule, n); }
    }
    if AllInTurn(front) && InTurn(At(schedule, m), schedule[m]) {
      forall n | 0 <= n < |schedule| ensures InTurn(At(schedule, n), schedule[n]) {
        if n < m { AtFront(schedule, n); assert InTurn(At(front, n), front[n]); }
      }
    }
  }

  /** Along any run the corrections of every shift form one chain if and only if every save was committed in turn. */
  lemma {:induction false} ChainedIffInTurn(schedule: seq<Choice>)
    ensures Chained(Run(EMPTY, schedule).db.corrections) <==> AllInTurn(schedule)
  {
    EmptyIsFine();
    if schedule != [] {
      var m := |schedule| - 1;
      var s := Run(EMPTY, schedule[..m]);
      ChainedIffInTurn(schedule[..m]);
      RunKeeps(EMPTY, schedule[..m]);
      InTurnSnoc(schedule);
      if schedule[m].Go? && AboutToCommit(s, schedule[m].i) {
        CommitChainsIff(s, schedule[m].i);
      } else {
        OthersKeepRows(s, schedule[m]);
      }
    }
  }

  // ---- Two requests that overlap ----

  function Iterate<T>(f: T -> T, x: T, n: nat): T { if n == 0 then x else f(Iterate(f, x, n - 1)) }

  function Going(i: nat): System -> System { (s: System) => Step(s, Go(i)) }

  /** `n` steps of job i in a row. */
  function Steps(s: System, i: nat, n: nat): System { Iterate(Going(i), s, n) }

  lemma {:induction false} IterateJoin<T>(f: T -> T, x: T, m: nat, n: nat)
    ensures Iterate(f, x, m + n) == Iterate(f, Iterate(f, x, m), n)
  {
    if n > 0 { IterateJoin(f, x, m, n - 1); }
  }

  lemma {:induction false} StepsAreARun(s: System, schedule: seq<Choice>, i: nat, n: nat) returns (all: seq<Choice>)
    ensures Run(s, all) == Steps(Run(s, schedule), i, n)
  {
    if n == 0 {
      all := schedule;
    } else {
      var front := StepsAreARun(s, schedule, i, n - 1);
      all := front + [Go(i)];
      assert all[..|front|] == front;
    }
  }

  lemma StepsOnce(s: System, i: nat, n: nat, u: System, v: System)
    requires Steps(s, i, n) == u && i < |u.jobs| && Advance(u, i) == v
    ensures Steps(s, i, n + 1) == v
  {
  }

  lemma Links(s: System, i: nat, c: Correction, corrected: seq<Event>)
    requires i < |s.jobs| && s.jobs[i] == Correcting(c, Linking(corrected))
    ensures var rows := s.db.corrections;
      Advance(s, i) == Become(s, i, Correcting(c, Adding(corrected, IdOf(CurrentCorrection(rows, c.shift)), |rows|)))
  {
  }

  lemma AddsAndReads(s: System, i: nat, c: Correction, corrected: seq<Event>, previous: Option<nat>, at: nat)
    requires i < |s.jobs| && s.jobs[i] == Correcting(c, Adding(corrected, previous, at))
    ensures var rows, row := s.db.corrections, CorrectionRow(s.db.sequence, c.shift, previous, corrected, c.createdAt);
      Steps(s, i, 2) == s.(db := s.db.(sequence := s.db.sequence + 1),
        jobs := s.jobs[i := Correcting(c, Storing(row, at, CurrentCorrection(rows + [row], c.shift), |rows|))])
  {
    var row := CorrectionRow(s.db.sequence, c.shift, previous, corrected, c.createdAt);
    var u := s.(db := s.db.(sequence := s.db.sequence + 1), jobs := s.jobs[i := Correcting(c, Reading(row, at))]);
    StepsOnce(s, i, 0, s, u);
    StepsOnce(s, i, 1, u, Advance(u, i));
  }

  /** A save that has inserted its row and read its pin. */
  function Inserted(s: System, i: nat, c: Correction, row: CorrectionRow): System
    requires i < |s.jobs|
  {
    var rows := s.db.corrections;
    var job := Correcting(c, Storing(row, |rows|, CurrentCorrection(rows + [row], c.shift), |rows|));
    s.(db := s.db.(sequence := s.db.sequence + 1), jobs := s.jobs[i := job])
  }

  /** Past its guard, three steps alone bring a save there. */
  lemma SaveReads(s: System, i: nat, c: Correction, corrected: seq<Event>) returns (row: CorrectionRow)
    requires i < |s.jobs| && s.jobs[i] == Correcting(c, Linking(corrected))
    ensures row
      == CorrectionRow(s.db.sequence, c.shift, IdOf(CurrentCorrection(s.db.corrections, c.shift)), corrected,
        c.createdAt)
    ensures Steps(s, i, 3) == Inserted(s, i, c, row)
  {
    row := CorrectionRow(s.db.sequence, c.shift, IdOf(CurrentCorrection(s.db.corrections, c.shift)), corrected,
      c.createdAt);
    var v := Become(s, i, Correcting(c, Adding(corrected, row.supersedes, |s.db.corrections|)));
    Links(s, i, c, corrected);
    StepsOnce(s, i, 0, s, v);
    AddsAndReads(v, i, c, corrected, row.supersedes, |s.db.corrections|);
    IterateJoin(Going(i), s, 1, 2);
  }

  /** Two more, if nobody else has the approval row, and it has committed. */
  lemma SaveCommits(s: System, i: nat, c: Correction, row: CorrectionRow, at: nat, pinned: Option<CorrectionRow>)
    requires i < |s.jobs| && s.jobs[i] == Correcting(c, Storing(row, at, pinned, at)) && !ApprovalLocked(s, i, c.shift)
    ensures Steps(s, i, 2) ==
      s.(db := SetApproval(AddCorrection(s.db, row), c.shift, pinned), jobs := s.jobs[i := Done(Committed)],
         seen := s.seen[c.shift := Seen(Some(row), row.events, 0, at)])
  {
    var u := Become(s, i, Correcting(c, Stored(row, at, pinned, at)));
    StepsOnce(s, i, 0, s, u);
    StepsOnce(s, i, 1, u, Advance(u, i));
  }

  ghost predicate ApprovalFree(s: System, shift: nat) {
    forall j :: 0 <= j < |s.jobs| ==> !HoldsApproval(s.jobs[j], shift)
  }

  lemma StillFree(u: System, v: System, shift: nat, i: nat)
    requires ApprovalFree(u, shift) && i < |u.jobs| == |v.jobs| && v.jobs == u.jobs[i := v.jobs[i]]
    requires !HoldsApproval(v.jobs[i], shift)
    ensures ApprovalFree(v, shift)
  {
  }

  /** Two saves of one shift without corrections have passed their guards, as when a form is sent twice. The first
      inserts and pins its row; the second, which does not see it, saves a later one and commits; then the first
      commits. Both supersede nothing, and the shift is stale although each of them saved and approved. */
  lemma OverlappingSavesGoStale(s: System, i: nat, j: nat, first: Correction, second: Correction, e1: seq<Event>,
                                e2: seq<Event>)
    returns (schedule: seq<Choice>)
    requires i < |s.jobs| && j < |s.jobs| && i != j && first.shift == second.shift
      && first.createdAt <= second.createdAt
    requires s.jobs[i] == Correcting(first, Linking(e1)) && s.jobs[j] == Correcting(second, Linking(e2))
    requires CurrentIndex(s.db.corrections, first.shift).None? && ApprovalFree(s, first.shift)
    ensures var t, n := Run(s, schedule), |s.db.corrections|;
      && |t.db.corrections| == n + 2 && StatusOf(t.db, first.shift) == Stale
      && t.db.corrections[n].shift == t.db.corrections[n + 1].shift == first.shift
      && t.db.corrections[n].supersedes == t.db.corrections[n + 1].supersedes == None
      && t.db.approvals[first.shift] == Some(t.db.corrections[n + 1])
  {
    var n := |s.db.corrections|;
    var r1 := SaveReads(s, i, first, e1);
    var u := Inserted(s, i, first, r1);
    StillFree(s, u, first.shift, i);
    var r2 := SaveReads(u, j, second, e2);
    var v := Inserted(u, j, second, r2);
    StillFree(u, v, first.shift, j);
    SecondThenFirst(v, i, j, first, second, r1, r2, n);
    schedule := StepsAreARun(s, [], i, 3);
    schedule := StepsAreARun(s, schedule, j, 3);
    schedule := StepsAreARun(s, schedule, j, 2);
    schedule := StepsAreARun(s, schedule, i, 2);
  }

  /** Two rows inserted side by side, neither seen by the other, committed in the opposite order. */
  lemma SecondThenFirst(s: System, i: nat, j: nat, first: Correction, second: Correction,
                        r1: CorrectionRow, r2: CorrectionRow, n: nat)
    requires i < |s.jobs| && j < |s.jobs| && i != j && n == |s.db.corrections|
    requires first.shift == second.shift == r1.shift == r2.shift && CurrentIndex(s.db.corrections, r1.shift).None?
    requires s.jobs[i] == Correcting(first, Storing(r1, n, CurrentCorrection(s.db.corrections + [r1], r1.shift), n))
    requires s.jobs[j] == Correcting(second, Storing(r2, n, CurrentCorrection(s.db.corrections + [r2], r1.shift), n))
    requires ApprovalFree(s, r1.shift) && After(r2, r1)
    ensures var t := Steps(Steps(s, j, 2), i, 2);
      && t.db.corrections == s.db.corrections + [r2] + [r1] && StatusOf(t.db, r1.shift) == Stale
      && t.db.approvals[r1.shift] == Some(r1)
  {
    var rows, shift := s.db.corrections, r1.shift;
    CurrentSnoc(rows, r1, shift);
    CurrentSnoc(rows, r2, shift);
    CurrentSnoc(rows + [r2], r1, shift);
    SaveCommits(s, j, second, r2, n, Some(r2));
    SaveCommits(Steps(s, j, 2), i, first, r1, n, Some(r1));
  }

  /** The view of an approval has accepted the shift's events; a correction past its guard is saved; then the service
      pins what is current. The approval is not stale, but covers events that its guard never evaluated. */
  lemma ApprovalOfUnseenEvents(s: System, i: nat, j: nat, c: Correction, read: Option<CorrectionRow>,
                               events: seq<Event>,
                               at: nat, corrected: seq<Event>) returns (schedule: seq<Choice>)
    requires i < |s.jobs| && j < |s.jobs| && i != j && ApprovalFree(s, c.shift) && NoneNewer(s.db, c)
    requires s.jobs[i] == Approving(c.shift, Pin(read, events, at)) && s.jobs[j] == Correcting(c, Linking(corrected))
    ensures var t := Run(s, schedule);
      && StatusOf(t.db, c.shift) == Approved && c.shift in t.seen && t.seen[c.shift].events == events
      && EffectiveEvents(t.db, c.shift) == corrected
  {
    var row := SaveReads(s, j, c, corrected);
    var u := Inserted(s, j, c, row);
    StillFree(s, u, c.shift, j);
    NewRowBeats(s.db, c, row);
    SavedInBetween(u, i, j, c, row, read, events, at);
    schedule := StepsAreARun(s, [], j, 3);
    schedule := StepsAreARun(s, schedule, j, 2);
    schedule := StepsAreARun(s, schedule, i, 2);
  }

  /** The correction is not older than any of its shift's. */
  ghost predicate NoneNewer(db: Db, c: Correction) {
    forall k :: 0 <= k < |db.corrections| && db.corrections[k].shift == c.shift ==>
      db.corrections[k].createdAt <= c.createdAt && db.corrections[k].id < db.sequence
  }

  lemma NewRowBeats(db: Db, c: Correction, row: CorrectionRow)
    requires NoneNewer(db, c) && row.createdAt == c.createdAt && row.id == db.sequence
    ensures Beats(row, CurrentCorrection(db.corrections, c.shift))
  {
  }

  lemma SavedInBetween(s: System, i: nat, j: nat, c: Correction, row: CorrectionRow, read: Option<CorrectionRow>,
                       events: seq<Event>, at: nat)
    requires i < |s.jobs| && j < |s.jobs| && i != j && row.shift == c.shift && ApprovalFree(s, c.shift)
    requires s.jobs[i] == Approving(c.shift, Pin(read, events, at))
    requires var rows, n := s.db.corrections, |s.db.corrections|;
      s.jobs[j] == Correcting(c, Storing(row, n, CurrentCorrection(rows + [row], c.shift), n))
    requires Beats(row, CurrentCorrection(s.db.corrections, c.shift))
    ensures var t := Steps(Steps(s, j, 2), i, 2);
      && StatusOf(t.db, c.shift) == Approved && c.shift in t.seen && t.seen[c.shift].events == events
      && EffectiveEvents(t.db, c.shift) == row.events
  {
    CurrentSnoc(s.db.corrections, row, c.shift);
    SaveCommits(s, j, c, row, |s.db.corrections|, Some(row));
    PinsAndStores(Steps(s, j, 2), i, c.shift, read, events, at);
  }

  lemma PinsAndStores(s: System, i: nat, shift: nat, read: Option<CorrectionRow>, events: seq<Event>, at: nat)
    requires i < |s.jobs| && s.jobs[i] == Approving(shift, Pin(read, events, at)) && !ApprovalLocked(s, i, shift)
    ensures var rows := s.db.corrections; var current := CurrentCorrection(rows, shift);
      Steps(s, i, 2) == s.(db := SetApproval(s.db, shift, current), jobs := s.jobs[i := Done(Committed)],
                           seen := s.seen[shift := Seen(read, events, at, |rows|)])
  {
    var rows := s.db.corrections;
    var u := Become(s, i, Approving(shift, Store(CurrentCorrection(rows, shift), Seen(read, events, at, |rows|))));
    StepsOnce(s, i, 0, s, u);
    StepsOnce(s, i, 1, u, Advance(u, i));
  }

  // ---- Such overlaps do arise ----

  lemma RunSnoc(s: System, schedule: seq<Choice>, choice: Choice)
    ensures Run(s, schedule + [choice]) == Step(Run(s, schedule), choice)
  {
    assert (schedule + [choice])[..|schedule|] == schedule;
  }

  lemma ArrivesAndGoes(s: System, job: Job, next: Job) returns (schedule: seq<Choice>)
    requires MayArrive(job)
    requires Step(s.(jobs := s.jobs + [job]), Go(|s.jobs|)) == Become(s.(jobs := s.jobs + [job]), |s.jobs|, next)
    ensures Run(s, schedule) == s.(jobs := s.jobs + [next])
  {
    RunSnoc(s, [], Arrive(job));
    RunSnoc(s, [] + [Arrive(job)], Go(|s.jobs|));
    schedule := [] + [Arrive(job)] + [Go(|s.jobs|)];
  }

  lemma Examines(s: System, i: nat, c: Correction)
    requires i < |s.jobs| && s.jobs[i] == Correcting(c, Examine) && Correctable(s.db, c)
    ensures Step(s, Go(i))
         == Become(s, i, Correcting(c, Linking(Rewritten(EffectiveEvents(s.db, c.shift), c.startedAt, c.endedAt))))
  {
  }

  lemma Looks(s: System, i: nat, shift: nat)
    requires i < |s.jobs| && s.jobs[i] == Approving(shift, Look) && IsClosed(s.db, shift)
    requires Calculation(EffectiveEvents(s.db, shift), NO_TERMS).blockers == []
    ensures var rows := s.db.corrections; var read := CurrentCorrection(rows, shift);
      Step(s, Go(i)) == Become(s, i, Approving(shift, Pin(read, EffectiveEvents(s.db, shift), |rows|)))
  {
  }

  /** A save that arrives passes its guard whenever the correction is acceptable. */
  lemma SaveReachesLinking(s: System, c: Correction) returns (schedule: seq<Choice>)
    requires Correctable(s.db, c)
    ensures Run(s, schedule) == s.(jobs := s.jobs
      + [Correcting(c, Linking(Rewritten(EffectiveEvents(s.db, c.shift), c.startedAt, c.endedAt)))])
  {
    Examines(s.(jobs := s.jobs + [Correcting(c, Examine)]), |s.jobs|, c);
    schedule := ArrivesAndGoes(s, Correcting(c, Examine),
      Correcting(c, Linking(Rewritten(EffectiveEvents(s.db, c.shift), c.startedAt, c.endedAt))));
  }

  /** And an approval that arrives for a closed, accepted shift passes its own. */
  lemma ApprovalReachesPin(s: System, shift: nat) returns (schedule: seq<Choice>)
    requires IsClosed(s.db, shift) && Calculation(EffectiveEvents(s.db, shift), NO_TERMS).blockers == []
    ensures var rows := s.db.corrections;
      Run(s, schedule) == s.(jobs := s.jobs
        + [Approving(shift, Pin(CurrentCorrection(rows, shift), EffectiveEvents(s.db, shift), |rows|))])
  {
    var rows := s.db.corrections;
    Looks(s.(jobs := s.jobs + [Approving(shift, Look)]), |s.jobs|, shift);
    schedule := ArrivesAndGoes(s, Approving(shift, Look),
      Approving(shift, Pin(CurrentCorrection(rows, shift), EffectiveEvents(s.db, shift), |rows|)));
  }
}
