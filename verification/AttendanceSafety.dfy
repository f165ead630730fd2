/** What every step of every schedule keeps. */
module AttendanceSafety {
  import opened TimeCalculation
  import opened Attribution
  import opened AttendanceDb
  import opened AttendanceRun

  // ---- History only grows ----

  /** From `a` to `b` rows were only added: events and corrections are a prefix, a shift keeps its employee
      and opening, and a closed shift is frozen with all its punches. */
  ghost predicate Grows(a: Db, b: Db) {
    && |a.shifts| <= |b.shifts| && a.events <= b.events && a.corrections <= b.corrections && a.sequence <= b.sequence
    && (forall sh :: 0 <= sh < |a.shifts| ==>
         && b.shifts[sh].employee == a.shifts[sh].employee && b.shifts[sh].openedAt == a.shifts[sh].openedAt)
    && (forall sh :: 0 <= sh < |a.shifts| && a.shifts[sh].closedAt.Some? ==>
         b.shifts[sh] == a.shifts[sh] && RawEvents(b, sh) == RawEvents(a, sh))
  }

  lemma GrowsTransitive(a: Db, b: Db, c: Db)
    requires Grows(a, b) && Grows(b, c)
    ensures Grows(a, c)
  {
  }

  // ---- The invariant ----

  ghost predicate HeldOpen(db: Db, p: Punch, shift: nat) {
    && p.kind != ClockIn && shift < |db.shifts|
    && db.shifts[shift].employee == p.employee && db.shifts[shift].closedAt.None?
  }

  ghost predicate PunchOk(db: Db, p: Punch, pc: PunchPc) {
    && p.key.KioskKey?
    && match pc
       case Arrived | Refused(_) => true
       case ClockingIn => p.kind == ClockIn
       case Selecting => p.kind != ClockIn
       case Waiting(candidate) => p.kind != ClockIn &&
         (candidate.Some? ==> candidate.value < |db.shifts| && db.shifts[candidate.value].employee == p.employee)
       case Holding(shift) => HeldOpen(db, p, shift)
       case Checked(shift) => HeldOpen(db, p, shift) && p.kind in Allowed(StateOf(db, shift))
       case Written(shift) =>
         HeldOpen(db, p, shift) && p.kind in Allowed(StateOf(db, shift)) && FreshKey(db.events, p.key)
  }

  predicate EntriesApart(a: Entry, b: Entry) { a.end <= b.start || b.end <= a.start }

  ghost predicate ApartFromFirst(rows: seq<ShiftRow>, employee: nat, n: nat, e: Entry)
    requires n <= |rows|
  {
    forall k :: 0 <= k < n && rows[k].employee == employee ==> !OverlapsRow(rows[k], e)
  }

  ghost predicate DraftOk(db: Db, employee: nat, d: Draft) {
    && d.entry.start < d.entry.end
    && FreshKey(db.events, ManualIn(d.entry.id)) && FreshKey(db.events, ManualOut(d.entry.id))
    && d.seen <= |db.shifts| && ApartFromFirst(db.shifts, employee, d.seen, d.entry)
  }

  ghost predicate DraftsApart(drafts: seq<Draft>) {
    forall k, l :: 0 <= k < l < |drafts| ==>
      EntriesApart(drafts[k].entry, drafts[l].entry) && drafts[k].entry.id != drafts[l].entry.id
  }

  /** A batch's approval points to what was current when `at` corrections had been committed. */
  ghost predicate MarkOk(db: Db, m: Mark) {
    && IsClosed(db, m.shift) && m.at <= |db.corrections|
    && m.pinned == CurrentCorrection(db.corrections[..m.at], m.shift)
  }

  ghost predicate StageOk(db: Db, job: Job)
    requires job.Manual?
  {
    && (job.stage != KeyCheck ==> job.next < |job.b.entries|)
    && (job.stage.Locking? || job.stage.OverlapCheck? || job.stage.Inserting? ==>
         job.next < |job.b.entries| && !HasId(job.drafts, job.b.entries[job.next].id))
    && (job.stage.OverlapCheck? || job.stage.Inserting? ==> job.locked)
    && (job.stage.Inserting? ==>
         && !OverlapsDraft(job.drafts, job.b.entries[job.next]) && job.stage.seen <= |db.shifts|
         && ApartFromFirst(db.shifts, job.b.employee, job.stage.seen, job.b.entries[job.next]))
    && (job.stage.Pinning? ==> IsClosed(db, job.stage.shift))
    && (job.stage.Marking? ==> MarkOk(db, job.stage.mark))
  }

  ghost predicate ManualOk(db: Db, job: Job)
    requires job.Manual?
  {
    && (forall k :: 0 <= k < |job.b.entries| ==> job.b.entries[k].start < job.b.entries[k].end)
    && job.next <= |job.b.entries| && (job.drafts != [] ==> job.locked)
    && (forall k :: 0 <= k < |job.drafts| ==> DraftOk(db, job.b.employee, job.drafts[k]))
    && DraftsApart(job.drafts)
    && (forall k :: 0 <= k < |job.marks| ==> MarkOk(db, job.marks[k]))
    && StageOk(db, job)
  }

  /** What an approval was given for: its guard's events belong to the correction it read, and that is the one pinned
      exactly when no correction that comes before it was committed in between. */
  ghost predicate PinOk(db: Db, shift: nat, pinned: Option<CorrectionRow>, seen: Seen) {
    && IsClosed(db, shift) && seen.upto <= |db.corrections| && seen.events == EventsAt(db, shift, seen.read)
    && (pinned == seen.read <==> NoneBeats(db.corrections, shift, seen.read, seen.from, seen.upto))
  }

  /** What the view read is what was current when `at` corrections had been committed. */
  ghost predicate LookOk(db: Db, shift: nat, read: Option<CorrectionRow>, events: seq<Event>, at: nat) {
    && IsClosed(db, shift) && at <= |db.corrections| && Accepted(events)
    && read == CurrentCorrection(db.corrections[..at], shift) && events == EventsAt(db, shift, read)
  }

  ghost predicate ApproveOk(db: Db, shift: nat, pc: ApprovePc) {
    && (pc.Pin? ==> LookOk(db, shift, pc.read, pc.events, pc.at))
    && (pc.Store? ==> PinOk(db, shift, pc.pinned, pc.seen) && Accepted(pc.seen.events))
  }

  /** The predecessor that a correction links to was current when `linkedAt` corrections had been committed. */
  ghost predicate LinkOk(db: Db, shift: nat, previous: Option<nat>, linkedAt: nat) {
    && linkedAt <= |db.corrections|
    && previous == IdOf(CurrentCorrection(db.corrections[..linkedAt], shift))
  }

  ghost predicate RowOk(db: Db, c: Correction, row: CorrectionRow, linkedAt: nat) {
    && IsClosed(db, c.shift) && row.shift == c.shift && row.createdAt == c.createdAt && Accepted(row.events)
    && row.id < db.sequence && NewId(db.corrections, row.id) && LinkOk(db, c.shift, row.supersedes, linkedAt)
  }

  /** The pin was current, in the job's own view, when `pinnedAt` corrections had been committed. */
  ghost predicate OwnPinOk(db: Db, row: CorrectionRow, pinned: Option<CorrectionRow>, pinnedAt: nat) {
    && pinnedAt <= |db.corrections|
    && pinned == CurrentCorrection(db.corrections[..pinnedAt] + [row], row.shift)
  }

  ghost predicate CorrectOk(db: Db, c: Correction, pc: CorrectPc) {
    match pc
    case Examine => true
    case Linking(corrected) => IsClosed(db, c.shift) && Accepted(corrected)
    case Adding(corrected, previous, linkedAt) =>
      IsClosed(db, c.shift) && Accepted(corrected) && LinkOk(db, c.shift, previous, linkedAt)
    case Reading(row, linkedAt) => RowOk(db, c, row, linkedAt)
    case Storing(row, linkedAt, pinned, pinnedAt) => RowOk(db, c, row, linkedAt) && OwnPinOk(db, row, pinned, pinnedAt)
    case Stored(row, linkedAt, pinned, pinnedAt) => RowOk(db, c, row, linkedAt) && OwnPinOk(db, row, pinned, pinnedAt)
  }

  ghost predicate JobOk(db: Db, job: Job) {
    match job
    case Punching(p, pc) => PunchOk(db, p, pc)
    case Manual(_, _, _, _, _, _) => ManualOk(db, job)
    case Approving(shift, pc) => ApproveOk(db, shift, pc)
    case Correcting(c, pc) => CorrectOk(db, c, pc)
    case Done(outcome) =>
      outcome.Recorded? ==> outcome.event < |db.events| && db.events[outcome.event].key == outcome.key
  }

  /** No two jobs hold the same lock or have the same key in flight. */
  ghost predicate Compatible(a: Job, b: Job) {
    && (forall sh :: HoldsShift(a, sh) ==> !HoldsShift(b, sh))
    && (forall e :: HoldsEmployee(a, e) ==> !HoldsEmployee(b, e))
    && (forall key :: PendingKey(a, key) ==> !PendingKey(b, key))
    && (forall id :: OwnsId(a, id) ==> !OwnsId(b, id))
  }

  ghost predicate ManualRowsClosed(db: Db) {
    forall k :: 0 <= k < |db.events| && !db.events[k].key.KioskKey? ==> IsClosed(db, db.events[k].shift)
  }

  ghost predicate Pins(s: System) {
    forall sh :: sh in s.db.approvals ==> sh in s.seen && PinOk(s.db, sh, s.db.approvals[sh], s.seen[sh])
  }

  ghost predicate JobsOk(s: System) { forall i :: 0 <= i < |s.jobs| ==> JobOk(s.db, s.jobs[i]) }

  ghost predicate JobsCompatible(s: System) {
    forall i, j :: 0 <= i < |s.jobs| && 0 <= j < |s.jobs| && i != j ==> Compatible(s.jobs[i], s.jobs[j])
  }

  ghost predicate Inv(s: System) {
    Consistent(s.db) && ManualRowsClosed(s.db) && Pins(s) && JobsOk(s) && JobsCompatible(s)
  }

  // ---- A job is not disturbed by rows that others add ----

  ghost predicate Undisturbed(a: Db, b: Db, job: Job) {
    && (forall sh: nat :: HoldsShift(job, sh) && sh < |a.shifts| ==>
         sh < |b.shifts| && b.shifts[sh] == a.shifts[sh] && RawEvents(b, sh) == RawEvents(a, sh))
    && (forall key :: PendingKey(job, key) && FreshKey(a.events, key) ==> FreshKey(b.events, key))
    && (forall id :: OwnsId(job, id) && NewId(a.corrections, id) ==> NewId(b.corrections, id))
  }

  lemma BystanderStaysOk(a: Db, b: Db, job: Job)
    requires Grows(a, b) && Undisturbed(a, b, job) && JobOk(a, job)
    ensures JobOk(b, job)
  {
    match job
    case Punching(p, pc) =>
      if pc.Holding? || pc.Checked? || pc.Written? { assert HoldsShift(job, pc.shift); }
      if pc.Written? { assert PendingKey(job, p.key); }
    case Manual(_, _, _, _, _, _) => ManualStaysOk(a, b, job);
    case Approving(shift, pc) => ApproveStaysOk(a, b, shift, pc);
    case Correcting(c, pc) => CorrectStaysOk(a, b, c, pc);
    case Done(_) =>
  }

  lemma SamePrefix(a: Db, b: Db, at: nat)
    requires Grows(a, b) && at <= |a.corrections|
    ensures at <= |b.corrections| && b.corrections[..at] == a.corrections[..at]
  {
  }

  lemma MarkStaysOk(a: Db, b: Db, m: Mark)
    requires Grows(a, b) && MarkOk(a, m)
    ensures MarkOk(b, m)
  {
    SamePrefix(a, b, m.at);
  }

  lemma ManualStaysOk(a: Db, b: Db, job: Job)
    requires Grows(a, b) && job.Manual? && Undisturbed(a, b, job) && ManualOk(a, job)
    ensures ManualOk(b, job)
  {
    forall k | 0 <= k < |job.drafts| ensures DraftOk(b, job.b.employee, job.drafts[k]) {
      assert DraftOk(a, job.b.employee, job.drafts[k]);
      var id := job.drafts[k].entry.id;
      assert PendingKey(job, ManualIn(id)) && PendingKey(job, ManualOut(id));
    }
    forall k | 0 <= k < |job.marks| ensures MarkOk(b, job.marks[k]) { MarkStaysOk(a, b, job.marks[k]); }
    if job.stage.Marking? { MarkStaysOk(a, b, job.stage.mark); }
  }

  lemma PinStaysOk(a: Db, b: Db, shift: nat, pinned: Option<CorrectionRow>, seen: Seen)
    requires Grows(a, b) && PinOk(a, shift, pinned, seen)
    ensures PinOk(b, shift, pinned, seen)
  {
    assert forall k :: 0 <= k < |a.corrections| ==> b.corrections[k] == a.corrections[k];
  }

  lemma ApproveStaysOk(a: Db, b: Db, shift: nat, pc: ApprovePc)
    requires Grows(a, b) && ApproveOk(a, shift, pc)
    ensures ApproveOk(b, shift, pc)
  {
    if pc.Pin? { SamePrefix(a, b, pc.at); }
    if pc.Store? { PinStaysOk(a, b, shift, pc.pinned, pc.seen); }
  }

  lemma RowStaysOk(a: Db, b: Db, c: Correction, row: CorrectionRow, linkedAt: nat)
    requires Grows(a, b) && RowOk(a, c, row, linkedAt) && NewId(b.corrections, row.id)
    ensures RowOk(b, c, row, linkedAt)
  {
    SamePrefix(a, b, linkedAt);
  }

  lemma CorrectStaysOk(a: Db, b: Db, c: Correction, pc: CorrectPc)
    requires Grows(a, b) && Undisturbed(a, b, Correcting(c, pc)) && CorrectOk(a, c, pc)
    ensures CorrectOk(b, c, pc)
  {
    match pc
    case Examine =>
    case Linking(_) =>
    case Adding(_, _, linkedAt) => SamePrefix(a, b, linkedAt);
    case Reading(row, linkedAt) =>
      assert OwnsId(Correcting(c, pc), row.id);
      RowStaysOk(a, b, c, row, linkedAt);
    case Storing(row, linkedAt, _, pinnedAt) =>
      assert OwnsId(Correcting(c, pc), row.id);
      RowStaysOk(a, b, c, row, linkedAt);
      SamePrefix(a, b, pinnedAt);
    case Stored(row, linkedAt, _, pinnedAt) =>
      assert OwnsId(Correcting(c, pc), row.id);
      RowStaysOk(a, b, c, row, linkedAt);
      SamePrefix(a, b, pinnedAt);
  }

  // ---- Each write grows the database and keeps it consistent ----

  lemma OpenNewShiftGrows(db: Db, employee: nat, openedAt: int, at: int, key: Key)
    requires Consistent(db) && FreshKey(db.events, key) && OpenShiftOf(db.shifts, employee).None?
    ensures Consistent(OpenNewShift(db, employee, openedAt, at, key))
    ensures Grows(db, OpenNewShift(db, employee, openedAt, at, key))
  {
    forall sh | 0 <= sh < |db.shifts|
      ensures RawEvents(OpenNewShift(db, employee, openedAt, at, key), sh) == RawEvents(db, sh) {
      OpenNewShiftRaw(db, employee, openedAt, at, key, sh);
    }
  }

  lemma AddPunchConsistent(db: Db, shift: nat, kind: Kind, at: int, key: Key)
    requires Consistent(db) && FreshKey(db.events, key) && shift < |db.shifts|
    ensures Consistent(AddPunch(db, shift, kind, at, key))
  {
  }

  lemma AddPunchGrows(db: Db, shift: nat, kind: Kind, at: int, key: Key)
    requires shift < |db.shifts| && db.shifts[shift].closedAt.None?
    ensures Grows(db, AddPunch(db, shift, kind, at, key))
  {
    forall sh | 0 <= sh < |db.shifts| && sh != shift
      ensures RawEvents(AddPunch(db, shift, kind, at, key), sh) == RawEvents(db, sh) {
      AddPunchRaw(db, shift, kind, at, key, sh);
    }
  }

  lemma AddManualGrows(db: Db, employee: nat, start: int, end: int, id: nat)
    requires Consistent(db) && start < end
    requires FreshKey(db.events, ManualIn(id)) && FreshKey(db.events, ManualOut(id))
    ensures Consistent(AddManualShift(db, employee, start, end, id))
    ensures Grows(db, AddManualShift(db, employee, start, end, id))
  {
    forall sh | 0 <= sh < |db.shifts|
      ensures RawEvents(AddManualShift(db, employee, start, end, id), sh) == RawEvents(db, sh) {
      AddManualRaw(db, employee, start, end, id, sh);
    }
  }

  // ---- Replacing one job ----

  ghost predicate NoNewClaims(job: Job, before: Job) {
    && (forall sh :: HoldsShift(job, sh) ==> HoldsShift(before, sh))
    && (forall e :: HoldsEmployee(job, e) ==> HoldsEmployee(before, e))
    && (forall key :: PendingKey(job, key) ==> PendingKey(before, key))
    && (forall id :: OwnsId(job, id) ==> OwnsId(before, id))
  }

  lemma Replaced(s: System, i: nat, job: Job)
    requires i < |s.jobs| && Inv(s) && JobOk(s.db, job)
    requires forall j :: 0 <= j < |s.jobs| && j != i ==> Compatible(job, s.jobs[j])
    ensures Inv(Become(s, i, job)) && Grows(s.db, Become(s, i, job).db)
  {
    var t := Become(s, i, job);
    forall j, k | 0 <= j < |t.jobs| && 0 <= k < |t.jobs| && j != k ensures Compatible(t.jobs[j], t.jobs[k]) {
      assert j != i && k != i ==> Compatible(s.jobs[j], s.jobs[k]);
    }
  }

  lemma ReplacedQuietly(s: System, i: nat, job: Job)
    requires i < |s.jobs| && Inv(s) && JobOk(s.db, job) && NoNewClaims(job, s.jobs[i])
    ensures Inv(Become(s, i, job)) && Grows(s.db, Become(s, i, job).db)
  {
    forall j | 0 <= j < |s.jobs| && j != i ensures Compatible(job, s.jobs[j]) {
      assert Compatible(s.jobs[i], s.jobs[j]);
    }
    Replaced(s, i, job);
  }

  /** A job ends by committing: the others are undisturbed bystanders. */
  lemma CommittedKeeps(s: System, i: nat, outcome: Outcome, t: System)
    requires i < |s.jobs| && Inv(s) && t.jobs == s.jobs[i := Done(outcome)]
    requires Grows(s.db, t.db) && Consistent(t.db) && ManualRowsClosed(t.db) && Pins(t) && JobOk(t.db, Done(outcome))
    requires forall j :: 0 <= j < |s.jobs| && j != i ==> Undisturbed(s.db, t.db, s.jobs[j])
    ensures Inv(t)
  {
    forall j | 0 <= j < |t.jobs| ensures JobOk(t.db, t.jobs[j]) {
      if j != i {
        assert JobOk(s.db, s.jobs[j]);
        BystanderStaysOk(s.db, t.db, s.jobs[j]);
      }
    }
    forall j, k | 0 <= j < |t.jobs| && 0 <= k < |t.jobs| && j != k ensures Compatible(t.jobs[j], t.jobs[k]) {
      assert j != i && k != i ==> Compatible(s.jobs[j], s.jobs[k]);
    }
  }

  lemma PinsStay(s: System, t: System)
    requires Pins(s) && Grows(s.db, t.db) && t.db.approvals == s.db.approvals && t.seen == s.seen
    ensures Pins(t)
  {
    forall sh | sh in t.db.approvals ensures sh in t.seen && PinOk(t.db, sh, t.db.approvals[sh], t.seen[sh]) {
      PinStaysOk(s.db, t.db, sh, s.db.approvals[sh], s.seen[sh]);
    }
  }

  // ---- Kiosk punches ----

  lemma ClockInCommits(s: System, i: nat, p: Punch)
    requires i < |s.jobs| && Inv(s) && s.jobs[i] == Punching(p, ClockingIn)
    ensures var t := Advance(s, i); Inv(t) && Grows(s.db, t.db)
  {
    var t := Advance(s, i);
    assert JobOk(s.db, s.jobs[i]);
    if t.db == s.db {
      if t != s { ReplacedQuietly(s, i, Punching(p, Refused(ShiftAlreadyOpen))); }
    } else {
      OpenNewShiftGrows(s.db, p.employee, p.insertedAt, p.now, p.key);
      PinsStay(s, t);
      forall j | 0 <= j < |s.jobs| && j != i ensures Undisturbed(s.db, t.db, s.jobs[j]) {
        forall sh: nat | sh < |s.db.shifts| ensures RawEvents(t.db, sh) == RawEvents(s.db, sh) {
          OpenNewShiftRaw(s.db, p.employee, p.insertedAt, p.now, p.key, sh);
        }
        assert !PendingKey(s.jobs[j], p.key);
        FreshSnoc(s.db.events, t.db.events[|s.db.events|]);
      }
      CommittedKeeps(s, i, Recorded(p.key, |s.db.events|), t);
    }
  }

  lemma FreshSnoc(rows: seq<EventRow>, e: EventRow)
    ensures forall key :: key != e.key && FreshKey(rows, key) ==> FreshKey(rows + [e], key)
  {
    forall key | key != e.key && FreshKey(rows, key) ensures FreshKey(rows + [e], key) {
      FindKeySnoc(rows, e, key);
    }
  }

  lemma PunchCommits(s: System, i: nat, p: Punch, shift: nat)
    requires i < |s.jobs| && Inv(s) && s.jobs[i] == Punching(p, Written(shift))
    ensures var t := Advance(s, i); Inv(t) && Grows(s.db, t.db)
  {
    var t := Advance(s, i);
    assert JobOk(s.db, s.jobs[i]) && HoldsShift(s.jobs[i], shift) && PendingKey(s.jobs[i], p.key);
    AddPunchConsistent(s.db, shift, p.kind, p.now, p.key);
    AddPunchGrows(s.db, shift, p.kind, p.now, p.key);
    PinsStay(s, t);
    forall j | 0 <= j < |s.jobs| && j != i ensures Undisturbed(s.db, t.db, s.jobs[j]) {
      assert Compatible(s.jobs[i], s.jobs[j]);
      forall sh: nat | sh < |s.db.shifts| && sh != shift ensures RawEvents(t.db, sh) == RawEvents(s.db, sh) {
        AddPunchRaw(s.db, shift, p.kind, p.now, p.key, sh);
      }
      FreshSnoc(s.db.events, t.db.events[|s.db.events|]);
    }
    CommittedKeeps(s, i, Recorded(p.key, |s.db.events|), t);
  }

  lemma PunchLocks(s: System, i: nat, p: Punch, candidate: Option<nat>)
    requires i < |s.jobs| && Inv(s) && s.jobs[i] == Punching(p, Waiting(candidate))
    ensures var t := Advance(s, i); Inv(t) && Grows(s.db, t.db)
  {
    assert JobOk(s.db, s.jobs[i]);
    var job := Advance(s, i).jobs[i];
    assert Advance(s, i) == Become(s, i, job);
    if job.pc.Holding? {
      forall j | 0 <= j < |s.jobs| && j != i ensures Compatible(job, s.jobs[j]) {
        assert !HoldsShift(s.jobs[j], job.pc.shift);
      }
      Replaced(s, i, job);
    } else {
      ReplacedQuietly(s, i, job);
    }
  }

  lemma PunchInserts(s: System, i: nat, p: Punch, shift: nat)
    requires i < |s.jobs| && Inv(s) && s.jobs[i] == Punching(p, Checked(shift))
    ensures var t := Advance(s, i); Inv(t) && Grows(s.db, t.db)
  {
    assert JobOk(s.db, s.jobs[i]);
    var job := Advance(s, i).jobs[i];
    assert Advance(s, i) == Become(s, i, job);
    if job.Punching? && job.pc.Written? {
      forall j | 0 <= j < |s.jobs| && j != i ensures Compatible(job, s.jobs[j]) {
        assert Compatible(s.jobs[i], s.jobs[j]);
        assert !PendingKey(s.jobs[j], p.key);
      }
      Replaced(s, i, job);
    } else {
      ReplacedQuietly(s, i, job);
    }
  }

  /** Steps that claim nothing new. */
  lemma PunchReads(s: System, i: nat, p: Punch, pc: PunchPc)
    requires i < |s.jobs| && Inv(s) && s.jobs[i] == Punching(p, pc)
    requires pc.Arrived? || pc.Selecting? || pc.Holding? || pc.Refused?
    ensures var t := Advance(s, i); Inv(t) && Grows(s.db, t.db)
  {
    assert JobOk(s.db, s.jobs[i]);
    ReplacedQuietly(s, i, Advance(s, i).jobs[i]);
  }

  lemma PunchStep(s: System, i: nat, p: Punch, pc: PunchPc)
    requires i < |s.jobs| && Inv(s) && s.jobs[i] == Punching(p, pc)
    ensures var t := Advance(s, i); Inv(t) && Grows(s.db, t.db)
  {
    match pc
    case ClockingIn => ClockInCommits(s, i, p);
    case Waiting(candidate) => PunchLocks(s, i, p, candidate);
    case Checked(shift) => PunchInserts(s, i, p, shift);
    case Written(shift) => PunchCommits(s, i, p, shift);
    case _ => PunchReads(s, i, p, pc);
  }

  // ---- Approvals ----

  /** Only approvals (and their history) differ. */
  ghost predicate OnlyApprovals(s: System, t: System) {
    && t.db.shifts == s.db.shifts && t.db.events == s.db.events && t.db.corrections == s.db.corrections
    && t.db.sequence == s.db.sequence && t.jobs == s.jobs && t.manual == s.manual
  }

  lemma {:induction false} ApprovalsKeepRows(s: System, marks: seq<Mark>)
    ensures OnlyApprovals(s, ApproveMarks(s, marks))
  {
    if marks != [] { ApprovalsKeepRows(s, marks[..|marks| - 1]); }
  }

  lemma ApprovedKeeps(s: System, shift: nat, pinned: Option<CorrectionRow>, seen: Seen)
    requires Consistent(s.db) && ManualRowsClosed(s.db) && Pins(s) && PinOk(s.db, shift, pinned, seen)
    ensures var t := s.(db := SetApproval(s.db, shift, pinned), seen := s.seen[shift := seen]);
      Consistent(t.db) && ManualRowsClosed(t.db) && Pins(t) && Grows(s.db, t.db)
  {
    var t := s.(db := SetApproval(s.db, shift, pinned), seen := s.seen[shift := seen]);
    forall sh | sh in t.db.approvals ensures sh in t.seen && PinOk(t.db, sh, t.db.approvals[sh], t.seen[sh]) {
      if sh != shift { assert PinOk(s.db, sh, s.db.approvals[sh], s.seen[sh]); }
    }
  }

  lemma ApproveMarkKeeps(s: System, m: Mark)
    requires Consistent(s.db) && ManualRowsClosed(s.db) && Pins(s)
    requires IsClosed(s.db, m.shift) && m.at <= |s.db.corrections|
    ensures var t := ApproveMark(s, m);
      Consistent(t.db) && ManualRowsClosed(t.db) && Pins(t) && Grows(s.db, t.db) && OnlyApprovals(s, t)
  {
    ApprovedKeeps(s, m.shift, m.pinned, Seen(m.pinned, EventsAt(s.db, m.shift, m.pinned), m.at, m.at));
  }

  lemma {:induction false} ApproveMarksKeeps(s: System, marks: seq<Mark>)
    requires Consistent(s.db) && ManualRowsClosed(s.db) && Pins(s)
    requires forall k :: 0 <= k < |marks| ==> IsClosed(s.db, marks[k].shift) && marks[k].at <= |s.db.corrections|
    ensures var t := ApproveMarks(s, marks);
      Consistent(t.db) && ManualRowsClosed(t.db) && Pins(t) && Grows(s.db, t.db) && OnlyApprovals(s, t)
  {
    if marks != [] {
      var front, m := marks[..|marks| - 1], marks[|marks| - 1];
      ApproveMarksKeeps(s, front);
      var u := ApproveMarks(s, front);
      ApproveMarkKeeps(u, m);
      GrowsTransitive(s.db, u.db, ApproveMark(u, m).db);
    }
  }

  lemma LookAccepted(db: Db, shift: nat)
    requires IsClosed(db, shift) && Calculation(EffectiveEvents(db, shift), NO_TERMS).blockers == []
    ensures LookOk(db, shift, CurrentCorrection(db.corrections, shift), EffectiveEvents(db, shift), |db.corrections|)
  {
    AcceptedIffLegal(EffectiveEvents(db, shift), NO_TERMS);
    assert db.corrections[..|db.corrections|] == db.corrections;
  }

  lemma PinnedOk(db: Db, shift: nat, read: Option<CorrectionRow>, events: seq<Event>, at: nat)
    requires LookOk(db, shift, read, events, at)
    ensures PinOk(db, shift, CurrentCorrection(db.corrections, shift), Seen(read, events, at, |db.corrections|))
  {
    StillCurrentIff(db.corrections, shift, at);
  }

  lemma ApproveStep(s: System, i: nat, shift: nat, pc: ApprovePc)
    requires i < |s.jobs| && Inv(s) && s.jobs[i] == Approving(shift, pc)
    ensures var t := Advance(s, i); Inv(t) && Grows(s.db, t.db)
  {
    assert JobOk(s.db, s.jobs[i]);
    var t := Advance(s, i);
    match pc
    case Look =>
      if t.jobs[i].Approving? { LookAccepted(s.db, shift); }
      ReplacedQuietly(s, i, t.jobs[i]);
    case Pin(read, events, at) =>
      PinnedOk(s.db, shift, read, events, at);
      ReplacedQuietly(s, i, t.jobs[i]);
    case Store(pinned, seen) => ApproveStores(s, i, shift, pinned, seen);
  }

  lemma ApproveStores(s: System, i: nat, shift: nat, pinned: Option<CorrectionRow>, seen: Seen)
    requires i < |s.jobs| && Inv(s) && s.jobs[i] == Approving(shift, Store(pinned, seen))
    ensures var t := Advance(s, i); Inv(t) && Grows(s.db, t.db)
  {
    assert JobOk(s.db, s.jobs[i]);
    var t := Advance(s, i);
    if t != s {
      ApprovedKeeps(s, shift, pinned, seen);
      CommittedKeeps(s, i, Committed, t);
    }
  }

  // ---- Corrections ----

  lemma CorrectionGrows(db: Db, row: CorrectionRow)
    requires Consistent(db) && row.shift < |db.shifts| && row.id < db.sequence && NewId(db.corrections, row.id)
    ensures Consistent(AddCorrection(db, row)) && Grows(db, AddCorrection(db, row))
  {
  }

  /** A correction's approval: its guard evaluated the corrected events themselves. */
  lemma OwnPinIsSeen(db: Db, row: CorrectionRow, pinned: Option<CorrectionRow>, pinnedAt: nat)
    requires NewId(db.corrections, row.id) && OwnPinOk(db, row, pinned, pinnedAt) && IsClosed(db, row.shift)
    ensures PinOk(AddCorrection(db, row), row.shift, pinned, Seen(Some(row), row.events, 0, pinnedAt))
  {
    var rows, after := db.corrections, AddCorrection(db, row).corrections;
    NewRowIsCurrentIff(rows[..pinnedAt], row);
    assert forall k :: 0 <= k < pinnedAt ==> after[k] == rows[..pinnedAt][k];
  }

  lemma CorrectCommits(s: System, i: nat, c: Correction, row: CorrectionRow, linkedAt: nat,
                       pinned: Option<CorrectionRow>, pinnedAt: nat)
    requires i < |s.jobs| && Inv(s) && s.jobs[i] == Correcting(c, Stored(row, linkedAt, pinned, pinnedAt))
    ensures var t := Advance(s, i); Inv(t) && Grows(s.db, t.db)
  {
    assert JobOk(s.db, s.jobs[i]) && OwnsId(s.jobs[i], row.id);
    var t := Advance(s, i);
    CorrectionGrows(s.db, row);
    var u := s.(db := AddCorrection(s.db, row));
    PinsStay(s, u);
    OwnPinIsSeen(s.db, row, pinned, pinnedAt);
    ApprovedKeeps(u, c.shift, pinned, Seen(Some(row), row.events, 0, pinnedAt));
    GrowsTransitive(s.db, u.db, t.db);
    forall j | 0 <= j < |s.jobs| && j != i ensures Undisturbed(s.db, t.db, s.jobs[j]) {
      assert Compatible(s.jobs[i], s.jobs[j]);
      CorrectionUndisturbing(s.db, row, pinned, s.jobs[j]);
    }
    CommittedKeeps(s, i, Committed, t);
  }

  lemma CorrectionUndisturbing(db: Db, row: CorrectionRow, pinned: Option<CorrectionRow>, job: Job)
    requires !OwnsId(job, row.id)
    ensures Undisturbed(db, SetApproval(AddCorrection(db, row), row.shift, pinned), job)
  {
  }

  /** The id comes from the sequence at once; other jobs see nothing of the row. */
  lemma CorrectAdds(s: System, i: nat, c: Correction, corrected: seq<Event>, previous: Option<nat>, linkedAt: nat)
    requires i < |s.jobs| && Inv(s) && s.jobs[i] == Correcting(c, Adding(corrected, previous, linkedAt))
    ensures var t := Advance(s, i); Inv(t) && Grows(s.db, t.db)
  {
    assert JobOk(s.db, s.jobs[i]);
    var t := Advance(s, i);
    var u := s.(db := t.db);
    SequenceMoves(s, u);
    forall j | 0 <= j < |s.jobs| && j != i ensures Compatible(t.jobs[i], u.jobs[j]) {
      assert Compatible(s.jobs[i], s.jobs[j]) && JobOk(s.db, s.jobs[j]);
    }
    Replaced(u, i, t.jobs[i]);
  }

  lemma SequenceMoves(s: System, u: System)
    requires Inv(s) && u == s.(db := s.db.(sequence := s.db.sequence + 1))
    ensures Inv(u) && Grows(s.db, u.db)
  {
    PinsStay(s, u);
    forall j | 0 <= j < |u.jobs| ensures JobOk(u.db, u.jobs[j]) {
      assert JobOk(s.db, s.jobs[j]);
      BystanderStaysOk(s.db, u.db, s.jobs[j]);
    }
  }

  lemma CorrectReads(s: System, i: nat, c: Correction, pc: CorrectPc)
    requires i < |s.jobs| && Inv(s) && s.jobs[i] == Correcting(c, pc) && !pc.Examine? && !pc.Adding? && !pc.Stored?
    ensures var t := Advance(s, i); Inv(t) && Grows(s.db, t.db)
  {
    assert JobOk(s.db, s.jobs[i]);
    var rows := s.db.corrections;
    assert rows[..|rows|] == rows;
    ReplacedQuietly(s, i, Advance(s, i).jobs[i]);
  }

  lemma CorrectExamines(s: System, i: nat, c: Correction)
    requires i < |s.jobs| && Inv(s) && s.jobs[i] == Correcting(c, Examine)
    ensures var t := Advance(s, i); Inv(t) && Grows(s.db, t.db)
  {
    if Correctable(s.db, c) {
      AcceptedIffLegal(Rewritten(EffectiveEvents(s.db, c.shift), c.startedAt, c.endedAt), NO_TERMS);
    }
    ReplacedQuietly(s, i, Advance(s, i).jobs[i]);
  }

  lemma CorrectStep(s: System, i: nat, c: Correction, pc: CorrectPc)
    requires i < |s.jobs| && Inv(s) && s.jobs[i] == Correcting(c, pc)
    ensures var t := Advance(s, i); Inv(t) && Grows(s.db, t.db)
  {
    match pc
    case Adding(corrected, previous, linkedAt) => CorrectAdds(s, i, c, corrected, previous, linkedAt);
    case Stored(row, linkedAt, pinned, pinnedAt) => CorrectCommits(s, i, c, row, linkedAt, pinned, pinnedAt);
    case Examine => CorrectExamines(s, i, c);
    case _ => CorrectReads(s, i, c, pc);
  }

  // ---- Manual entries ----

  /** Rows were appended after the existing ones, whose punches are untouched. */
  ghost predicate Appended(a: Db, b: Db) {
    a.shifts <= b.shifts && forall sh :: 0 <= sh < |a.shifts| ==> RawEvents(b, sh) == RawEvents(a, sh)
  }

  lemma {:induction false} DraftsFresh(s: System, employee: nat, drafts: seq<Draft>, key: Key)
    requires FreshKey(s.db.events, key) && (key.KioskKey? || !HasId(drafts, key.id))
    ensures FreshKey(CommitDrafts(s, employee, drafts).db.events, key)
  {
    if drafts != [] {
      var front, d := drafts[..|drafts| - 1], drafts[|drafts| - 1];
      if !key.KioskKey? { HasIdSnoc(front, d, key.id); }
      DraftsFresh(s, employee, front, key);
      var u := CommitDrafts(s, employee, front);
      DraftFresh(u, employee, d, key);
    }
  }

  lemma DraftFresh(s: System, employee: nat, d: Draft, key: Key)
    requires FreshKey(s.db.events, key) && (key.KioskKey? || key.id != d.entry.id)
    ensures FreshKey(CommitDraft(s, employee, d).db.events, key)
  {
    var t, n := CommitDraft(s, employee, d), |s.db.events|;
    assert t.db.events == s.db.events + [t.db.events[n]] + [t.db.events[n + 1]];
    FindKeySnoc(s.db.events, t.db.events[n], key);
    FindKeySnoc(s.db.events + [t.db.events[n]], t.db.events[n + 1], key);
  }

  lemma DraftCommits(s: System, employee: nat, d: Draft)
    requires Consistent(s.db) && ManualRowsClosed(s.db) && d.entry.start < d.entry.end
    requires FreshKey(s.db.events, ManualIn(d.entry.id)) && FreshKey(s.db.events, ManualOut(d.entry.id))
    ensures var t := CommitDraft(s, employee, d);
      Consistent(t.db) && ManualRowsClosed(t.db) && Grows(s.db, t.db) && Appended(s.db, t.db)
  {
    AddManualGrows(s.db, employee, d.entry.start, d.entry.end, d.entry.id);
    forall sh | 0 <= sh < |s.db.shifts| ensures RawEvents(CommitDraft(s, employee, d).db, sh) == RawEvents(s.db, sh) {
      AddManualRaw(s.db, employee, d.entry.start, d.entry.end, d.entry.id, sh);
    }
  }

  lemma {:induction false} DraftsCommit(s: System, employee: nat, drafts: seq<Draft>)
    requires Consistent(s.db) && ManualRowsClosed(s.db) && DraftsApart(drafts)
    requires forall k :: 0 <= k < |drafts| ==> DraftOk(s.db, employee, drafts[k])
    ensures var t := CommitDrafts(s, employee, drafts);
      && Consistent(t.db) && ManualRowsClosed(t.db) && Grows(s.db, t.db) && Appended(s.db, t.db)
      && t.jobs == s.jobs && t.seen == s.seen && t.db.approvals == s.db.approvals
         && t.db.corrections == s.db.corrections
      && t.db.sequence == s.db.sequence
      && |t.db.shifts| == |s.db.shifts| + |drafts|
      && (forall sh :: |s.db.shifts| <= sh < |t.db.shifts| ==> IsClosed(t.db, sh))
  {
    if drafts != [] {
      var front, d := drafts[..|drafts| - 1], drafts[|drafts| - 1];
      DraftsCommit(s, employee, front);
      var u := CommitDrafts(s, employee, front);
      assert DraftOk(s.db, employee, d) && !HasId(front, d.entry.id);
      DraftsFresh(s, employee, front, ManualIn(d.entry.id));
      DraftsFresh(s, employee, front, ManualOut(d.entry.id));
      DraftCommits(u, employee, d);
      var t := CommitDrafts(s, employee, drafts);
      GrowsTransitive(s.db, u.db, t.db);
      forall sh | |s.db.shifts| <= sh < |t.db.shifts| ensures IsClosed(t.db, sh) {
        if sh < |u.db.shifts| { assert IsClosed(u.db, sh); }
      }
    }
  }

  lemma HasIdSnoc(drafts: seq<Draft>, d: Draft, id: nat)
    ensures HasId(drafts + [d], id) <==> HasId(drafts, id) || d.entry.id == id
  {
    assert (drafts + [d])[|drafts|] == d && forall k :: 0 <= k < |drafts| ==> (drafts + [d])[k] == drafts[k];
    if k: nat :| k < |drafts| && drafts[k].entry.id == id { assert (drafts + [d])[k].entry.id == id; }
  }

  lemma ManualCommits(s: System, i: nat, job: Job)
    requires i < |s.jobs| && Inv(s) && s.jobs[i] == job && job.Manual? && job.next >= |job.b.entries|
    ensures var t := Advance(s, i); Inv(t) && Grows(s.db, t.db)
  {
    assert JobOk(s.db, job);
    var u := Become(s, i, Done(Committed));
    DraftsCommit(u, job.b.employee, job.drafts);
    var v := CommitDrafts(u, job.b.employee, job.drafts);
    PinsStay(u, v);
    var t := Advance(s, i);
    if job.b.approves {
      var marks := job.marks + NewMarks(s, job.drafts);
      forall k | 0 <= k < |marks| ensures IsClosed(v.db, marks[k].shift) && marks[k].at <= |v.db.corrections| {
        if k < |job.marks| { assert MarkOk(s.db, job.marks[k]); }
      }
      ApproveMarksKeeps(v, marks);
      GrowsTransitive(s.db, v.db, t.db);
    }
    forall sh: nat | sh < |s.db.shifts| ensures RawEvents(t.db, sh) == RawEvents(v.db, sh) == RawEvents(s.db, sh) {}
    forall j | 0 <= j < |s.jobs| && j != i ensures Undisturbed(s.db, t.db, s.jobs[j]) {
      DraftsDisturbNobody(s, u, t.db, job, s.jobs[j]);
    }
    CommittedKeeps(s, i, Committed, t);
  }

  lemma DraftsDisturbNobody(s: System, u: System, after: Db, job: Job, other: Job)
    requires job.Manual? && Compatible(job, other) && u.db == s.db && Grows(s.db, after)
    requires after.events == CommitDrafts(u, job.b.employee, job.drafts).db.events
    requires after.corrections == s.db.corrections && s.db.shifts <= after.shifts
    requires forall sh: nat :: sh < |s.db.shifts| ==> RawEvents(after, sh) == RawEvents(s.db, sh)
    ensures Undisturbed(s.db, after, other)
  {
    forall key | PendingKey(other, key) && FreshKey(s.db.events, key) ensures FreshKey(after.events, key) {
      assert !PendingKey(job, key);
      DraftsFresh(u, job.b.employee, job.drafts, key);
    }
  }

  lemma ManualStep(s: System, i: nat, job: Job)
    requires i < |s.jobs| && Inv(s) && s.jobs[i] == job && job.Manual?
    ensures var t := Advance(s, i); Inv(t) && Grows(s.db, t.db)
  {
    assert JobOk(s.db, job);
    if job.next >= |job.b.entries| {
      ManualCommits(s, i, job);
    } else {
      match job.stage
      case KeyCheck => ManualLooksUp(s, i, job);
      case Locking => ManualLocks(s, i, job);
      case OverlapCheck => ManualChecks(s, i, job);
      case Inserting(_) => ManualInserts(s, i, job);
      case Pinning(_) => ManualPins(s, i, job);
      case Marking(_) => ManualMarks(s, i, job);
    }
  }

  lemma ManualLooksUp(s: System, i: nat, job: Job)
    requires i < |s.jobs| && Inv(s) && s.jobs[i] == job && job.Manual? && job.next < |job.b.entries|
      && job.stage.KeyCheck?
    ensures var t := Advance(s, i); Inv(t) && Grows(s.db, t.db)
  {
    assert JobOk(s.db, job);
    var job2 := Advance(s, i).jobs[i];
    LookedUp(s, i, job);
    LookUpOk(s.db, job, job2);
    ReplacedQuietly(s, i, job2);
  }

  /** The key is known (its shift is approved next, if the batch approves), already in the batch, or the lock comes
      next. */
  ghost predicate AfterLookUp(db: Db, job: Job, job2: Job)
    requires job.Manual? && job.next < |job.b.entries|
  {
    || (job2 == job.(stage := Locking) && !HasId(job.drafts, job.b.entries[job.next].id))
    || job2 == job.(next := job.next + 1)
    || (job2.Manual? && job2.stage.Pinning? && IsClosed(db, job2.stage.shift) && job2 == job.(stage := job2.stage))
  }

  lemma LookedUp(s: System, i: nat, job: Job)
    requires i < |s.jobs| && s.jobs[i] == job && job.Manual? && job.next < |job.b.entries| && job.stage.KeyCheck?
    requires ManualRowsClosed(s.db)
    ensures Advance(s, i) == Become(s, i, Advance(s, i).jobs[i]) && AfterLookUp(s.db, job, Advance(s, i).jobs[i])
  {
    var f := FindKey(s.db.events, ManualIn(job.b.entries[job.next].id));
    if f.Some? { assert IsClosed(s.db, s.db.events[f.value].shift); }
  }

  lemma LookUpOk(db: Db, job: Job, job2: Job)
    requires job.Manual? && ManualOk(db, job) && job.next < |job.b.entries| && job.stage.KeyCheck?
      && AfterLookUp(db, job, job2)
    ensures JobOk(db, job2) && NoNewClaims(job2, job)
  {
  }

  lemma ManualPins(s: System, i: nat, job: Job)
    requires i < |s.jobs| && Inv(s) && s.jobs[i] == job && job.Manual? && job.next < |job.b.entries|
      && job.stage.Pinning?
    ensures var t := Advance(s, i); Inv(t) && Grows(s.db, t.db)
  {
    assert JobOk(s.db, job);
    assert s.db.corrections[..|s.db.corrections|] == s.db.corrections;
    ReplacedQuietly(s, i, Advance(s, i).jobs[i]);
  }

  lemma ManualMarks(s: System, i: nat, job: Job)
    requires i < |s.jobs| && Inv(s) && s.jobs[i] == job && job.Manual? && job.next < |job.b.entries|
      && job.stage.Marking?
    ensures var t := Advance(s, i); Inv(t) && Grows(s.db, t.db)
  {
    assert JobOk(s.db, job);
    if Advance(s, i) != s {
      MarkJoins(s.db, job);
      ReplacedQuietly(s, i, Advance(s, i).jobs[i]);
    }
  }

  lemma MarkJoins(db: Db, job: Job)
    requires job.Manual? && ManualOk(db, job) && job.next < |job.b.entries| && job.stage.Marking?
    ensures var job2 := job.(next := job.next + 1, marks := job.marks + [job.stage.mark], stage := KeyCheck);
      JobOk(db, job2) && NoNewClaims(job2, job)
  {
  }

  lemma ManualChecks(s: System, i: nat, job: Job)
    requires i < |s.jobs| && Inv(s) && s.jobs[i] == job && job.Manual? && job.next < |job.b.entries|
      && job.stage.OverlapCheck?
    ensures var t := Advance(s, i); Inv(t) && Grows(s.db, t.db)
  {
    assert JobOk(s.db, job);
    ReplacedQuietly(s, i, Advance(s, i).jobs[i]);
  }

  lemma ManualLocks(s: System, i: nat, job: Job)
    requires i < |s.jobs| && Inv(s) && s.jobs[i] == job && job.Manual? && job.next < |job.b.entries|
      && job.stage.Locking?
    ensures var t := Advance(s, i); Inv(t) && Grows(s.db, t.db)
  {
    assert JobOk(s.db, job);
    var job2 := Advance(s, i).jobs[i];
    assert Advance(s, i) == Become(s, i, job2);
    if job2 != job {
      forall j | 0 <= j < |s.jobs| && j != i ensures Compatible(job2, s.jobs[j]) {
        assert Compatible(job, s.jobs[j]) && !HoldsEmployee(s.jobs[j], job.b.employee);
        assert forall key :: PendingKey(job2, key) ==> PendingKey(job, key);
      }
      Replaced(s, i, job2);
    }
  }

  lemma ManualInserts(s: System, i: nat, job: Job)
    requires i < |s.jobs| && Inv(s) && s.jobs[i] == job && job.Manual? && job.next < |job.b.entries|
      && job.stage.Inserting?
    ensures var t := Advance(s, i); Inv(t) && Grows(s.db, t.db)
  {
    assert JobOk(s.db, job);
    var e := job.b.entries[job.next];
    var job2 := Advance(s, i).jobs[i];
    assert Advance(s, i) == Become(s, i, job2);
    if job2.Done? {
      ReplacedQuietly(s, i, job2);
    } else if job2 != job {
      forall j | 0 <= j < |s.jobs| && j != i ensures Compatible(job2, s.jobs[j]) {
        assert Compatible(job, s.jobs[j]) && JobOk(s.db, s.jobs[j]) && !PendingKey(s.jobs[j], ManualIn(e.id));
        DraftedStaysCompatible(job, job2, s.jobs[j], Draft(e, job.stage.seen));
      }
      DraftedOk(s.db, job, job2, Draft(e, job.stage.seen));
      Replaced(s, i, job2);
    }
  }

  lemma DraftedOk(db: Db, job: Job, job2: Job, d: Draft)
    requires job.Manual? && ManualOk(db, job) && job.locked && job.next < |job.b.entries|
    requires job2 == job.(next := job.next + 1, drafts := job.drafts + [d], stage := KeyCheck)
    requires DraftOk(db, job.b.employee, d) && DraftsApart(job.drafts + [d])
    ensures JobOk(db, job2)
  {
  }

  /** One more draft adds its id's keys and holds nothing more. */
  lemma DraftedStaysCompatible(job: Job, job2: Job, other: Job, d: Draft)
    requires Compatible(job, other) && job.Manual? && job2.Manual?
    requires !PendingKey(other, ManualIn(d.entry.id)) && !PendingKey(other, ManualOut(d.entry.id))
    requires job2 == job.(drafts := job.drafts + [d], next := job2.next, stage := job2.stage, locked := job2.locked)
    requires forall sh :: HoldsShift(job2, sh) ==> HoldsShift(job, sh)
    requires forall e :: HoldsEmployee(job2, e) ==> HoldsEmployee(job, e)
    requires forall id :: OwnsId(job2, id) ==> OwnsId(job, id)
    ensures Compatible(job2, other)
  {
    forall key | PendingKey(job2, key) ensures !PendingKey(other, key) {
      HasIdSnoc(job.drafts, d, key.id);
    }
  }

  // ---- Every step, every run ----

  lemma GoKeeps(s: System, i: nat)
    requires Inv(s) && i < |s.jobs|
    ensures Inv(Advance(s, i)) && Grows(s.db, Advance(s, i).db)
  {
    match s.jobs[i]
    case Punching(p, pc) => PunchStep(s, i, p, pc);
    case Manual(_, _, _, _, _, _) => ManualStep(s, i, s.jobs[i]);
    case Approving(shift, pc) => ApproveStep(s, i, shift, pc);
    case Correcting(c, pc) => CorrectStep(s, i, c, pc);
    case Done(_) =>
  }

  lemma ArriveKeeps(s: System, job: Job)
    requires Inv(s) && MayArrive(job)
    ensures Inv(s.(jobs := s.jobs + [job]))
  {
    assert JobOk(s.db, job);
  }

  lemma StepKeeps(s: System, choice: Choice)
    requires Inv(s)
    ensures Inv(Step(s, choice)) && Grows(s.db, Step(s, choice).db)
  {
    match choice
    case Arrive(job) => if MayArrive(job) { ArriveKeeps(s, job); }
    case Go(i) => if i < |s.jobs| { GoKeeps(s, i); }
  }

  /** Whatever the interleaving, the invariant holds and rows are only ever added. */
  lemma {:induction false} RunKeeps(s: System, schedule: seq<Choice>)
    requires Inv(s)
    ensures Inv(Run(s, schedule)) && Grows(s.db, Run(s, schedule).db)
  {
    if schedule != [] {
      var t := Run(s, schedule[..|schedule| - 1]);
      RunKeeps(s, schedule[..|schedule| - 1]);
      StepKeeps(t, schedule[|schedule| - 1]);
      GrowsTransitive(s.db, t.db, Run(s, schedule).db);
    }
  }

  lemma EmptyIsFine()
    ensures Inv(EMPTY)
  {
  }

  // ---- Main results ----

  /** For every interleaving of any number of requests: each key has at most one event, each employee at
      most one open shift, and whatever was recorded at any point of the run is still there at its end. */
  lemma AnySchedule(before: seq<Choice>, after: seq<Choice>)
    ensures var s, t := Run(EMPTY, before), Run(Run(EMPTY, before), after);
      Inv(t) && UniqueKeys(t.db.events) && OneOpenShift(t.db.shifts) && Grows(s.db, t.db)
  {
    EmptyIsFine();
    RunKeeps(EMPTY, before);
    RunKeeps(Run(EMPTY, before), after);
  }

  /** Every caller that is given an event for a key is given the same one, the one carrying that key. */
  lemma SameKeySameEvent(schedule: seq<Choice>, i: nat, j: nat)
    requires var s := Run(EMPTY, schedule);
      && i < |s.jobs| && j < |s.jobs|
      && s.jobs[i].Done? && s.jobs[i].outcome.Recorded? && s.jobs[j].Done? && s.jobs[j].outcome.Recorded?
      && s.jobs[i].outcome.key == s.jobs[j].outcome.key
    ensures var s := Run(EMPTY, schedule);
      && s.jobs[i].outcome == s.jobs[j].outcome
      && FindKey(s.db.events, s.jobs[i].outcome.key) == Some(s.jobs[i].outcome.event)
  {
    EmptyIsFine();
    RunKeeps(EMPTY, schedule);
    var s := Run(EMPTY, schedule);
    assert JobOk(s.db, s.jobs[i]) && JobOk(s.db, s.jobs[j]);
  }

  /** Whenever a shift's approval is not stale its effective events are those of the correction it points to. That is
      the very correction its guard has read, and then its effective events are those the guard evaluated, if and only
      if no correction that comes before the one read was committed between the guard's read and the pin. */
  lemma ApprovedMeansSeenIff(schedule: seq<Choice>, shift: nat)
    requires StatusOf(Run(EMPTY, schedule).db, shift) == Approved
    ensures var s := Run(EMPTY, schedule);
      && IsClosed(s.db, shift) && EffectiveEvents(s.db, shift) == EventsAt(s.db, shift, s.db.approvals[shift])
      && shift in s.seen && var seen := s.seen[shift];
      && seen.upto <= |s.db.corrections|
      && (CurrentCorrection(s.db.corrections, shift) == seen.read
          <==> NoneBeats(s.db.corrections, shift, seen.read, seen.from, seen.upto))
      && (CurrentCorrection(s.db.corrections, shift) == seen.read ==> EffectiveEvents(s.db, shift) == seen.events)
  {
    EmptyIsFine();
    RunKeeps(EMPTY, schedule);
    var s := Run(EMPTY, schedule);
    assert PinOk(s.db, shift, s.db.approvals[shift], s.seen[shift]);
  }
}
