/** Everything that writes attendance rows, as concurrent jobs over one database: kiosk punches, manual
    entries and weekly batches, manager approvals and time corrections. A job advances one database
    statement at a time. What it has inserted but not committed is visible to others only through the
    unique constraints and row locks (they wait for it); locks are held until the job ends. */
module AttendanceRun {
  import opened TimeCalculation
  import opened Attribution
  import opened AttendanceDb
  import opened Text

  // ---- Requests ----

  /** `now` is read before the transaction begins; `insertedAt` is the clock when the shift row is made. */
  datatype Punch = Punch(employee: nat, kind: Kind, key: Key, now: int, insertedAt: int)
  datatype Entry = Entry(id: nat, start: int, end: int)
  /** One manual entry, or a weekly batch whose shifts are approved in the same transaction. */
  datatype Batch = Batch(employee: nat, entries: seq<Entry>, approves: bool)
  /** `createdAt` is the clock when the correction row is inserted. */
  datatype Correction = Correction(shift: nat, startedAt: int, endedAt: int, reason: string, createdAt: int)

  datatype Refusal = NoOpenShift | IllegalTransition | ShiftAlreadyOpen
  datatype Outcome = Recorded(key: Key, event: nat) | Rejected(why: Refusal) | Aborted
                   | Conflict | Committed | GuardFailed

  // ---- Jobs ----

  datatype PunchPc =
    | Arrived | ClockingIn | Selecting | Waiting(candidate: Option<nat>)
    | Holding(shift: nat)    // row lock taken, the shift seen open
    | Checked(shift: nat)    // transition found legal
    | Written(shift: nat)    // event inserted, not yet committed
    | Refused(why: Refusal)  // about to look the key up once more

  /** An approval of a shift that a batch has written but not committed: the correction it points to, read when `at`
      corrections had been committed. */
  datatype Mark = Mark(shift: nat, pinned: Option<CorrectionRow>, at: nat)

  datatype Stage =
    | KeyCheck | Locking | OverlapCheck | Inserting(seen: nat)
    | Pinning(shift: nat)    // the entry is recorded already; about to approve its shift
    | Marking(mark: Mark)    // its current correction has been read
  /** An inserted, uncommitted entry and the number of shift rows its overlap check saw. */
  datatype Draft = Draft(entry: Entry, seen: nat)

  /** History of an approval: the correction (or raw punches) and the events its guard evaluated, and between which
      numbers of committed corrections another one could have slipped in before the approval was pinned. */
  datatype Seen = Seen(read: Option<CorrectionRow>, events: seq<Event>, from: nat, upto: nat)

  datatype ApprovePc =
    | Look                                                                 // the view evaluates the effective events
    | Pin(read: Option<CorrectionRow>, events: seq<Event>, at: nat)        // the service reads what is current
    | Store(pinned: Option<CorrectionRow>, seen: Seen)                     // and stores it

  datatype CorrectPc =
    | Examine                                                              // the view evaluates the rewritten events
    | Linking(corrected: seq<Event>)                                       // reads the correction to supersede
    | Adding(corrected: seq<Event>, previous: Option<nat>, linkedAt: nat)
    | Reading(row: CorrectionRow, linkedAt: nat)                           // inserted; reads what is current
    | Storing(row: CorrectionRow, linkedAt: nat, pinned: Option<CorrectionRow>, pinnedAt: nat)
    | Stored(row: CorrectionRow, linkedAt: nat, pinned: Option<CorrectionRow>, pinnedAt: nat)   // about to commit

  datatype Job =
    | Punching(p: Punch, pc: PunchPc)
    | Manual(b: Batch, next: nat, drafts: seq<Draft>, marks: seq<Mark>, locked: bool, stage: Stage)
    | Approving(shift: nat, apc: ApprovePc)
    | Correcting(c: Correction, cpc: CorrectPc)
    | Done(outcome: Outcome)

  /** The last two components are history: for each approval what it was given for, and for each manual shift the
      number of shift rows present when its overlap check ran. */
  datatype System = System(db: Db, jobs: seq<Job>, seen: map<nat, Seen>, manual: map<nat, nat>)

  // ---- Locks and uncommitted keys ----

  predicate HoldsShift(job: Job, shift: nat) {
    job.Punching? && (job.pc == Holding(shift) || job.pc == Checked(shift) || job.pc == Written(shift))
  }

  predicate HoldsEmployee(job: Job, employee: nat) { job.Manual? && job.locked && job.b.employee == employee }

  /** The approval row of a shift is locked from its update to the end of the transaction. */
  predicate HoldsApproval(job: Job, shift: nat) {
    || (job.Correcting? && job.cpc.Stored? && job.c.shift == shift)
    || (job.Manual? && exists k :: 0 <= k < |job.marks| && job.marks[k].shift == shift)
  }

  /** The id of an inserted, uncommitted correction. */
  predicate OwnsId(job: Job, id: nat) {
    job.Correcting? && (job.cpc.Reading? || job.cpc.Storing? || job.cpc.Stored?) && job.cpc.row.id == id
  }

  predicate HasId(drafts: seq<Draft>, id: nat) { exists k :: 0 <= k < |drafts| && drafts[k].entry.id == id }

  predicate PendingKey(job: Job, key: Key) {
    match job
    case Punching(p, pc) => pc.Written? && p.key == key
    case Manual(_, _, drafts, _, _, _) => !key.KioskKey? && HasId(drafts, key.id)
    case _ => false
  }

  predicate ClosingShiftOf(job: Job, db: Db, employee: nat) {
    job.Punching? && job.pc.Written? && job.p.kind == ClockOut
    && job.pc.shift < |db.shifts| && db.shifts[job.pc.shift].employee == employee
  }

  predicate ShiftLocked(s: System, i: nat, shift: nat) {
    exists j :: 0 <= j < |s.jobs| && j != i && HoldsShift(s.jobs[j], shift)
  }

  predicate EmployeeLocked(s: System, i: nat, employee: nat) {
    exists j :: 0 <= j < |s.jobs| && j != i && HoldsEmployee(s.jobs[j], employee)
  }

  predicate ApprovalLocked(s: System, i: nat, shift: nat) {
    exists j :: 0 <= j < |s.jobs| && j != i && HoldsApproval(s.jobs[j], shift)
  }

  predicate KeyInFlight(s: System, i: nat, key: Key) {
    exists j :: 0 <= j < |s.jobs| && j != i && PendingKey(s.jobs[j], key)
  }

  predicate CloseInFlight(s: System, i: nat, employee: nat) {
    exists j :: 0 <= j < |s.jobs| && j != i && ClosingShiftOf(s.jobs[j], s.db, employee)
  }

  // ---- Steps ----

  function Become(s: System, i: nat, job: Job): System
    requires i < |s.jobs|
  {
    s.(jobs := s.jobs[i := job])
  }

  function LookUp(s: System, i: nat, key: Key, otherwise: Job): System
    requires i < |s.jobs|
  {
    var f := FindKey(s.db.events, key);
    Become(s, i, if f.Some? then Done(Recorded(key, f.value)) else otherwise)
  }

  function AdvancePunch(s: System, i: nat, p: Punch, pc: PunchPc): System
    requires i < |s.jobs|
  {
    var db := s.db;
    match pc
    case Arrived => LookUp(s, i, p.key, Punching(p, if p.kind == ClockIn then ClockingIn else Selecting))
    case ClockingIn =>
      if KeyInFlight(s, i, p.key) || CloseInFlight(s, i, p.employee) then s
      else if FindKey(db.events, p.key).Some? || OpenShiftOf(db.shifts, p.employee).Some? then
        Become(s, i, Punching(p, Refused(ShiftAlreadyOpen)))
      else
        Become(s, i, Done(Recorded(p.key, |db.events|)))
          .(db := OpenNewShift(db, p.employee, p.insertedAt, p.now, p.key))
    case Selecting => Become(s, i, Punching(p, Waiting(OpenShiftOf(db.shifts, p.employee))))
    case Waiting(candidate) =>
      if candidate.Some? && ShiftLocked(s, i, candidate.value) then s
      else if candidate.Some? && candidate.value < |db.shifts| && db.shifts[candidate.value].closedAt.None?
      then Become(s, i, Punching(p, Holding(candidate.value)))
      else Become(s, i, Punching(p, Refused(NoOpenShift)))
    case Holding(shift) =>
      Become(s, i,
        Punching(p, if p.kind in Allowed(StateOf(db, shift)) then Checked(shift) else Refused(IllegalTransition)))
    case Checked(shift) =>
      if KeyInFlight(s, i, p.key) then s
      else Become(s, i, if FindKey(db.events, p.key).Some? then Done(Aborted) else Punching(p, Written(shift)))
    case Written(shift) =>
      if shift < |db.shifts| then
        Become(s, i, Done(Recorded(p.key, |db.events|))).(db := AddPunch(db, shift, p.kind, p.now, p.key))
      else s
    case Refused(why) => LookUp(s, i, p.key, Done(Rejected(why)))
  }

  predicate OverlapsRow(row: ShiftRow, e: Entry) {
    row.openedAt < e.end && (row.closedAt.None? || row.closedAt.value > e.start)
  }

  predicate Overlaps(rows: seq<ShiftRow>, employee: nat, e: Entry) {
    exists k :: 0 <= k < |rows| && rows[k].employee == employee && OverlapsRow(rows[k], e)
  }

  predicate OverlapsDraft(drafts: seq<Draft>, e: Entry) {
    exists k :: 0 <= k < |drafts| && drafts[k].entry.start < e.end && drafts[k].entry.end > e.start
  }

  /** An approval becomes visible. A batch evaluates nothing: what it pins is all it has seen. */
  function ApproveMark(s: System, m: Mark): System {
    s.(db := SetApproval(s.db, m.shift, m.pinned),
       seen := s.seen[m.shift := Seen(m.pinned, EventsAt(s.db, m.shift, m.pinned), m.at, m.at)])
  }

  function ApproveMarks(s: System, marks: seq<Mark>): System {
    if marks == [] then s else ApproveMark(ApproveMarks(s, marks[..|marks| - 1]), marks[|marks| - 1])
  }

  function CommitDraft(s: System, employee: nat, d: Draft): System {
    s.(db := AddManualShift(s.db, employee, d.entry.start, d.entry.end, d.entry.id),
       manual := s.manual[|s.db.shifts| := d.seen])
  }

  function CommitDrafts(s: System, employee: nat, drafts: seq<Draft>): System {
    if drafts == [] then s
    else CommitDraft(CommitDrafts(s, employee, drafts[..|drafts| - 1]), employee, drafts[|drafts| - 1])
  }

  /** A shift nobody else can see yet has no correction. */
  function NewMarks(s: System, drafts: seq<Draft>): seq<Mark> {
    seq(|drafts|, k requires 0 <= k < |drafts| => Mark(|s.db.shifts| + k, None, |s.db.corrections|))
  }

  function AdvanceManual(s: System, i: nat, job: Job): System
    requires i < |s.jobs| && job.Manual?
  {
    var db := s.db;
    if job.next >= |job.b.entries| then
      var t := CommitDrafts(Become(s, i, Done(Committed)), job.b.employee, job.drafts);
      if job.b.approves then ApproveMarks(t, job.marks + NewMarks(s, job.drafts)) else t
    else
      var e := job.b.entries[job.next];
      match job.stage
      case KeyCheck =>
        var f := FindKey(db.events, ManualIn(e.id));
        if f.Some? then
          Become(s, i, if job.b.approves then job.(stage := Pinning(db.events[f.value].shift))
            else job.(next := job.next + 1))
        else if HasId(job.drafts, e.id) then Become(s, i, job.(next := job.next + 1))
        else Become(s, i, job.(stage := Locking))
      case Locking =>
        if EmployeeLocked(s, i, job.b.employee) then s
        else Become(s, i, job.(locked := true, stage := OverlapCheck))
      case OverlapCheck =>
        if Overlaps(db.shifts, job.b.employee, e) || OverlapsDraft(job.drafts, e) then Become(s, i, Done(Conflict))
        else Become(s, i, job.(stage := Inserting(|db.shifts|)))
      case Inserting(seen) =>
        if KeyInFlight(s, i, ManualIn(e.id)) then s
        else if FindKey(db.events, ManualIn(e.id)).Some? || FindKey(db.events, ManualOut(e.id)).Some? then
          Become(s, i, Done(Aborted))
        else Become(s, i, job.(next := job.next + 1, drafts := job.drafts + [Draft(e, seen)], stage := KeyCheck))
      case Pinning(shift) =>
        Become(s, i, job.(stage := Marking(Mark(shift, CurrentCorrection(db.corrections, shift), |db.corrections|))))
      case Marking(mark) =>
        if ApprovalLocked(s, i, mark.shift) then s
        else Become(s, i, job.(next := job.next + 1, marks := job.marks + [mark], stage := KeyCheck))
  }

  function AdvanceApprove(s: System, i: nat, shift: nat, pc: ApprovePc): System
    requires i < |s.jobs|
  {
    var rows := s.db.corrections;
    match pc
    case Look =>
      var events := EffectiveEvents(s.db, shift);
      var ok := IsClosed(s.db, shift) && Calculation(events, NO_TERMS).blockers == [];
      Become(s, i, if ok then Approving(shift, Pin(CurrentCorrection(rows, shift), events, |rows|))
        else Done(GuardFailed))
    case Pin(read, events, at) =>
      Become(s, i, Approving(shift, Store(CurrentCorrection(rows, shift), Seen(read, events, at, |rows|))))
    case Store(pinned, seen) =>
      if ApprovalLocked(s, i, shift) then s
      else Become(s, i, Done(Committed)).(db := SetApproval(s.db, shift, pinned), seen := s.seen[shift := seen])
  }

  predicate FirstClockIn(events: seq<Event>, i: nat)
    requires i < |events|
  {
    events[i].kind == ClockIn && forall j :: 0 <= j < i ==> events[j].kind != ClockIn
  }

  /** What the time correction does to the effective events: the first CLOCK_IN and every CLOCK_OUT move,
      and are written back in Seoul time. */
  function Rewritten(events: seq<Event>, startedAt: int, endedAt: int): seq<Event> {
    seq(|events|, i requires 0 <= i < |events| =>
      if FirstClockIn(events, i) then Event(ClockIn, startedAt, SEOUL)
      else if events[i].kind == ClockOut then Event(ClockOut, endedAt, SEOUL)
      else events[i])
  }

  predicate Has(events: seq<Event>, kind: Kind) { exists i :: 0 <= i < |events| && events[i].kind == kind }

  predicate Correctable(db: Db, c: Correction) {
    var before := EffectiveEvents(db, c.shift);
    && IsClosed(db, c.shift) && !BlankText(c.reason) && c.startedAt < c.endedAt && Has(before, ClockIn)
       && Has(before, ClockOut)
    && Calculation(Rewritten(before, c.startedAt, c.endedAt), NO_TERMS).blockers == []
  }

  function AdvanceCorrect(s: System, i: nat, c: Correction, pc: CorrectPc): System
    requires i < |s.jobs|
  {
    var db := s.db;
    match pc
    case Examine =>
      Become(s, i, if Correctable(db, c)
                   then Correcting(c, Linking(Rewritten(EffectiveEvents(db, c.shift), c.startedAt, c.endedAt)))
                   else Done(GuardFailed))
    case Linking(corrected) =>
      var previous := IdOf(CurrentCorrection(db.corrections, c.shift));
      Become(s, i, Correcting(c, Adding(corrected, previous, |db.corrections|)))
    case Adding(corrected, previous, linkedAt) =>
      var row := CorrectionRow(db.sequence, c.shift, previous, corrected, c.createdAt);
      Become(s, i, Correcting(c, Reading(row, linkedAt))).(db := db.(sequence := db.sequence + 1))
    case Reading(row, linkedAt) =>
      var pinned := CurrentCorrection(db.corrections + [row], c.shift);
      Become(s, i, Correcting(c, Storing(row, linkedAt, pinned, |db.corrections|)))
    case Storing(row, linkedAt, pinned, pinnedAt) =>
      if ApprovalLocked(s, i, c.shift) then s else Become(s, i, Correcting(c, Stored(row, linkedAt, pinned, pinnedAt)))
    case Stored(row, linkedAt, pinned, pinnedAt) =>
      Become(s, i, Done(Committed))
        .(db := SetApproval(AddCorrection(db, row), c.shift, pinned),
          seen := s.seen[c.shift := Seen(Some(row), row.events, 0, pinnedAt)])
  }

  function Advance(s: System, i: nat): System
    requires i < |s.jobs|
  {
    match s.jobs[i]
    case Punching(p, pc) => AdvancePunch(s, i, p, pc)
    case Manual(_, _, _, _, _, _) => AdvanceManual(s, i, s.jobs[i])
    case Approving(shift, pc) => AdvanceApprove(s, i, shift, pc)
    case Correcting(c, pc) => AdvanceCorrect(s, i, c, pc)
    case Done(_) => s
  }

  /** A request that may arrive: kiosk keys never look like manual keys, and manual entries have passed the
      form's END_MUST_FOLLOW_START check (or the weekly form's overnight roll). */
  predicate MayArrive(job: Job) {
    match job
    case Punching(p, pc) => pc == Arrived && p.key.KioskKey?
    case Manual(b, next, drafts, marks, locked, stage) =>
      && next == 0 && drafts == [] && marks == [] && !locked && stage == KeyCheck
      && forall k :: 0 <= k < |b.entries| ==> b.entries[k].start < b.entries[k].end
    case Approving(_, pc) => pc == Look
    case Correcting(_, pc) => pc == Examine
    case Done(_) => false
  }

  datatype Choice = Arrive(job: Job) | Go(i: nat)

  function Step(s: System, choice: Choice): System {
    match choice
    case Arrive(job) => if MayArrive(job) then s.(jobs := s.jobs + [job]) else s
    case Go(i) => if i < |s.jobs| then Advance(s, i) else s
  }

  /** Any finite schedule; choices that are not possible leave the system as it is. */
  function Run(s: System, schedule: seq<Choice>): System {
    if schedule == [] then s else Step(Run(s, schedule[..|schedule| - 1]), schedule[|schedule| - 1])
  }

  const EMPTY := System(EMPTY_DB, [], map[], map[])
  const EMPTY_DB := Db([], [], [], map[], 0)
}
