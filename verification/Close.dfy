/** Closing and reopening one payroll period: an append-only chain of snapshots under a row lock, written by concurrent
    jobs that advance one step at a time. */
module Close {
  import opened TimeCalculation
  import opened CloseGate
  import opened Text

  datatype Status = Draft | Closed
  datatype Snapshot = Snapshot(version: nat, supersedes: Option<nat>, lines: seq<PayloadLine>, reason: string)
  datatype Period = Period(status: Status, snapshots: seq<Snapshot>)

  const NEW_PERIOD := Period(Draft, [])
  const AUTOMATIC := "automatic previous-month close"

  /** ORDER BY version DESC: the row of the highest version. */
  function LatestSnapshot(snapshots: seq<Snapshot>): (r: Option<nat>)
    ensures r.None? <==> snapshots == []
    ensures r.Some? ==> r.value < |snapshots|
    ensures r.Some? ==> forall k :: 0 <= k < |snapshots| ==> snapshots[k].version <= snapshots[r.value].version
  {
    if snapshots == [] then None
    else
      var r, n := LatestSnapshot(snapshots[..|snapshots| - 1]), |snapshots| - 1;
      if r.None? || snapshots[r.value].version <= snapshots[n].version then Some(n) else r
  }

  function NextSnapshot(p: Period, lines: seq<PayloadLine>, reason: string): Snapshot {
    var latest := LatestSnapshot(p.snapshots);
    Snapshot((if latest.Some? then p.snapshots[latest.value].version else 0) + 1, latest, lines, reason)
  }

  predicate VersionTaken(snapshots: seq<Snapshot>, version: nat) {
    exists k :: 0 <= k < |snapshots| && snapshots[k].version == version
  }

  /** Versions run 1, 2, 3, … and each snapshot supersedes the one before it. */
  predicate Chain(snapshots: seq<Snapshot>) {
    forall k :: 0 <= k < |snapshots| ==>
      snapshots[k].version == k + 1 && snapshots[k].supersedes == (if k == 0 then None else Some(k - 1))
  }

  lemma NextExtendsChain(p: Period, lines: seq<PayloadLine>, reason: string)
    requires Chain(p.snapshots)
    ensures Chain(p.snapshots + [NextSnapshot(p, lines, reason)])
    ensures !VersionTaken(p.snapshots, NextSnapshot(p, lines, reason).version)
    ensures p.snapshots != [] ==> LatestSnapshot(p.snapshots) == Some(|p.snapshots| - 1)
  {
    var latest := LatestSnapshot(p.snapshots);
    if p.snapshots != [] { assert p.snapshots[latest.value].version >= p.snapshots[|p.snapshots| - 1].version; }
  }

  // ---- The services as concurrent jobs ----

  datatype Request = Request(reason: string, automatic: bool)

  datatype ClosePc =
    | Looking                                              // the finalizer only: is there a snapshot already?
    | Building                                             // the payload, before close_period is called with it
    | CheckingOpen
    | CheckingApprovals(today: int, found: bool)
    | CheckingLines(today: int, found: bool)
    | Waiting                                              // nothing found; waiting for the period's row lock
    | Holding                                              // lock taken
    | Inserted(snapshot: Snapshot)                         // row written, not committed

  /** History of a closing job: how many snapshots there were when it first looked, and the worlds it built its payload
      from and checked. */
  datatype Trail = Trail(looked: nat, built: nat, first: nat, second: nat, third: nat)

  const NO_TRAIL := Trail(0, 0, 0, 0, 0)

  datatype Outcome = NotBuilt | Blocked | AlreadyClosed(k: nat) | Wrote(k: nat) | Skipped | ReasonMissing | Reopened
                   | Failed

  datatype Job =
    | Closing(c: Request, lines: seq<PayloadLine>, pc: ClosePc, trail: Trail)
    | Reopening(reason: string, holding: bool)
    | Done(outcome: Outcome)

  /** `worlds` is the history of everything else, the last one is current; `trails` says who wrote each snapshot. */
  datatype System = System(period: Period, jobs: seq<Job>, worlds: seq<World>, reopens: nat,
                           trails: seq<(bool, Trail)>)

  predicate Holds(job: Job) {
    (job.Closing? && (job.pc.Holding? || job.pc.Inserted?)) || (job.Reopening? && job.holding)
  }

  predicate LockedByOther(s: System, i: nat) { exists j :: 0 <= j < |s.jobs| && j != i && Holds(s.jobs[j]) }

  function Become(s: System, i: nat, job: Job): System
    requires i < |s.jobs|
  {
    s.(jobs := s.jobs[i := job])
  }

  /** What a month is closed with: the payload, if it can be built, and the three checks, each of which may fail. */
  datatype Gate = Gate(build: World -> Option<seq<PayloadLine>>, first: World -> bool, second: World -> bool,
                       lines: (seq<PayloadLine>, World, int) -> bool)

  function AdvanceClose(s: System, i: nat, g: Gate, c: Request, lines: seq<PayloadLine>, pc: ClosePc,
                        trail: Trail): System
    requires i < |s.jobs| && s.worlds != []
  {
    var n, now := |s.worlds| - 1, s.worlds[|s.worlds| - 1];
    match pc
    case Looking =>
      Become(s, i, if s.period.snapshots != [] then Done(Skipped)
                   else Closing(c, lines, Building, trail.(looked := |s.period.snapshots|)))
    case Building =>
      var payload := g.build(now);
      Become(s, i, if payload.None? then Done(NotBuilt)
                   else Closing(c, payload.value, CheckingOpen, trail.(built := n)))
    case CheckingOpen =>
      Become(s, i, Closing(c, lines, CheckingApprovals(now.today, g.first(now)), trail.(first := n)))
    case CheckingApprovals(today, found) =>
      Become(s, i, Closing(c, lines, CheckingLines(today, found || g.second(now)), trail.(second := n)))
    case CheckingLines(today, found) =>
      Become(s, i, if found || g.lines(lines, now, today) then Done(Blocked)
                   else Closing(c, lines, Waiting, trail.(third := n)))
    case Waiting => if LockedByOther(s, i) then s else Become(s, i, Closing(c, lines, Holding, trail))
    case Holding =>
      var latest := LatestSnapshot(s.period.snapshots);
      if s.period.status == Closed && latest.Some? then Become(s, i, Done(AlreadyClosed(latest.value)))
      else
        var snapshot := NextSnapshot(s.period, lines, c.reason);
        Become(s, i, if VersionTaken(s.period.snapshots, snapshot.version) then Done(Failed)
                     else Closing(c, lines, Inserted(snapshot), trail))
    case Inserted(snapshot) =>
      Become(s, i, Done(Wrote(|s.period.snapshots|)))
        .(period := Period(Closed, s.period.snapshots + [snapshot]), trails := s.trails + [(c.automatic, trail)])
  }

  function AdvanceReopen(s: System, i: nat, reason: string, holding: bool): System
    requires i < |s.jobs|
  {
    if BlankText(reason) then Become(s, i, Done(ReasonMissing))
    else if holding then
      Become(s, i, Done(Reopened)).(period := s.period.(status := Draft), reopens := s.reopens + 1)
    else if LockedByOther(s, i) then s
    else Become(s, i, Reopening(reason, true))
  }

  function Advance(s: System, i: nat, g: Gate): System
    requires i < |s.jobs| && s.worlds != []
  {
    match s.jobs[i]
    case Closing(c, lines, pc, trail) => AdvanceClose(s, i, g, c, lines, pc, trail)
    case Reopening(reason, holding) => AdvanceReopen(s, i, reason, holding)
    case Done(_) => s
  }

  predicate MayArrive(job: Job) {
    match job
    case Closing(c, _, pc, _) => pc == (if c.automatic then Looking else Building)
    case Reopening(_, holding) => !holding
    case Done(_) => false
  }

  datatype Choice = Arrive(job: Job) | Go(i: nat) | Meanwhile(w: World)

  /** Attendance, terms and the date change as they like, except that the date never goes back. */
  function Step(s: System, choice: Choice, g: Gate): System
    requires s.worlds != []
  {
    match choice
    case Arrive(job) => if MayArrive(job) then s.(jobs := s.jobs + [job]) else s
    case Go(i) => if i < |s.jobs| then Advance(s, i, g) else s
    case Meanwhile(w) => if s.worlds[|s.worlds| - 1].today <= w.today then s.(worlds := s.worlds + [w]) else s
  }

  function Run(start: World, schedule: seq<Choice>, g: Gate): (s: System)
    ensures s.worlds != []
  {
    if schedule == [] then System(NEW_PERIOD, [], [start], 0, [])
    else Step(Run(start, schedule[..|schedule| - 1], g), schedule[|schedule| - 1], g)
  }

  // ---- The invariant ----

  ghost predicate BuiltAt(worlds: seq<World>, t: Trail, lines: seq<PayloadLine>, g: Gate) {
    t.built < |worlds| && g.build(worlds[t.built]) == Some(lines)
  }

  /** Where a stored payload comes from, the checks it has passed, and when. */
  ghost predicate Passed(worlds: seq<World>, t: Trail, lines: seq<PayloadLine>, g: Gate) {
    && BuiltAt(worlds, t, lines, g) && t.built <= t.first <= t.second <= t.third < |worlds|
    && !g.first(worlds[t.first]) && !g.second(worlds[t.second])
    && !g.lines(lines, worlds[t.third], worlds[t.first].today)
  }

  ghost predicate CloseOk(s: System, g: Gate, c: Request, lines: seq<PayloadLine>, pc: ClosePc, t: Trail) {
    && (c.automatic && !pc.Looking? ==> t.looked == 0)
    && match pc
       case Looking | Building => true
       case CheckingOpen => BuiltAt(s.worlds, t, lines, g)
       case CheckingApprovals(today, found) =>
         BuiltAt(s.worlds, t, lines, g) && t.built <= t.first < |s.worlds| && today == s.worlds[t.first].today
         && (!found ==> !g.first(s.worlds[t.first]))
       case CheckingLines(today, found) =>
         BuiltAt(s.worlds, t, lines, g) && t.built <= t.first <= t.second < |s.worlds|
         && today == s.worlds[t.first].today
         && (!found ==> !g.first(s.worlds[t.first]) && !g.second(s.worlds[t.second]))
       case Waiting | Holding => Passed(s.worlds, t, lines, g)
       case Inserted(snapshot) =>
         Passed(s.worlds, t, lines, g) && snapshot == NextSnapshot(s.period, lines, c.reason)
         && (s.period.status == Closed ==> s.period.snapshots == [])
  }

  ghost predicate JobOk(s: System, g: Gate, job: Job) {
    job.Closing? ==> CloseOk(s, g, job.c, job.lines, job.pc, job.trail)
  }

  ghost predicate Accounted(s: System, g: Gate) {
    && |s.trails| == |s.period.snapshots|
    && forall k :: 0 <= k < |s.trails| ==>
         && Passed(s.worlds, s.trails[k].1, s.period.snapshots[k].lines, g)
         && (s.trails[k].0 ==> s.trails[k].1.looked == 0)
  }

  ghost predicate PeriodOk(s: System) {
    && Chain(s.period.snapshots)
    && (s.period.status == Closed ==> s.period.snapshots != [])
    && |s.period.snapshots| <= s.reopens + (if s.period.status == Closed then 1 else 0)
  }

  ghost predicate OneHolder(s: System) {
    forall i, j :: 0 <= i < j < |s.jobs| && Holds(s.jobs[i]) ==> !Holds(s.jobs[j])
  }

  ghost predicate TimeForward(worlds: seq<World>) {
    forall i, j :: 0 <= i <= j < |worlds| ==> worlds[i].today <= worlds[j].today
  }

  ghost predicate Inv(s: System, g: Gate) {
    && s.worlds != [] && TimeForward(s.worlds) && PeriodOk(s) && Accounted(s, g) && OneHolder(s)
    && forall i :: 0 <= i < |s.jobs| ==> JobOk(s, g, s.jobs[i])
  }

  /** Nothing stored is ever changed. */
  ghost predicate Grows(a: System, b: System) {
    a.period.snapshots <= b.period.snapshots && a.worlds <= b.worlds && a.trails <= b.trails && a.reopens <= b.reopens
  }
}
