/** What every interleaving of closes, reopens and automatic runs keeps. */
module CloseSafety {
  import opened TimeCalculation
  import opened CloseGate
  import opened Text
  import opened Close

  // ---- Replacing one job, the rest untouched ----

  lemma ReplacedKeeps(s: System, i: nat, job: Job, g: Gate)
    requires Inv(s, g) && i < |s.jobs| && JobOk(s, g, job)
    requires Holds(job) ==> Holds(s.jobs[i]) || !LockedByOther(s, i)
    ensures Inv(Become(s, i, job), g) && Grows(s, Become(s, i, job))
  {
    var t := Become(s, i, job);
    forall j | 0 <= j < |t.jobs| ensures JobOk(t, g, t.jobs[j]) {
      if j != i { assert JobOk(s, g, s.jobs[j]); }
      SamePeriodSameJob(s, t, g, t.jobs[j]);
    }
    forall j, k | 0 <= j < k < |t.jobs| && Holds(t.jobs[j]) ensures !Holds(t.jobs[k]) {
      assert j != i && k != i ==> !Holds(s.jobs[k]);
    }
  }

  lemma SamePeriodSameJob(s: System, t: System, g: Gate, job: Job)
    requires t.period == s.period && t.worlds == s.worlds
    ensures JobOk(s, g, job) <==> JobOk(t, g, job)
  {
  }

  /** A holder commits: nobody else holds the lock, so nobody else depends on the period. */
  lemma CommitKeeps(s: System, i: nat, outcome: Outcome, t: System, g: Gate)
    requires Inv(s, g) && i < |s.jobs| && Holds(s.jobs[i]) && t.jobs == s.jobs[i := Done(outcome)]
    requires t.worlds == s.worlds && PeriodOk(t) && Accounted(t, g)
    ensures Inv(t, g)
  {
    forall j | 0 <= j < |t.jobs| ensures JobOk(t, g, t.jobs[j]) {
      if j != i {
        assert JobOk(s, g, s.jobs[j]);
        assert !Holds(s.jobs[j]);
      }
    }
  }

  // ---- Closing, step by step ----

  lemma EarlyChecksKeep(s: System, i: nat, g: Gate, c: Request, lines: seq<PayloadLine>, pc: ClosePc,
                        trail: Trail)
    requires Inv(s, g) && i < |s.jobs| && s.jobs[i] == Closing(c, lines, pc, trail)
    requires pc.Looking? || pc.Building? || pc.CheckingOpen? || pc.CheckingApprovals?
    ensures Inv(Advance(s, i, g), g) && Grows(s, Advance(s, i, g))
  {
    assert JobOk(s, g, s.jobs[i]);
    ReplacedKeeps(s, i, Advance(s, i, g).jobs[i], g);
  }

  lemma LineChecksKeep(s: System, i: nat, g: Gate, c: Request, lines: seq<PayloadLine>, today: int, found: bool,
                       trail: Trail)
    requires Inv(s, g) && i < |s.jobs| && s.jobs[i] == Closing(c, lines, CheckingLines(today, found), trail)
    ensures Inv(Advance(s, i, g), g) && Grows(s, Advance(s, i, g))
  {
    assert JobOk(s, g, s.jobs[i]);
    var n := |s.worlds| - 1;
    if found || g.lines(lines, s.worlds[n], today) {
      ReplacedKeeps(s, i, Done(Blocked), g);
    } else {
      CheckedMeansPassed(s, g, lines, trail.(third := n), today);
      ReplacedKeeps(s, i, Closing(c, lines, Waiting, trail.(third := n)), g);
    }
  }

  lemma CheckedMeansPassed(s: System, g: Gate, lines: seq<PayloadLine>, t: Trail, today: int)
    requires BuiltAt(s.worlds, t, lines, g) && t.built <= t.first <= t.second <= t.third == |s.worlds| - 1
    requires today == s.worlds[t.first].today
    requires !g.first(s.worlds[t.first]) && !g.second(s.worlds[t.second])
    requires !g.lines(lines, s.worlds[t.third], today)
    ensures Passed(s.worlds, t, lines, g)
  {
  }

  lemma LockedStepsKeep(s: System, i: nat, g: Gate, c: Request, lines: seq<PayloadLine>, pc: ClosePc,
                        trail: Trail)
    requires Inv(s, g) && i < |s.jobs| && s.jobs[i] == Closing(c, lines, pc, trail) && (pc.Waiting? || pc.Holding?)
    ensures Inv(Advance(s, i, g), g) && Grows(s, Advance(s, i, g))
  {
    assert JobOk(s, g, s.jobs[i]);
    NextExtendsChain(s.period, lines, c.reason);
    var t := Advance(s, i, g);
    if t != s { ReplacedKeeps(s, i, t.jobs[i], g); }
  }

  lemma WriteKeeps(s: System, i: nat, g: Gate, c: Request, lines: seq<PayloadLine>, pc: ClosePc,
                   trail: Trail)
    requires Inv(s, g) && i < |s.jobs| && s.jobs[i] == Closing(c, lines, pc, trail) && pc.Inserted?
    ensures Inv(Advance(s, i, g), g) && Grows(s, Advance(s, i, g))
  {
    assert JobOk(s, g, s.jobs[i]);
    NextExtendsChain(s.period, lines, c.reason);
    var t, n := Advance(s, i, g), |s.period.snapshots|;
    forall k | 0 <= k < |t.trails|
      ensures Passed(t.worlds, t.trails[k].1, t.period.snapshots[k].lines, g)
        && (t.trails[k].0 ==> t.trails[k].1.looked == 0) {
      if k < n { assert t.trails[k] == s.trails[k] && t.period.snapshots[k] == s.period.snapshots[k]; }
    }
    CommitKeeps(s, i, Wrote(n), t, g);
  }

  lemma ReopenKeeps(s: System, i: nat, g: Gate, reason: string, holding: bool)
    requires Inv(s, g) && i < |s.jobs| && s.jobs[i] == Reopening(reason, holding)
    ensures Inv(Advance(s, i, g), g) && Grows(s, Advance(s, i, g))
  {
    var t := Advance(s, i, g);
    if !BlankText(reason) && holding {
      CommitKeeps(s, i, Reopened, t, g);
    } else if t != s {
      ReplacedKeeps(s, i, t.jobs[i], g);
    }
  }

  lemma ArriveKeeps(s: System, job: Job, g: Gate)
    requires Inv(s, g) && MayArrive(job)
    ensures Inv(s.(jobs := s.jobs + [job]), g)
  {
    var t := s.(jobs := s.jobs + [job]);
    forall j | 0 <= j < |t.jobs| ensures JobOk(t, g, t.jobs[j]) {
      if j < |s.jobs| { SamePeriodSameJob(s, t, g, s.jobs[j]); assert JobOk(s, g, s.jobs[j]); }
    }
  }

  lemma PassedLater(a: seq<World>, b: seq<World>, t: Trail, lines: seq<PayloadLine>, g: Gate)
    requires a <= b && Passed(a, t, lines, g)
    ensures Passed(b, t, lines, g)
  {
    assert b[t.built] == a[t.built] && b[t.first] == a[t.first] && b[t.second] == a[t.second]
      && b[t.third] == a[t.third];
  }

  lemma WorldKeeps(s: System, w: World, g: Gate)
    requires Inv(s, g) && s.worlds[|s.worlds| - 1].today <= w.today
    ensures Inv(s.(worlds := s.worlds + [w]), g)
  {
    var t := s.(worlds := s.worlds + [w]);
    forall k | 0 <= k < |t.trails| ensures Passed(t.worlds, t.trails[k].1, t.period.snapshots[k].lines, g) {
      PassedLater(s.worlds, t.worlds, s.trails[k].1, s.period.snapshots[k].lines, g);
    }
    forall j | 0 <= j < |t.jobs| ensures JobOk(t, g, t.jobs[j]) {
      assert JobOk(s, g, s.jobs[j]);
      if s.jobs[j].Closing? && Passed(s.worlds, s.jobs[j].trail, s.jobs[j].lines, g) {
        PassedLater(s.worlds, t.worlds, s.jobs[j].trail, s.jobs[j].lines, g);
      }
    }
  }

  lemma StepKeeps(s: System, choice: Choice, g: Gate)
    requires Inv(s, g)
    ensures Inv(Step(s, choice, g), g) && Grows(s, Step(s, choice, g))
  {
    match choice
    case Arrive(job) => if MayArrive(job) { ArriveKeeps(s, job, g); }
    case Meanwhile(w) => if s.worlds[|s.worlds| - 1].today <= w.today { WorldKeeps(s, w, g); }
    case Go(i) =>
      if i < |s.jobs| {
        match s.jobs[i]
        case Closing(c, lines, pc, trail) =>
          if pc.Inserted? { WriteKeeps(s, i, g, c, lines, pc, trail); }
          else if pc.Waiting? || pc.Holding? { LockedStepsKeep(s, i, g, c, lines, pc, trail); }
          else if pc.CheckingLines? { LineChecksKeep(s, i, g, c, lines, pc.today, pc.found, trail); }
          else { EarlyChecksKeep(s, i, g, c, lines, pc, trail); }
        case Reopening(reason, holding) => ReopenKeeps(s, i, g, reason, holding);
        case Done(_) =>
      }
  }

  lemma {:induction false} RunKeeps(start: World, schedule: seq<Choice>, g: Gate)
    ensures Inv(Run(start, schedule, g), g)
  {
    if schedule != [] {
      RunKeeps(start, schedule[..|schedule| - 1], g);
      StepKeeps(Run(start, schedule[..|schedule| - 1], g), schedule[|schedule| - 1], g);
    }
  }

  // ---- Main results ----

  /** Under any interleaving the snapshots are versions 1..n, each superseding the one before; a closed period has
      one; and a further version always needs a further reopening. */
  lemma SnapshotsFormAChain(start: World, schedule: seq<Choice>, g: Gate)
    ensures var s := Run(start, schedule, g); var n := |s.period.snapshots|;
      && (forall k :: 0 <= k < n ==>
            s.period.snapshots[k].version == k + 1
              && s.period.snapshots[k].supersedes == (if k == 0 then None else Some(k - 1)))
      && (s.period.status == Closed ==> 1 <= n <= s.reopens + 1)
      && (s.period.status == Draft ==> n <= s.reopens)
  {
    RunKeeps(start, schedule, g);
  }

  /** And once stored a snapshot is never changed or removed. */
  lemma {:induction false} SnapshotsAreImmutable(start: World, schedule: seq<Choice>, more: seq<Choice>, g: Gate)
    ensures Run(start, schedule, g).period.snapshots <= Run(start, schedule + more, g).period.snapshots
    ensures Grows(Run(start, schedule, g), Run(start, schedule + more, g))
    decreases |more|
  {
    if more == [] {
      assert schedule + more == schedule;
    } else {
      var n := |more| - 1;
      SnapshotsAreImmutable(start, schedule, more[..n], g);
      assert (schedule + more)[..|schedule + more| - 1] == schedule + more[..n];
      RunKeeps(start, schedule + more[..n], g);
      StepKeeps(Run(start, schedule + more[..n], g), more[n], g);
    }
  }

  /** What an automatic run writes is version 1 if and only if nothing was stored between its look and its write. */
  lemma AutomaticVersions(start: World, schedule: seq<Choice>, g: Gate, k: nat)
    requires k < |Run(start, schedule, g).trails| && Run(start, schedule, g).trails[k].0
    ensures var s := Run(start, schedule, g);
      k < |s.period.snapshots| && (s.period.snapshots[k].version == 1 <==> k == s.trails[k].1.looked)
  {
    RunKeeps(start, schedule, g);
  }

  /** A closed period goes back to draft only by the reopening of somebody who gave a reason that says something. */
  lemma ReopenedOnlyWithReason(s: System, i: nat, g: Gate)
    requires i < |s.jobs| && s.worlds != []
    ensures var t, job := Advance(s, i, g), s.jobs[i];
      (s.period.status == Closed && t.period.status == Draft) || t.reopens != s.reopens ==>
        && job.Reopening? && (exists k :: 0 <= k < |job.reason| && !IsSpace(job.reason[k]))
        && t.period == Period(Draft, s.period.snapshots) && t.reopens == s.reopens + 1
  {
  }

  /** Somebody asked for a close with this reason. */
  predicate Asked(schedule: seq<Choice>, c: Request) {
    exists k :: 0 <= k < |schedule| && schedule[k].Arrive? && schedule[k].job.Closing? && schedule[k].job.c == c
  }

  predicate AllAsked(schedule: seq<Choice>, s: System) {
    && (forall i :: 0 <= i < |s.jobs| && s.jobs[i].Closing? ==> Asked(schedule, s.jobs[i].c))
    && |s.trails| == |s.period.snapshots|
    && forall k :: 0 <= k < |s.trails| ==> Asked(schedule, Request(s.period.snapshots[k].reason, s.trails[k].0))
  }

  lemma StillAsked(schedule: seq<Choice>, choice: Choice, s: System)
    requires AllAsked(schedule, s)
    ensures AllAsked(schedule + [choice], s)
  {
    var all := schedule + [choice];
    forall c | Asked(schedule, c) ensures Asked(all, c) {
      var k :| 0 <= k < |schedule| && schedule[k].Arrive? && schedule[k].job.Closing? && schedule[k].job.c == c;
      assert all[k] == schedule[k];
    }
  }

  /** The step of one job changes only that job, and writes with the reason it was asked with. */
  lemma AdvanceWrites(s: System, i: nat, g: Gate) returns (stored: Snapshot)
    requires i < |s.jobs| && s.worlds != [] && JobOk(s, g, s.jobs[i])
    ensures var t, job := Advance(s, i, g), s.jobs[i];
      && |t.jobs| == |s.jobs| && t.jobs == s.jobs[i := t.jobs[i]]
      && (t.jobs[i].Closing? ==> job.Closing? && t.jobs[i].c == job.c)
      && (|| (t.period.snapshots == s.period.snapshots && t.trails == s.trails)
          || (job.Closing? && stored.reason == job.c.reason && t.period.snapshots == s.period.snapshots + [stored]
              && t.trails == s.trails + [(job.c.automatic, job.trail)]))
  {
    if s.jobs[i].Closing? && s.jobs[i].pc.Inserted? {
      stored := s.jobs[i].pc.snapshot;
    } else {
      stored := NextSnapshot(s.period, [], "");
    }
  }

  lemma AdvanceAsked(all: seq<Choice>, s: System, i: nat, g: Gate)
    requires i < |s.jobs| && s.worlds != [] && JobOk(s, g, s.jobs[i]) && AllAsked(all, s)
    ensures AllAsked(all, Advance(s, i, g))
  {
    var stored := AdvanceWrites(s, i, g);
  }

  lemma StepAsked(all: seq<Choice>, s: System, choice: Choice, g: Gate)
    requires Inv(s, g) && AllAsked(all, s) && choice in all
    ensures AllAsked(all, Step(s, choice, g))
  {
    if choice.Go? && choice.i < |s.jobs| {
      AdvanceAsked(all, s, choice.i, g);
    }
  }

  /** Every snapshot a run stores carries the reason its close was asked for with, and is marked automatic exactly when
      the finalizer asked. */
  lemma {:induction false} SnapshotsCarryTheirReason(start: World, schedule: seq<Choice>, g: Gate)
    ensures AllAsked(schedule, Run(start, schedule, g))
  {
    if schedule != [] {
      var n := |schedule| - 1;
      var front := Run(start, schedule[..n], g);
      SnapshotsCarryTheirReason(start, schedule[..n], g);
      RunKeeps(start, schedule[..n], g);
      StillAsked(schedule[..n], schedule[n], front);
      assert schedule[..n] + [schedule[n]] == schedule;
      StepAsked(schedule, front, schedule[n], g);
    }
  }

  // ---- An automatic run without interference writes version 1 ----

  function Alone(s: System, i: nat, g: Gate, steps: nat): (t: System)
    requires i < |s.jobs| && s.worlds != []
    ensures |t.jobs| == |s.jobs| && t.worlds == s.worlds
  {
    if steps == 0 then s else Advance(Alone(s, i, g, steps - 1), i, g)
  }

  /** An automatic close that has not gone past its look, or found no snapshot. */
  predicate AutomaticOnEmpty(p: Period, job: Job) {
    job.Closing? && job.c.automatic && (job.pc == Looking || p.snapshots == [])
  }

  /** Either nothing was written since `before`, or version 1 of an empty period. */
  predicate AtMostFirst(before: Period, t: System, i: nat) {
    i < |t.jobs| &&
    if t.period == before then t.jobs[i].Done? || AutomaticOnEmpty(t.period, t.jobs[i])
    else before.snapshots == [] && |t.period.snapshots| == 1 && t.period.snapshots[0].version == 1 && t.jobs[i].Done?
  }

  lemma OneAutomaticStep(s: System, i: nat, g: Gate)
    requires Inv(s, g) && i < |s.jobs| && AutomaticOnEmpty(s.period, s.jobs[i])
    ensures AtMostFirst(s.period, Advance(s, i, g), i)
  {
    assert JobOk(s, g, s.jobs[i]);
    var job := s.jobs[i];
    if job.pc.Inserted? {
      assert s.period.snapshots == [] && job.pc.snapshot.version == 1;
    }
  }

  lemma AnotherAutomaticStep(before: Period, s: System, i: nat, g: Gate)
    requires Inv(s, g) && AtMostFirst(before, s, i)
    ensures Inv(Advance(s, i, g), g) && AtMostFirst(before, Advance(s, i, g), i)
  {
    StepKeeps(s, Go(i), g);
    if !s.jobs[i].Done? { OneAutomaticStep(s, i, g); }
  }

  /** However many of its steps run in a row, an automatic close writes version 1 of an empty period or nothing. */
  lemma {:induction false} UndisturbedAutomaticWritesVersionOne(s: System, i: nat, g: Gate, steps: nat)
    requires Inv(s, g) && i < |s.jobs| && AutomaticOnEmpty(s.period, s.jobs[i])
    ensures Inv(Alone(s, i, g, steps), g) && AtMostFirst(s.period, Alone(s, i, g, steps), i)
  {
    AutomaticSteps(s.period, s, i, g, steps);
  }

  lemma {:induction false} AutomaticSteps(before: Period, s: System, i: nat, g: Gate, steps: nat)
    requires Inv(s, g) && AtMostFirst(before, s, i)
    ensures Inv(Alone(s, i, g, steps), g) && AtMostFirst(before, Alone(s, i, g, steps), i)
  {
    if steps > 0 {
      AutomaticSteps(before, s, i, g, steps - 1);
      AnotherAutomaticStep(before, Alone(s, i, g, steps - 1), i, g);
    }
  }

  // ---- With interference it can write version 2 ----

  lemma RunSnoc(start: World, schedule: seq<Choice>, choice: Choice, g: Gate)
    ensures Run(start, schedule + [choice], g) == Step(Run(start, schedule, g), choice, g)
  {
    assert (schedule + [choice])[..|schedule|] == schedule;
  }

  ghost predicate NobodyHolds(s: System) { forall j :: 0 <= j < |s.jobs| ==> !Holds(s.jobs[j]) }

  predicate AllPass(g: Gate, w: World, lines: seq<PayloadLine>) {
    !g.first(w) && !g.second(w) && !g.lines(lines, w, w.today)
  }

  /** In a world that lets the month close, the three checks of a closing job pass one after another. */
  lemma ChecksPass(s: System, i: nat, g: Gate, c: Request, lines: seq<PayloadLine>, trail: Trail) returns (t: Trail)
    requires i < |s.jobs| && s.worlds != [] && s.jobs[i] == Closing(c, lines, CheckingOpen, trail)
    requires AllPass(g, s.worlds[|s.worlds| - 1], lines)
    ensures Alone(s, i, g, 3) == Become(s, i, Closing(c, lines, Waiting, t))
  {
    var n, w := |s.worlds| - 1, s.worlds[|s.worlds| - 1];
    var t1 := trail.(first := n);
    var t2 := t1.(second := n);
    t := t2.(third := n);
    assert Alone(s, i, g, 1) == Become(s, i, Closing(c, lines, CheckingApprovals(w.today, false), t1));
    assert Alone(s, i, g, 2) == Become(s, i, Closing(c, lines, CheckingLines(w.today, false), t2));
    assert Alone(s, i, g, 3) == Become(s, i, Closing(c, lines, Waiting, t));
  }

  /** With the lock free and the period in draft it then writes the next version. */
  lemma WritesNext(s: System, i: nat, g: Gate, c: Request, lines: seq<PayloadLine>, t: Trail)
    requires i < |s.jobs| && s.worlds != [] && s.jobs[i] == Closing(c, lines, Waiting, t) && Chain(s.period.snapshots)
    requires NobodyHolds(s) && s.period.status == Draft
    ensures var n := |s.period.snapshots|; var u := Alone(s, i, g, 3);
      && u.jobs == s.jobs[i := Done(Wrote(n))] && u.trails == s.trails + [(c.automatic, t)]
      && u.period == Period(Closed, s.period.snapshots + [NextSnapshot(s.period, lines, c.reason)])
  {
    NextExtendsChain(s.period, lines, c.reason);
    var inserted := Inserted(NextSnapshot(s.period, lines, c.reason));
    assert Alone(s, i, g, 1) == Become(s, i, Closing(c, lines, Holding, t));
    assert Alone(s, i, g, 2) == Become(s, i, Closing(c, lines, inserted, t));
  }

  lemma {:induction false} AloneIsARun(start: World, schedule: seq<Choice>, i: nat, g: Gate, steps: nat)
    returns (all: seq<Choice>)
    requires i < |Run(start, schedule, g).jobs|
    ensures Run(start, all, g) == Alone(Run(start, schedule, g), i, g, steps)
  {
    if steps == 0 {
      all := schedule;
    } else {
      var front := AloneIsARun(start, schedule, i, g, steps - 1);
      all := front + [Go(i)];
      RunSnoc(start, front, Go(i), g);
    }
  }

  /** A close with its payload in hand, in a world that lets it through, stores that payload. */
  ghost predicate Completed(s: System, u: System, i: nat, c: Request, lines: seq<PayloadLine>) {
    var n := |s.period.snapshots|;
    && i < |s.jobs| && u.worlds == s.worlds && u.jobs == s.jobs[i := Done(Wrote(n))]
    && |u.trails| == |s.trails| + 1 && u.trails[..|s.trails|] == s.trails && u.trails[|s.trails|].0 == c.automatic
    && |u.period.snapshots| == n + 1 && u.period.snapshots[n].lines == lines && u.period.status == Closed
  }

  lemma CloseCompletes(start: World, schedule: seq<Choice>, i: nat, g: Gate, c: Request, lines: seq<PayloadLine>,
                       trail: Trail)
    returns (all: seq<Choice>)
    requires var s := Run(start, schedule, g);
      && i < |s.jobs| && s.jobs[i] == Closing(c, lines, CheckingOpen, trail)
      && NobodyHolds(s) && s.period.status == Draft && AllPass(g, s.worlds[|s.worlds| - 1], lines)
    ensures Completed(Run(start, schedule, g), Run(start, all, g), i, c, lines)
  {
    var s := Run(start, schedule, g);
    RunKeeps(start, schedule, g);
    var t := ChecksPass(s, i, g, c, lines, trail);
    var checked := AloneIsARun(start, schedule, i, g, 3);
    WritesNext(Run(start, checked, g), i, g, c, lines, t);
    all := AloneIsARun(start, checked, i, g, 3);
  }

  lemma Arrives(start: World, schedule: seq<Choice>, g: Gate, job: Job)
    requires MayArrive(job)
    ensures var s := Run(start, schedule, g);
      Run(start, schedule + [Arrive(job)], g) == s.(jobs := s.jobs + [job])
  {
    RunSnoc(start, schedule, Arrive(job), g);
  }

  /** A close arrives and builds its payload. */
  lemma ArrivesAndBuilds(start: World, schedule: seq<Choice>, g: Gate, c: Request, lines: seq<PayloadLine>)
    returns (all: seq<Choice>)
    requires var s := Run(start, schedule, g);
      s.period.snapshots == [] && g.build(s.worlds[|s.worlds| - 1]) == Some(lines)
    ensures var s := Run(start, schedule, g);
      Run(start, all, g) == s.(jobs := s.jobs + [Closing(c, lines, CheckingOpen, BuiltNow(s))])
  {
    var s, i := Run(start, schedule, g), |Run(start, schedule, g).jobs|;
    var job := Closing(c, [], if c.automatic then Looking else Building, NO_TRAIL);
    Arrives(start, schedule, g, job);
    var arrived := schedule + [Arrive(job)];
    all := AloneIsARun(start, arrived, i, g, if c.automatic then 2 else 1);
    Builds(s.(jobs := s.jobs + [job]), i, g, c, lines);
    assert (s.jobs + [job])[i := Closing(c, lines, CheckingOpen, BuiltNow(s))]
        == s.jobs + [Closing(c, lines, CheckingOpen, BuiltNow(s))];
  }

  function BuiltNow(s: System): Trail
    requires s.worlds != []
  {
    NO_TRAIL.(built := |s.worlds| - 1)
  }

  lemma Builds(s: System, i: nat, g: Gate, c: Request, lines: seq<PayloadLine>)
    requires i < |s.jobs| && s.worlds != [] && s.period.snapshots == []
    requires s.jobs[i] == Closing(c, [], if c.automatic then Looking else Building, NO_TRAIL)
    requires g.build(s.worlds[|s.worlds| - 1]) == Some(lines)
    ensures Alone(s, i, g, if c.automatic then 2 else 1)
         == Become(s, i, Closing(c, lines, CheckingOpen, BuiltNow(s)))
  {
    if c.automatic {
      assert Alone(s, i, g, 1) == Become(s, i, Closing(c, [], Building, NO_TRAIL));
      assert Alone(s, i, g, 2) == Become(s, i, Closing(c, lines, CheckingOpen, BuiltNow(s)));
    } else {
      assert Alone(s, i, g, 1) == Become(s, i, Closing(c, lines, CheckingOpen, BuiltNow(s)));
    }
  }

  /** The automatic run looks at an empty period and builds; a manager closes and reopens the month; the automatic run
      goes on and supersedes the manager's version, although a reopened month is meant to be left to the manager. */
  lemma LateAutomaticRunSupersedes(start: World, g: Gate, lines: seq<PayloadLine>) returns (schedule: seq<Choice>)
    requires g.build(start) == Some(lines) && AllPass(g, start, lines)
    ensures var s := Run(start, schedule, g);
      && |s.trails| == |s.period.snapshots| == 2 && !s.trails[0].0 && s.trails[1].0
      && s.period.snapshots[1].version == 2
  {
    var auto, manual := Request(AUTOMATIC, true), Request("", false);
    var first := ArrivesAndBuilds(start, [], g, auto, lines);
    var second := ArrivesAndBuilds(start, first, g, manual, lines);
    Arrives(start, second, g, Reopening("x", false));
    var third := second + [Arrive(Reopening("x", false))];
    var trail := NO_TRAIL;
    var closed := CloseCompletes(start, third, 1, g, manual, lines, trail);
    var s := Run(start, closed, g);
    var reopened := AloneIsARun(start, closed, 2, g, 2);
    assert !BlankText("x") by { assert !IsSpace("x"[0]); }
    ReopensAlone(s, 2, g, "x");
    schedule := CloseCompletes(start, reopened, 0, g, auto, lines, trail);
    RunKeeps(start, schedule, g);
  }

  lemma ReopensAlone(s: System, i: nat, g: Gate, reason: string)
    requires i < |s.jobs| && s.worlds != [] && s.jobs[i] == Reopening(reason, false)
    requires !BlankText(reason) && NobodyHolds(s)
    ensures var u := Alone(s, i, g, 2);
      u.jobs == s.jobs[i := Done(Reopened)] && u.period == s.period.(status := Draft) && u.trails == s.trails
  {
    assert Alone(s, i, g, 1) == Become(s, i, Reopening(reason, true));
  }

  // ---- A payload is as old as its building ----

  /** What changes between the building of a payload and the checks is not in the snapshot: for any two worlds, of which
      the first builds a payload and the second lets it through, the month is closed in the second with the payload of
      the first. */
  lemma LateChangeIsNotPaid(before: World, after: World, g: Gate, lines: seq<PayloadLine>)
    returns (schedule: seq<Choice>)
    requires g.build(before) == Some(lines) && AllPass(g, after, lines) && before.today <= after.today
    ensures var s := Run(before, schedule, g);
      && s.worlds == [before, after] && s.period.status == Closed
      && |s.period.snapshots| == 1 && s.period.snapshots[0].lines == lines
  {
    var manual := Request("", false);
    var built := ArrivesAndBuilds(before, [], g, manual, lines);
    RunSnoc(before, built, Meanwhile(after), g);
    var changed := built + [Meanwhile(after)];
    schedule := CloseCompletes(before, changed, 0, g, manual, lines, NO_TRAIL);
  }
}
