/** PIN verification as it runs: a call reads the record, compares, and saves what it computed from its own reading.
    There is no lock and no transaction, so calls for one employee may interleave. */
module PinRun {
  import opened TimeCalculation
  import opened PinThrottle

  datatype Call =
    | Calling(g: Guess)                                   // clock read; about to read the record
    | Saving(g: Guess, read: Record, next: Record)        // PIN compared; about to save
    | Answered(g: Guess, a: PinResult)

  /** `checked` is history: the guesses that were compared and answered, in the order in which they were answered. */
  datatype System = System(record: Record, calls: seq<Call>, checked: seq<Guess>)

  function Start(record: Record): System { System(record, [], []) }

  function Become(s: System, i: nat, call: Call): System
    requires i < |s.calls|
  {
    s.(calls := s.calls[i := call])
  }

  function Advance(s: System, i: nat): System
    requires i < |s.calls|
  {
    match s.calls[i]
    case Calling(g) =>
      if g.master then Become(s, i, Answered(g, PinResult(true, false)))
      else if Locked(s.record, g.now) then Become(s, i, Answered(g, PinResult(false, true)))
      else if !g.employed then Become(s, i, Answered(g, PinResult(false, false)))
      else if g.right && s.record == FRESH then
        Become(s, i, Answered(g, PinResult(true, false))).(checked := s.checked + [g])
      else Become(s, i, Saving(g, s.record, AfterGuess(s.record, g)))
    case Saving(g, read, next) =>
      Become(s, i, Answered(g, PinResult(g.right, Locked(next, g.now)))).(record := next, checked := s.checked + [g])
    case Answered(_, _) => s
  }

  datatype Choice = Arrive(g: Guess) | Go(i: nat)

  function Step(s: System, choice: Choice): System {
    match choice
    case Arrive(g) => s.(calls := s.calls + [Calling(g)])
    case Go(i) => if i < |s.calls| then Advance(s, i) else s
  }

  function Run(s: System, schedule: seq<Choice>): System {
    if schedule == [] then s else Step(Run(s, schedule[..|schedule| - 1]), schedule[|schedule| - 1])
  }

  lemma RunSnoc(s: System, schedule: seq<Choice>, choice: Choice)
    ensures Run(s, schedule + [choice]) == Step(Run(s, schedule), choice)
  {
    assert (schedule + [choice])[..|schedule|] == schedule;
  }

  // ---- The counter, under every interleaving ----

  ghost predicate Counted(s: System) {
    && s.record.failed < MAX_ATTEMPTS
    && forall i :: 0 <= i < |s.calls| && s.calls[i].Saving? ==>
         s.calls[i].read.failed < MAX_ATTEMPTS && s.calls[i].next == AfterGuess(s.calls[i].read, s.calls[i].g)
  }

  lemma {:induction false} CounterStaysBelowTheLimitAlways(s: System, schedule: seq<Choice>)
    requires Counted(s)
    ensures Counted(Run(s, schedule))
  {
    if schedule != [] { CounterStaysBelowTheLimitAlways(s, schedule[..|schedule| - 1]); }
  }

  /** What one step of a call writes, in plain numbers. A checked right PIN clears the record, or finds it clear and
      writes nothing; a checked wrong one adds a failure to what it has read; no other call writes. */
  lemma CallsWrite(s: System, i: nat)
    requires Computed(s) && i < |s.calls|
    ensures s.calls[i].Saving? && s.calls[i].g.right ==> Advance(s, i).record == Record(0, None)
    ensures s.calls[i].Saving? && !s.calls[i].g.right ==>
      Advance(s, i).record == OneFailureMore(s.calls[i].read, s.calls[i].g.now)
    ensures s.calls[i].Saving? ==>
      Advance(s, i).calls[i] == Answered(s.calls[i].g, PinResult(s.calls[i].g.right,
                                                                 !s.calls[i].g.right && s.calls[i].read.failed >= 9))
    ensures !s.calls[i].Saving? ==> Advance(s, i).record == s.record
    ensures s.calls[i].Calling? ==>
      (Advance(s, i).calls[i].Saving? <==> Compared(s.record, s.calls[i].g) && !RightAndClear(s, i))
    ensures s.calls[i].Calling? && RightAndClear(s, i) ==>
      Advance(s, i).calls[i] == Answered(s.calls[i].g, PinResult(true, false))
    ensures s.calls[i].Calling? && !Compared(s.record, s.calls[i].g) ==>
      Advance(s, i).calls[i] == Answered(s.calls[i].g, PinResult(s.calls[i].g.master, SaysWait(s.record, s.calls[i].g)))
  {
    if s.calls[i].Saving? { GuessesDo(s.calls[i].read, s.calls[i].g); }
    if s.calls[i].Calling? { GuessesDo(s.record, s.calls[i].g); }
  }

  /** A lock is running, and the master PIN was not used. */
  predicate SaysWait(r: Record, g: Guess) { !g.master && r.lockedUntil.Some? && g.now < r.lockedUntil.value }

  predicate RightAndClear(s: System, i: nat)
    requires i < |s.calls|
  {
    Compared(s.record, s.calls[i].g) && s.calls[i].g.right && s.record == Record(0, None)
  }

  // ---- The rate ----

  /** A save is undisturbed when it finds the record that its call has read. */
  predicate Undisturbed(s: System, choice: Choice) {
    choice.Go? && choice.i < |s.calls| && s.calls[choice.i].Saving? ==> s.record == s.calls[choice.i].read
  }

  ghost predicate NothingLost(s: System, schedule: seq<Choice>) {
    forall n :: 0 <= n < |schedule| ==> Undisturbed(Run(s, schedule[..n]), schedule[n])
  }

  lemma NothingLostSnoc(s: System, schedule: seq<Choice>)
    requires schedule != [] && NothingLost(s, schedule)
    ensures NothingLost(s, schedule[..|schedule| - 1])
    ensures Undisturbed(Run(s, schedule[..|schedule| - 1]), schedule[|schedule| - 1])
  {
    var front := schedule[..|schedule| - 1];
    forall n | 0 <= n < |front| ensures Undisturbed(Run(s, front[..n]), front[n]) {
      assert front[..n] == schedule[..n];
    }
  }

  /** What every call about to save has compared and computed. */
  ghost predicate Computed(s: System) {
    forall i :: 0 <= i < |s.calls| && s.calls[i].Saving? ==>
      Checked(s.calls[i].read, s.calls[i].g) && s.calls[i].next == AfterGuess(s.calls[i].read, s.calls[i].g)
  }

  lemma {:induction false} ComputedThroughout(record: Record, schedule: seq<Choice>)
    ensures Computed(Run(Start(record), schedule))
  {
    if schedule != [] { ComputedThroughout(record, schedule[..|schedule| - 1]); }
  }

  /** The record is what the checked guesses make of it one after another, each of them being checked then too. */
  ghost predicate Sequential(record: Record, s: System) {
    s.record == After(record, s.checked) && CheckedCount(record, s.checked) == |s.checked|
  }

  ghost predicate SequentialThroughout(record: Record, schedule: seq<Choice>) {
    forall n :: 0 <= n <= |schedule| ==> Sequential(record, Run(Start(record), schedule[..n]))
  }

  /** A save is in order when its guess, compared with the record that the save finds, would be checked and give what is
      saved. */
  predicate InOrder(s: System, choice: Choice) {
    choice.Go? && choice.i < |s.calls| && s.calls[choice.i].Saving? ==>
      var call := s.calls[choice.i];
      Checked(s.record, call.g) && call.next == AfterGuess(s.record, call.g)
  }

  ghost predicate AllInOrder(s: System, schedule: seq<Choice>) {
    forall n :: 0 <= n < |schedule| ==> InOrder(Run(s, schedule[..n]), schedule[n])
  }

  lemma StepStaysSequentialIff(record: Record, s: System, choice: Choice)
    requires Sequential(record, s)
    ensures Sequential(record, Step(s, choice)) <==> InOrder(s, choice)
  {
    if choice.Go? && choice.i < |s.calls| { GuessSnoc(record, s.checked, s.calls[choice.i].g); }
  }

  lemma SequentialSnoc(record: Record, schedule: seq<Choice>)
    requires schedule != []
    ensures SequentialThroughout(record, schedule) <==>
      && SequentialThroughout(record, schedule[..|schedule| - 1])
      && Sequential(record, Run(Start(record), schedule))
  {
    var front := schedule[..|schedule| - 1];
    assert schedule[..|schedule|] == schedule;
    assert forall n :: 0 <= n <= |front| ==> front[..n] == schedule[..n];
  }

  lemma InOrderSnoc(s: System, schedule: seq<Choice>)
    requires schedule != []
    ensures var m := |schedule| - 1;
      AllInOrder(s, schedule) <==> AllInOrder(s, schedule[..m]) && InOrder(Run(s, schedule[..m]), schedule[m])
  {
    var m := |schedule| - 1;
    var front := schedule[..m];
    if AllInOrder(s, schedule) {
      forall n | 0 <= n < m ensures InOrder(Run(s, front[..n]), front[n]) {
        assert front[..n] == schedule[..n] && InOrder(Run(s, schedule[..n]), schedule[n]);
      }
    }
    if AllInOrder(s, front) && InOrder(Run(s, front), schedule[m]) {
      forall n | 0 <= n < |schedule| ensures InOrder(Run(s, schedule[..n]), schedule[n]) {
        if n < m { assert front[..n] == schedule[..n] && InOrder(Run(s, front[..n]), front[n]); }
      }
    }
  }

  /** Interleaved calls do to the record what their checked guesses do one after another, throughout a run, if and only
      if every save of the run is in order. */
  lemma {:induction false} SequentialIffInOrder(record: Record, schedule: seq<Choice>)
    ensures SequentialThroughout(record, schedule) <==> AllInOrder(Start(record), schedule)
  {
    if schedule == [] {
      assert schedule[..0] == schedule;
    } else {
      var m := |schedule| - 1;
      SequentialIffInOrder(record, schedule[..m]);
      SequentialSnoc(record, schedule);
      InOrderSnoc(Start(record), schedule);
      if SequentialThroughout(record, schedule[..m]) {
        assert schedule[..m][..m] == schedule[..m];
        StepStaysSequentialIff(record, Run(Start(record), schedule[..m]), schedule[m]);
      }
    }
  }

  /** A save that finds the record its call has read is in order, so such runs are sequential. */
  lemma {:induction false} NothingLostIsInOrder(record: Record, schedule: seq<Choice>)
    requires NothingLost(Start(record), schedule)
    ensures AllInOrder(Start(record), schedule)
  {
    if schedule != [] {
      var m := |schedule| - 1;
      NothingLostSnoc(Start(record), schedule);
      NothingLostIsInOrder(record, schedule[..m]);
      ComputedThroughout(record, schedule[..m]);
      InOrderSnoc(Start(record), schedule);
    }
  }

  predicate WrongWithin(g: Guess, start: int, span: nat) { !g.right && !g.master && start <= g.now <= start + span }

  ghost predicate ArrivalsWrong(schedule: seq<Choice>, start: int, span: nat) {
    forall n :: 0 <= n < |schedule| && schedule[n].Arrive? ==> WrongWithin(schedule[n].g, start, span)
  }

  ghost predicate AllWrong(s: System, start: int, span: nat) {
    && (forall i :: 0 <= i < |s.calls| ==> WrongWithin(s.calls[i].g, start, span))
    && (forall k :: 0 <= k < |s.checked| ==> WrongWithin(s.checked[k], start, span))
  }

  lemma {:induction false} OnlyArrivalsAreChecked(record: Record, schedule: seq<Choice>, start: int, span: nat)
    requires ArrivalsWrong(schedule, start, span)
    ensures AllWrong(Run(Start(record), schedule), start, span)
  {
    if schedule != [] {
      var front := schedule[..|schedule| - 1];
      assert forall n :: 0 <= n < |front| ==> front[n] == schedule[n];
      OnlyArrivalsAreChecked(record, front, start, span);
      StepKeepsWrong(Run(Start(record), front), schedule[|schedule| - 1], start, span);
    }
  }

  lemma StepKeepsWrong(s: System, choice: Choice, start: int, span: nat)
    requires AllWrong(s, start, span) && (choice.Arrive? ==> WrongWithin(choice.g, start, span))
    ensures AllWrong(Step(s, choice), start, span)
  {
    if choice.Go? && choice.i < |s.calls| { assert WrongWithin(s.calls[choice.i].g, start, span); }
  }

  lemma WrongOnesAreLimited(record: Record, guesses: seq<Guess>, start: int, span: nat)
    requires record.failed < MAX_ATTEMPTS && forall k :: 0 <= k < |guesses| ==> WrongWithin(guesses[k], start, span)
    ensures CheckedCount(record, guesses) <= MAX_ATTEMPTS * (span / LOCKOUT + 1) - record.failed
  {
    GuessesAreRateLimited(record, guesses, start, span);
  }

  /** In any run of wrong guesses, overlapping or not, whose saves are in order, at most 10·(⌊span / 15 min⌋ + 1)
      guesses of a span are checked and answered. */
  lemma RateLimitedInOrder(record: Record, schedule: seq<Choice>, start: int, span: nat)
    requires record.failed < MAX_ATTEMPTS && ArrivalsWrong(schedule, start, span)
    requires AllInOrder(Start(record), schedule)
    ensures |Run(Start(record), schedule).checked| <= MAX_ATTEMPTS * (span / LOCKOUT + 1) - record.failed
  {
    SequentialIffInOrder(record, schedule);
    assert schedule[..|schedule|] == schedule;
    assert Sequential(record, Run(Start(record), schedule));
    OnlyArrivalsAreChecked(record, schedule, start, span);
    WrongOnesAreLimited(record, Run(Start(record), schedule).checked, start, span);
  }

  // ---- The rate of every run ----

  /** How many saves of a run are out of order. */
  function Disorders(s: System, schedule: seq<Choice>): nat {
    if schedule == [] then 0
    else
      var front, last := schedule[..|schedule| - 1], schedule[|schedule| - 1];
      Disorders(s, front) + (if InOrder(Run(s, front), last) then 0 else 1)
  }

  /** The guesses of one sequential stretch of a span. */
  function Stretch(span: nat): nat { MAX_ATTEMPTS * (span / LOCKOUT + 1) }

  /** What d stretches, each ended by a save out of order, can check. */
  function Ended(d: nat, span: nat): nat { d * (Stretch(span) + 1) }

  lemma EndedStep(d: nat, span: nat)
    ensures Ended(d + 1, span) == Ended(d, span) + Stretch(span) + 1
  {
  }

  /** Since its last save out of order a run is sequential: the guesses from `from` on lead from `base` to the
      record. */
  ghost predicate SinceDisorder(s: System, base: Record, from: nat, ended: nat) {
    && base.failed < MAX_ATTEMPTS && from <= |s.checked| && from <= ended
    && s.record == After(base, s.checked[from..]) && CheckedCount(base, s.checked[from..]) == |s.checked| - from
  }

  lemma StretchIsLimited(s: System, base: Record, from: nat, ended: nat, start: int, span: nat)
    requires SinceDisorder(s, base, from, ended) && AllWrong(s, start, span)
    ensures |s.checked| <= ended + Stretch(span)
  {
    WrongOnesAreLimited(base, s.checked[from..], start, span);
  }

  /** A step checks at most one guess; in order, it does to the record what that guess does. */
  lemma StepChecks(s: System, choice: Choice)
    ensures var t := Step(s, choice);
      || (t.record == s.record && t.checked == s.checked)
      || exists g :: t.checked == s.checked + [g]
                     && (InOrder(s, choice) ==> Checked(s.record, g) && t.record == AfterGuess(s.record, g))
  {
    if choice.Go? && choice.i < |s.calls| {
      var t, g := Step(s, choice), s.calls[choice.i].g;
      assert t.checked != s.checked ==> t.checked == s.checked + [g];
    }
  }

  lemma OneMoreInOrder(base: Record, checked: seq<Guess>, from: nat, g: Guess)
    requires from <= |checked| && Checked(After(base, checked[from..]), g)
    requires CheckedCount(base, checked[from..]) == |checked| - from
    ensures After(base, (checked + [g])[from..]) == AfterGuess(After(base, checked[from..]), g)
    ensures CheckedCount(base, (checked + [g])[from..]) == |checked| + 1 - from
  {
    assert (checked + [g])[from..] == checked[from..] + [g];
    GuessSnoc(base, checked[from..], g);
  }

  lemma InOrderContinues(s: System, choice: Choice, base: Record, from: nat, ended: nat)
    requires SinceDisorder(s, base, from, ended) && InOrder(s, choice)
    ensures SinceDisorder(Step(s, choice), base, from, ended)
  {
    var t := Step(s, choice);
    StepChecks(s, choice);
    if t.checked != s.checked {
      var g :| t.checked == s.checked + [g] && Checked(s.record, g) && t.record == AfterGuess(s.record, g);
      OneMoreInOrder(base, s.checked, from, g);
    }
  }

  lemma DisorderRestarts(s: System, choice: Choice, ended: nat)
    requires Counted(s) && |s.checked| < ended
    ensures var t := Step(s, choice); |t.checked| <= ended ==> SinceDisorder(t, t.record, |t.checked|, ended)
    ensures |Step(s, choice).checked| <= |s.checked| + 1
  {
    StepChecks(s, choice);
    var t := Step(s, choice);
    assert t.checked[|t.checked|..] == [];
    CountedStep(s, choice);
  }

  lemma CountedStep(s: System, choice: Choice)
    requires Counted(s)
    ensures Counted(Step(s, choice))
  {
  }

  lemma StepSinceDisorder(s: System, choice: Choice, base: Record, from: nat, d: nat, start: int, span: nat)
    returns (base2: Record, from2: nat)
    requires Counted(s) && AllWrong(s, start, span) && SinceDisorder(s, base, from, Ended(d, span))
    ensures SinceDisorder(Step(s, choice), base2, from2, Ended(if InOrder(s, choice) then d else d + 1, span))
  {
    if InOrder(s, choice) {
      InOrderContinues(s, choice, base, from, Ended(d, span));
      base2, from2 := base, from;
    } else {
      StretchIsLimited(s, base, from, Ended(d, span), start, span);
      EndedStep(d, span);
      DisorderRestarts(s, choice, Ended(d + 1, span));
      base2, from2 := Step(s, choice).record, |Step(s, choice).checked|;
    }
  }

  lemma {:induction false} RunSinceDisorder(record: Record, schedule: seq<Choice>, start: int, span: nat)
    returns (base: Record, from: nat)
    requires record.failed < MAX_ATTEMPTS && ArrivalsWrong(schedule, start, span)
    ensures SinceDisorder(Run(Start(record), schedule), base, from, Ended(Disorders(Start(record), schedule), span))
  {
    if schedule == [] {
      base, from := record, 0;
    } else {
      var m := |schedule| - 1;
      var front := schedule[..m];
      assert forall n :: 0 <= n < m ==> front[n] == schedule[n];
      base, from := RunSinceDisorder(record, front, start, span);
      CounterStaysBelowTheLimitAlways(Start(record), front);
      OnlyArrivalsAreChecked(record, front, start, span);
      base, from := StepSinceDisorder(Run(Start(record), front), schedule[m], base, from,
                                      Disorders(Start(record), front), start, span);
    }
  }

  /** In every run of wrong guesses, however the calls overlap, each save out of order can let through at most one more
      stretch of 10·(⌊span / 15 min⌋ + 1) guesses, and itself. */
  lemma EveryRunIsLimited(record: Record, schedule: seq<Choice>, start: int, span: nat)
    requires record.failed < MAX_ATTEMPTS && ArrivalsWrong(schedule, start, span)
    ensures |Run(Start(record), schedule).checked| <= Ended(Disorders(Start(record), schedule), span) + Stretch(span)
  {
    var base, from := RunSinceDisorder(record, schedule, start, span);
    OnlyArrivalsAreChecked(record, schedule, start, span);
    var s, d := Run(Start(record), schedule), Disorders(Start(record), schedule);
    StretchIsLimited(s, base, from, Ended(d, span), start, span);
  }

  /** No call reads the record while another one is about to save. */
  ghost predicate OneAtATime(s: System, schedule: seq<Choice>) {
    forall n :: 0 <= n < |schedule| ==> TakesItsTurn(Run(s, schedule[..n]), schedule[n])
  }

  predicate TakesItsTurn(s: System, choice: Choice) {
    choice.Go? && choice.i < |s.calls| && s.calls[choice.i].Calling? ==>
      forall j :: 0 <= j < |s.calls| ==> !s.calls[j].Saving?
  }

  /** At most one call is about to save, and the record is still as it read it. */
  ghost predicate OneSaving(s: System) {
    && (forall i :: 0 <= i < |s.calls| && s.calls[i].Saving? ==> s.record == s.calls[i].read)
    && forall i, j :: 0 <= i < j < |s.calls| && s.calls[i].Saving? ==> !s.calls[j].Saving?
  }

  /** Calls that do not overlap lose nothing, so the bound holds for them. */
  lemma {:induction false} OneAtATimeLosesNothing(record: Record, schedule: seq<Choice>)
    requires OneAtATime(Start(record), schedule)
    ensures NothingLost(Start(record), schedule) && OneSaving(Run(Start(record), schedule))
  {
    if schedule != [] {
      var m := |schedule| - 1;
      var front := schedule[..m];
      FrontTakesItsTurns(Start(record), schedule);
      OneAtATimeLosesNothing(record, front);
      OneSavingStays(Run(Start(record), front), schedule[m]);
      LosesNothingMore(Start(record), schedule);
    }
  }

  lemma FrontTakesItsTurns(s: System, schedule: seq<Choice>)
    requires schedule != [] && OneAtATime(s, schedule)
    ensures OneAtATime(s, schedule[..|schedule| - 1])
    ensures TakesItsTurn(Run(s, schedule[..|schedule| - 1]), schedule[|schedule| - 1])
  {
    var front := schedule[..|schedule| - 1];
    forall n | 0 <= n < |front| ensures TakesItsTurn(Run(s, front[..n]), front[n]) {
      assert front[..n] == schedule[..n] && front[n] == schedule[n];
    }
  }

  lemma LosesNothingMore(s: System, schedule: seq<Choice>)
    requires schedule != [] && NothingLost(s, schedule[..|schedule| - 1])
    requires Undisturbed(Run(s, schedule[..|schedule| - 1]), schedule[|schedule| - 1])
    ensures NothingLost(s, schedule)
  {
    var front := schedule[..|schedule| - 1];
    forall n | 0 <= n < |schedule| ensures Undisturbed(Run(s, schedule[..n]), schedule[n]) {
      if n < |front| { assert front[..n] == schedule[..n] && Undisturbed(Run(s, front[..n]), front[n]); }
    }
  }

  lemma OneSavingStays(s: System, choice: Choice)
    requires OneSaving(s) && TakesItsTurn(s, choice)
    ensures OneSaving(Step(s, choice))
  {
  }

  // ---- When a save is lost ----

  function Wrong(at: int): Guess { Guess(at, false, true, false) }

  /** `n` calls arrive, then all of them read the record, then all of them save. */
  lemma {:induction false} AllArrive(record: Record, at: int, n: nat) returns (schedule: seq<Choice>)
    ensures Run(Start(record), schedule) == System(record, seq(n, k => Calling(Wrong(at))), [])
  {
    schedule := [];
    if n > 0 {
      var front := AllArrive(record, at, n - 1);
      schedule := front + [Arrive(Wrong(at))];
      RunSnoc(Start(record), front, Arrive(Wrong(at)));
      assert seq(n - 1, k => Calling(Wrong(at))) + [Calling(Wrong(at))] == seq(n, k => Calling(Wrong(at)));
    }
  }

  /** The first `m` of `n` calls have read, the others have only arrived. */
  ghost predicate FirstHaveRead(s: System, record: Record, at: int, m: nat, n: nat) {
    && s.record == record && s.checked == [] && |s.calls| == n && m <= n
    && forall i :: 0 <= i < n ==>
         s.calls[i] == if i < m then Saving(Wrong(at), record, AfterGuess(record, Wrong(at))) else Calling(Wrong(at))
  }

  lemma {:induction false} AllRead(record: Record, at: int, m: nat, n: nat) returns (schedule: seq<Choice>)
    requires m <= n && Checked(record, Wrong(at))
    ensures FirstHaveRead(Run(Start(record), schedule), record, at, m, n)
    decreases m
  {
    if m == 0 {
      schedule := AllArrive(record, at, n);
    } else {
      var front := AllRead(record, at, m - 1, n);
      schedule := front + [Go(m - 1)];
      RunSnoc(Start(record), front, Go(m - 1));
    }
  }

  /** All `n` calls have read, and the first `m` of them have saved. */
  ghost predicate FirstHaveSaved(s: System, record: Record, at: int, m: nat, n: nat) {
    && s.record == (if m == 0 then record else AfterGuess(record, Wrong(at))) && |s.checked| == m && |s.calls| == n
       && m <= n
    && forall i :: m <= i < n ==> s.calls[i] == Saving(Wrong(at), record, AfterGuess(record, Wrong(at)))
  }

  lemma {:induction false} AllSave(record: Record, at: int, m: nat, n: nat) returns (schedule: seq<Choice>)
    requires m <= n && Checked(record, Wrong(at))
    ensures FirstHaveSaved(Run(Start(record), schedule), record, at, m, n)
    decreases m
  {
    if m == 0 {
      schedule := AllRead(record, at, n, n);
    } else {
      var front := AllSave(record, at, m - 1, n);
      schedule := front + [Go(m - 1)];
      RunSnoc(Start(record), front, Go(m - 1));
    }
  }

  /** Any number of calls that read the record before one of them saves are all checked, at one instant, and count as a
      single failure: without the condition on saves there is no bound. */
  lemma OverlappingCallsCountOnce(at: int, n: nat) returns (schedule: seq<Choice>)
    requires n > 0
    ensures |Run(Start(FRESH), schedule).checked| == n && Run(Start(FRESH), schedule).record == Record(1, None)
  {
    schedule := AllSave(FRESH, at, n, n);
  }

  /** A call that read eight failures and saves after another one has locked writes the lock away. */
  lemma LateSaveErasesLock(at: int) returns (locked: seq<Choice>, erased: seq<Choice>)
    ensures Run(Start(Record(8, None)), locked).record == Record(0, Some(at + LOCKOUT))
    ensures locked <= erased && Run(Start(Record(8, None)), erased).record == Record(9, None)
  {
    var s := Start(Record(8, None));
    var arrived := AllArrive(Record(8, None), at, 3);
    var a := arrived + [Go(0)];
    RunSnoc(s, arrived, Go(0));
    var b := a + [Go(1)];
    RunSnoc(s, a, Go(1));
    var c := b + [Go(1)];
    RunSnoc(s, b, Go(1));
    var d := c + [Go(2)];
    RunSnoc(s, c, Go(2));
    locked := d + [Go(2)];
    RunSnoc(s, d, Go(2));
    erased := locked + [Go(0)];
    RunSnoc(s, locked, Go(0));
  }
}
