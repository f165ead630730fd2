/** One month's payroll period as the services change it in place: close, reopen, and the automatic finalizer. */
module PayrollPeriods {
  import opened TimeCalculation
  import opened Calendar
  import opened BasePay
  import opened CloseGate
  import opened MonthPayload
  import opened Text
  import opened Close

  datatype CloseResult =
    | CloseBlocked(blockers: set<CloseBlocker>)
    | Existing(snapshot: nat)
    | Stored(snapshot: nat)
    | IntegrityError

  datatype MonthResult = BuildFailed(reasons: set<BuildBlocker>) | Answered(result: CloseResult)

  /** The store's switches for the automatic close. */
  datatype Settings = Settings(autoClose: bool, payDay: Option<nat>)

  datatype Finalization = Disabled | NoPayDay | LeftAlone | Tried(r: MonthResult)

  function Before(k: nat): Option<nat> { if k == 0 then None else Some(k - 1) }

  class PayrollPeriod {
    const month: Date
    var status: Status
    var snapshots: seq<Snapshot>

    predicate Valid() reads this { Chain(snapshots) && (status == Closed ==> snapshots != []) }

    function Value(): Period reads this { Period(status, snapshots) }

    constructor (month: Date)
      ensures Valid() && Value() == NEW_PERIOD && this.month == month
    {
      this.month := month;
      status, snapshots := Draft, [];
    }

    /** close_period with nobody else at work: refused, idempotent while closed, or one more version. */
    method ClosePeriod(w: World, lines: seq<PayloadLine>, reason: string) returns (r: CloseResult)
      requires Valid()
      modifies this
      ensures Valid() && !r.IntegrityError?
      ensures r.CloseBlocked? <==> !MayClose(w, w, w, month, lines)
      ensures r.CloseBlocked? ==> Value() == old(Value()) && forall b :: b in r.blockers <==> Raises(w, month, lines, b)
      ensures r.Existing? ==> old(status) == Closed && Value() == old(Value()) && r.snapshot == |snapshots| - 1
      ensures r.Stored? ==> old(status) == Draft && status == Closed && r.snapshot == |old(snapshots)|
      ensures r.Stored? ==>
        snapshots == old(snapshots) + [Snapshot(|old(snapshots)| + 1, Before(r.snapshot), lines, reason)]
    {
      var blockers := CollectBlockers(w, month, lines);
      if blockers != {} {
        return CloseBlocked(blockers);
      }
      r := StoreNext(lines, reason);
    }

    /** The locked transaction: an earlier close has already won, or the next version is stored. */
    method StoreNext(lines: seq<PayloadLine>, reason: string) returns (r: CloseResult)
      requires Valid()
      modifies this
      ensures Valid() && !r.IntegrityError? && !r.CloseBlocked?
      ensures r.Existing? ==> old(status) == Closed && Value() == old(Value()) && r.snapshot == |snapshots| - 1
      ensures r.Stored? ==> old(status) == Draft && status == Closed && r.snapshot == |old(snapshots)|
      ensures r.Stored? ==>
        snapshots == old(snapshots) + [Snapshot(|old(snapshots)| + 1, Before(r.snapshot), lines, reason)]
    {
      NextExtendsChain(Value(), lines, reason);
      var latest := LatestSnapshot(snapshots);
      if status == Closed && latest.Some? {
        return Existing(latest.value);
      }
      var version := (if latest.Some? then snapshots[latest.value].version else 0) + 1;
      var snapshot := Snapshot(version, latest, lines, reason);
      if VersionTaken(snapshots, snapshot.version) {
        return IntegrityError;
      }
      snapshots := snapshots + [snapshot];
      status := Closed;
      r := Stored(|snapshots| - 1);
    }

    method ReopenPeriod(reason: string) returns (ok: bool)
      requires Valid()
      modifies `status
      ensures Valid() && ok == !BlankText(reason)
      ensures status == if ok then Draft else old(status)
    {
      ok := !BlankText(reason);
      if ok {
        status := Draft;
      }
    }

    /** The manager's close: build the payload from the books, then close with it. */
    method CloseMonth(w: World, rnd: real -> real, reason: string) returns (r: MonthResult)
      requires Valid() && HalfUlp(rnd)
      modifies this
      ensures Valid() && (r.BuildFailed? <==> PayloadFor(w.books, month, rnd).None?)
      ensures Value() == old(Value()) || CanClose(w, rnd)
      ensures old(status) == Draft && CanClose(w, rnd) ==>
        && r == Answered(Stored(|old(snapshots)|)) && status == Closed
        && snapshots == old(snapshots)
           + [Snapshot(|old(snapshots)| + 1, Before(|old(snapshots)|), PayloadFor(w.books, month, rnd).value, reason)]
      ensures old(status) == Closed ==> Value() == old(Value())
      ensures r.Answered? && r.result.CloseBlocked? ==>
        forall b :: b in r.result.blockers <==> Raises(w, month, PayloadFor(w.books, month, rnd).value, b)
    {
      var built := BuildMonthPayload(w.books, month, rnd);
      if built.BuildBlocked? {
        return BuildFailed(built.blockers);
      }
      var result := ClosePeriod(w, built.lines, reason);
      r := Answered(result);
    }

    /** Every line of the month can be paid, and every check of the gate passes with those lines. */
    ghost predicate CanClose(w: World, rnd: real -> real) {
      var payload := PayloadFor(w.books, month, rnd);
      payload.Some? && MayClose(w, w, w, month, payload.value)
    }

    /** The automatic finalizer, undisturbed, on the period of the month before today's: it stores version 1 exactly
        when it is switched on, the period has no snapshot, and the month can be closed; otherwise nothing changes. */
    method FinalizeAutomatically(today: Date, w: World, settings: Settings, rnd: real -> real)
      returns (r: Finalization)
      requires Valid() && HalfUlp(rnd)
      requires 1 <= today.month <= 12 && 1 <= today.day && w.today == Ordinal(today) && month == PreviousMonth(today)
      modifies this
      ensures Valid() && (r.Disabled? <==> !settings.autoClose)
      ensures r.NoPayDay? <==> settings.autoClose && settings.payDay.None?
      ensures r.LeftAlone? <==> settings.autoClose && settings.payDay.Some? && old(snapshots) != []
      ensures r.Tried? ==> (r.r.BuildFailed? <==> PayloadFor(w.books, month, rnd).None?)
      ensures Value() == if r.Tried? && CanClose(w, rnd)
                         then Period(Closed, [Snapshot(1, None, PayloadFor(w.books, month, rnd).value,
                                                       "automatic previous-month close")])
                         else old(Value())
      ensures r.Tried? && r.r.Answered? && r.r.result.CloseBlocked? ==> PeriodNotEnded !in r.r.result.blockers
    {
      if !settings.autoClose {
        return Disabled;
      }
      if settings.payDay.None? {
        return NoPayDay;
      }
      if LatestSnapshot(snapshots).Some? {
        return LeftAlone;
      }
      MonthHasEnded(today);
      var result := CloseMonth(w, rnd, AUTOMATIC);
      r := Tried(result);
    }
  }

  lemma MonthHasEnded(today: Date)
    requires 1 <= today.month <= 12 && 1 <= today.day
    ensures Ordinal(NextMonth(PreviousMonth(today))) <= Ordinal(today)
  {
    assert NextMonth(PreviousMonth(today)) == FirstOf(today);
  }
}
