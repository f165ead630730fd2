/** What a history of hirings and wage changes means, without ranges: for each employee a set of steps, a day at which a
    wage starts and that wage. The wage of a day is that of the last step not after it. */
module WageSteps {
  import opened TimeCalculation
  import opened Calendar
  import opened Wages

  /** The hire dates, in order; employee number e was the e-th hired. */
  function HireDates(acts: seq<Act>): seq<int> {
    if acts == [] then []
    else
      var rest := HireDates(acts[..|acts| - 1]);
      match acts[|acts| - 1]
      case Hire(hired, _) => rest + [hired]
      case SetFrom(_, _, _) => rest
  }

  /** A hiring makes the first step, on the hire date. A change makes or replaces the step on the first day of its
      month, unless the employee was hired after that day. */
  function Steps(acts: seq<Act>): map<(nat, int), nat> {
    if acts == [] then map[]
    else
      var front := acts[..|acts| - 1];
      var rest, hires := Steps(front), HireDates(front);
      match acts[|acts| - 1]
      case Hire(hired, wage) => rest[(|hires|, hired) := wage]
      case SetFrom(e, date, amount) =>
        if e < |hires| && hires[e] <= Ordinal(FirstOf(date)) then rest[(e, Ordinal(FirstOf(date))) := amount] else rest
  }

  /** The last step of the employee that is not after the day. */
  ghost predicate LastStep(steps: map<(nat, int), nat>, e: nat, day: int, start: int) {
    (e, start) in steps && start <= day && forall s :: (e, s) in steps && s <= day ==> s <= start
  }

  // ---- The rows are the steps ----

  /** A row starts at a step of its employee, has its wage, and reaches over no other step. */
  ghost predicate RowIsStep(row: WageRow, steps: map<(nat, int), nat>) {
    && NonEmpty(row) && (row.employee, row.lower) in steps && steps[(row.employee, row.lower)] == row.amount
    && forall s :: (row.employee, s) in steps && row.lower < s ==> row.upper.Some? && row.upper.value <= s
  }

  ghost predicate RowsAreSteps(rows: seq<WageRow>, steps: map<(nat, int), nat>) {
    forall i :: 0 <= i < |rows| ==> RowIsStep(rows[i], steps)
  }

  ghost predicate StepsFrom(hires: seq<int>, steps: map<(nat, int), nat>) {
    forall e, s :: (e, s) in steps ==> e < |hires| && hires[e] <= s
  }

  lemma HireAddsStep(p: Payroll, steps: map<(nat, int), nat>, hired: int, wage: nat)
    requires Kept(p) && RowsAreSteps(p.rows, steps) && StepsFrom(p.hires, steps)
    ensures var after := steps[(|p.hires|, hired) := wage];
      RowsAreSteps(Do(p, Hire(hired, wage)).rows, after) && StepsFrom(Do(p, Hire(hired, wage)).hires, after)
  {
    var after, q := steps[(|p.hires|, hired) := wage], Do(p, Hire(hired, wage));
    forall i | 0 <= i < |q.rows| ensures RowIsStep(q.rows[i], after) {
      if i < |p.rows| { assert RowIsStep(p.rows[i], steps); }
    }
  }

  /** No row but the one in force reaches over the first day of the month. */
  lemma OtherRowsKeepTheirSteps(rows: seq<WageRow>, steps: map<(nat, int), nat>, i: nat, k: nat, month: int,
                                amount: nat)
    requires Apart(rows) && RowsAreSteps(rows, steps) && i < |rows| && k < |rows| && i != k && Covers(rows[i], month)
    ensures RowIsStep(rows[k], steps[(rows[i].employee, month) := amount])
  {
    assert RowIsStep(rows[k], steps) && RowIsStep(rows[i], steps);
    if rows[k].employee == rows[i].employee {
      assert !Clash(rows[k], rows[i]) && !Clash(rows[i], rows[k]);
      assert !Covers(rows[k], month) by { if Covers(rows[k], month) { ClashIsCommonDay(rows[k], rows[i]); } }
    }
  }

  lemma ChangeAddsStep(p: Payroll, steps: map<(nat, int), nat>, e: nat, month: int, amount: nat)
    requires Kept(p) && RowsAreSteps(p.rows, steps) && e < |p.hires| && p.hires[e] <= month
    ensures var r := SetWage(p.rows, e, month, amount);
      r.Saved? && RowsAreSteps(r.rows, steps[(e, month) := amount])
  {
    assert WageOn(p.rows, e, month).Some?;
    var i := FirstInForce(p.rows, e, month).value;
    assert RowIsStep(p.rows[i], steps);
    var after, rows := steps[(e, month) := amount], SetWage(p.rows, e, month, amount).rows;
    forall k | 0 <= k < |rows| ensures RowIsStep(rows[k], after) {
      if k < |p.rows| && k != i { OtherRowsKeepTheirSteps(p.rows, steps, i, k, month, amount); }
    }
  }

  /** An earlier month is refused. */
  lemma EarlierRefused(p: Payroll, e: nat, month: int, amount: nat)
    requires Kept(p) && e < |p.hires| && month < p.hires[e]
    ensures SetWage(p.rows, e, month, amount).Overlapping?
  {
    if SetWage(p.rows, e, month, amount).Saved? { ChangeKeeps(p, e, month, amount); }
  }

  lemma {:induction false} HistoryIsSteps(acts: seq<Act>)
    ensures var p := History(acts);
      p.hires == HireDates(acts) && RowsAreSteps(p.rows, Steps(acts)) && StepsFrom(p.hires, Steps(acts))
  {
    if acts != [] {
      var front := acts[..|acts| - 1];
      var p := History(front);
      HistoryIsSteps(front);
      HistoryKeeps(front);
      match acts[|acts| - 1]
      case Hire(hired, wage) => HireAddsStep(p, Steps(front), hired, wage);
      case SetFrom(e, date, amount) =>
        var month := Ordinal(FirstOf(date));
        if e < |p.hires| && p.hires[e] <= month { ChangeAddsStep(p, Steps(front), e, month, amount); }
        else if e < |p.hires| { EarlierRefused(p, e, month, amount); }
    }
  }

  lemma LastStepIsInForce(rows: seq<WageRow>, steps: map<(nat, int), nat>, e: nat, day: int) returns (start: int)
    requires RowsAreSteps(rows, steps) && WageOn(rows, e, day).Some?
    ensures LastStep(steps, e, day, start) && WageOn(rows, e, day) == Some(steps[(e, start)])
  {
    var row := rows[FirstInForce(rows, e, day).value];
    assert RowIsStep(row, steps);
    start := row.lower;
  }

  // ---- Main result ----

  /** After every history the rows give a day the wage of the last step not after it, and no wage when there is no such
      step: an accepted change holds from its month on until the next month for which a wage was ever set. */
  lemma WagesAreSteps(acts: seq<Act>, e: nat, day: int, wage: nat)
    ensures WageOn(History(acts).rows, e, day) == Some(wage)
      <==> exists start :: LastStep(Steps(acts), e, day, start) && Steps(acts)[(e, start)] == wage
  {
    HistoryIsSteps(acts);
    HistoryKeeps(acts);
    var p, steps := History(acts), Steps(acts);
    if start :| LastStep(steps, e, day, start) && steps[(e, start)] == wage {
      assert e < |p.hires| && p.hires[e] <= day;
      var last := LastStepIsInForce(p.rows, steps, e, day);
    } else if WageOn(p.rows, e, day) == Some(wage) {
      var last := LastStepIsInForce(p.rows, steps, e, day);
    }
  }
}
