/** Hourly wages as rows over half-open date ranges, and the service that rewrites them from a month on. Days are
    ordinals; a range without an upper bound is open-ended. */
module Wages {
  import opened TimeCalculation
  import opened Calendar

  datatype WageRow = WageRow(employee: nat, amount: nat, lower: int, upper: Option<int>)

  predicate Covers(row: WageRow, day: int) { row.lower <= day && (row.upper.Some? ==> day < row.upper.value) }

  predicate InForce(row: WageRow, employee: nat, day: int) { row.employee == employee && Covers(row, day) }

  // ---- Queries ----

  /** filter(employee, effective__contains).first(): the lowest id. */
  function FirstInForce(rows: seq<WageRow>, employee: nat, day: int): (r: Option<nat>)
    ensures r.Some? ==> r.value < |rows| && InForce(rows[r.value], employee, day)
    ensures r.None? ==> forall i :: 0 <= i < |rows| ==> !InForce(rows[i], employee, day)
  {
    if rows == [] then None
    else
      var r := FirstInForce(rows[..|rows| - 1], employee, day);
      if r.Some? then r else if InForce(rows[|rows| - 1], employee, day) then Some(|rows| - 1) else None
  }

  /** The same with order_by("-pk"): the highest id. */
  function LastInForce(rows: seq<WageRow>, employee: nat, day: int): (r: Option<nat>)
    ensures r.Some? ==> r.value < |rows| && InForce(rows[r.value], employee, day)
    ensures r.None? ==> forall i :: 0 <= i < |rows| ==> !InForce(rows[i], employee, day)
  {
    if rows == [] then None
    else if InForce(rows[|rows| - 1], employee, day) then Some(|rows| - 1)
    else LastInForce(rows[..|rows| - 1], employee, day)
  }

  function WageOn(rows: seq<WageRow>, employee: nat, day: int): Option<nat> {
    var i := FirstInForce(rows, employee, day);
    if i.Some? then Some(rows[i.value].amount) else None
  }

  // ---- The exclusion constraint ----

  predicate NonEmpty(row: WageRow) { row.upper.Some? ==> row.lower < row.upper.value }

  predicate StartsBeforeEnd(a: WageRow, b: WageRow) { b.upper.Some? ==> a.lower < b.upper.value }

  /** The range operator && of the database, on bounds. */
  predicate Clash(a: WageRow, b: WageRow) {
    && a.employee == b.employee && NonEmpty(a) && NonEmpty(b)
    && StartsBeforeEnd(a, b) && StartsBeforeEnd(b, a)
  }

  lemma ClashIsCommonDay(a: WageRow, b: WageRow)
    ensures Clash(a, b) <==> a.employee == b.employee && exists day :: Covers(a, day) && Covers(b, day)
  {
    if Clash(a, b) {
      var day := if a.lower < b.lower then b.lower else a.lower;
      assert Covers(a, day) && Covers(b, day);
    }
  }

  ghost predicate Apart(rows: seq<WageRow>) {
    forall i, j :: 0 <= i < j < |rows| ==> !Clash(rows[i], rows[j])
  }

  /** Some row other than number `skip` clashes with `row`. */
  predicate Refuses(rows: seq<WageRow>, row: WageRow, skip: int) {
    exists i :: 0 <= i < |rows| && i != skip && Clash(rows[i], row)
  }

  /** At most one row is in force on a day, so the two orders of the queries agree. */
  lemma OneInForce(rows: seq<WageRow>, employee: nat, day: int, i: nat)
    requires Apart(rows) && i < |rows| && InForce(rows[i], employee, day)
    ensures FirstInForce(rows, employee, day) == Some(i) && LastInForce(rows, employee, day) == Some(i)
  {
    var f, l := FirstInForce(rows, employee, day), LastInForce(rows, employee, day);
    ClashIsCommonDay(rows[f.value], rows[i]);
    ClashIsCommonDay(rows[i], rows[f.value]);
    ClashIsCommonDay(rows[l.value], rows[i]);
    ClashIsCommonDay(rows[i], rows[l.value]);
  }

  lemma OrdersAgree(rows: seq<WageRow>, employee: nat, day: int)
    requires Apart(rows)
    ensures FirstInForce(rows, employee, day) == LastInForce(rows, employee, day)
  {
    var f := FirstInForce(rows, employee, day);
    if f.Some? { OneInForce(rows, employee, day, f.value); }
  }

  // ---- set_hourly_wage ----

  datatype Change = Saved(rows: seq<WageRow>) | Overlapping

  function SetWage(rows: seq<WageRow>, employee: nat, month: int, amount: nat): Change {
    var active := FirstInForce(rows, employee, month);
    if active.None? then
      var row := WageRow(employee, amount, month, None);
      if Refuses(rows, row, -1) then Overlapping else Saved(rows + [row])
    else
      var row := rows[active.value];
      if row.lower == month then Saved(rows[active.value := row.(amount := amount)])
      else Saved(rows[active.value := row.(upper := Some(month))] + [WageRow(employee, amount, month, row.upper)])
  }

  /** Where the range that is being overwritten ends. */
  function OverwriteEnd(rows: seq<WageRow>, employee: nat, month: int): Option<int> {
    var active := FirstInForce(rows, employee, month);
    if active.Some? then rows[active.value].upper else None
  }

  predicate Overwritten(rows: seq<WageRow>, employee: nat, month: int, day: int) {
    month <= day && var end := OverwriteEnd(rows, employee, month); end.Some? ==> day < end.value
  }

  class WageTable {
    var rows: seq<WageRow>

    ghost predicate Valid() reads this { Apart(rows) }

    constructor ()
      ensures Valid() && rows == []
    {
      rows := [];
    }

    /** INSERT under the exclusion constraint: it fails and changes nothing, or the rows stay apart. */
    method Create(row: WageRow) returns (ok: bool)
      requires Valid()
      modifies this
      ensures Valid() && ok == !Refuses(old(rows), row, -1)
      ensures rows == if ok then old(rows) + [row] else old(rows)
    {
      ok := !Refuses(rows, row, -1);
      if ok {
        rows := rows + [row];
      }
    }

    /** UPDATE under the same constraint. */
    method Save(i: nat, row: WageRow) returns (ok: bool)
      requires Valid() && i < |rows|
      modifies this
      ensures Valid() && ok == !Refuses(old(rows), row, i)
      ensures rows == if ok then old(rows)[i := row] else old(rows)
    {
      ok := !Refuses(rows, row, i);
      if ok {
        ghost var before := rows;
        rows := rows[i := row];
        StillApart(before, i, row);
      }
    }

    /** Every write goes through Create and Save, so the rows are apart after each of them; only the insert of a
        first row can be refused. */
    method SetHourlyWage(employee: nat, date: Date, amount: nat) returns (r: Change)
      requires Valid()
      modifies this
      ensures Valid() && r == SetWage(old(rows), employee, Ordinal(FirstOf(date)), amount)
      ensures rows == if r.Saved? then r.rows else old(rows)
    {
      var month := Ordinal(FirstOf(date));
      var active := FirstInForce(rows, employee, month);
      if active.None? {
        var ok := Create(WageRow(employee, amount, month, None));
        return if ok then Saved(rows) else Overlapping;
      }
      var row := rows[active.value];
      if row.lower == month {
        RowItselfFits(rows, active.value, row.(amount := amount));
        var ok := Save(active.value, row.(amount := amount));
        return Saved(rows);
      }
      var previousEnd := row.upper;
      RowItselfFits(rows, active.value, row.(upper := Some(month)));
      var shrunk := Save(active.value, row.(upper := Some(month)));
      TailFits(old(rows), active.value, month, amount);
      var created := Create(WageRow(employee, amount, month, previousEnd));
      r := Saved(rows);
    }
  }

  lemma StillApart(rows: seq<WageRow>, i: nat, row: WageRow)
    requires Apart(rows) && i < |rows| && !Refuses(rows, row, i)
    ensures Apart(rows[i := row])
  {
    var after := rows[i := row];
    forall a, b | 0 <= a < b < |after| ensures !Clash(after[a], after[b]) {
      assert a != i ==> after[a] == rows[a];
      assert b != i ==> after[b] == rows[b];
      assert Clash(row, rows[b]) ==> Clash(rows[b], row);
    }
  }

  /** A row that covers no new day meets no other row. */
  lemma RowItselfFits(rows: seq<WageRow>, i: nat, row: WageRow)
    requires Apart(rows) && i < |rows| && row.employee == rows[i].employee && row.lower == rows[i].lower
    requires row.upper == rows[i].upper || (row.upper.Some? && NonEmpty(row) && Covers(rows[i], row.upper.value))
    ensures !Refuses(rows, row, i)
  {
    forall k | 0 <= k < |rows| && k != i ensures !Clash(rows[k], row) {
      assert Clash(rows[k], row) ==> Clash(rows[k], rows[i]) && Clash(rows[i], rows[k]);
    }
  }

  /** The second half of a split fits exactly where the first half left room. */
  lemma TailFits(rows: seq<WageRow>, i: nat, month: int, amount: nat)
    requires Apart(rows) && i < |rows| && Covers(rows[i], month) && rows[i].lower < month
    ensures !Refuses(rows[i := rows[i].(upper := Some(month))],
      WageRow(rows[i].employee, amount, month, rows[i].upper), -1)
  {
    var after, tail := rows[i := rows[i].(upper := Some(month))],
      WageRow(rows[i].employee, amount, month, rows[i].upper);
    forall k | 0 <= k < |after| ensures !Clash(after[k], tail) {
      if k != i { assert Clash(rows[k], tail) ==> Clash(rows[k], rows[i]) && Clash(rows[i], rows[k]); }
    }
  }

  // ---- Main results ----

  lemma SetKeepsApart(rows: seq<WageRow>, employee: nat, month: int, amount: nat)
    requires Apart(rows) && SetWage(rows, employee, month, amount).Saved?
    ensures Apart(SetWage(rows, employee, month, amount).rows)
  {
    var active := FirstInForce(rows, employee, month);
    if active.Some? {
      var i, row := active.value, rows[active.value];
      if row.lower == month {
        RowItselfFits(rows, i, row.(amount := amount));
        StillApart(rows, i, row.(amount := amount));
      } else {
        RowItselfFits(rows, i, row.(upper := Some(month)));
        StillApart(rows, i, row.(upper := Some(month)));
        TailFits(rows, i, month, amount);
      }
    }
  }

  lemma AppendedOn(rows: seq<WageRow>, row: WageRow, e: nat, day: int)
    requires Apart(rows + [row])
    ensures WageOn(rows + [row], e, day) == if InForce(row, e, day) then Some(row.amount) else WageOn(rows, e, day)
  {
    var after, f := rows + [row], FirstInForce(rows, e, day);
    assert after[..|rows|] == rows;
    if InForce(row, e, day) { OneInForce(after, e, day, |rows|); }
  }

  /** Replacing a row by one that covers some of its days leaves the other days alone. */
  lemma ReplacedOn(rows: seq<WageRow>, i: nat, row: WageRow, e: nat, day: int)
    requires i < |rows| && Apart(rows) && Apart(rows[i := row]) && (InForce(row, e, day) ==> InForce(rows[i], e, day))
    ensures WageOn(rows[i := row], e, day)
         == if InForce(row, e, day) then Some(row.amount)
            else if InForce(rows[i], e, day) then None else WageOn(rows, e, day)
  {
    var after, f := rows[i := row], FirstInForce(rows, e, day);
    if InForce(rows[i], e, day) { OneInForce(rows, e, day, i); }
    if InForce(row, e, day) {
      OneInForce(after, e, day, i);
    } else if !InForce(rows[i], e, day) && f.Some? {
      OneInForce(after, e, day, f.value);
    } else {
      NobodyElse(rows, i, row, e, day);
    }
  }

  lemma NobodyElse(rows: seq<WageRow>, i: nat, row: WageRow, e: nat, day: int)
    requires Apart(rows) && i < |rows| && !InForce(row, e, day)
    requires InForce(rows[i], e, day) || FirstInForce(rows, e, day).None?
    ensures FirstInForce(rows[i := row], e, day).None?
  {
    if InForce(rows[i], e, day) { OneInForce(rows, e, day, i); }
    forall k | 0 <= k < |rows| && k != i ensures !InForce(rows[k], e, day) {
      if InForce(rows[k], e, day) { OneInForce(rows, e, day, k); }
    }
  }

  /** Accepted, the service overwrites the date → wage function of one employee on one interval — from the month
      to the end of the range that was in force — and changes it nowhere else. */
  lemma SetOverwrites(rows: seq<WageRow>, employee: nat, month: int, amount: nat, e: nat, day: int)
    requires Apart(rows) && SetWage(rows, employee, month, amount).Saved?
    ensures WageOn(SetWage(rows, employee, month, amount).rows, e, day)
         == if e == employee && Overwritten(rows, employee, month, day) then Some(amount) else WageOn(rows, e, day)
  {
    SetKeepsApart(rows, employee, month, amount);
    var active := FirstInForce(rows, employee, month);
    if active.None? {
      AppendedOn(rows, WageRow(employee, amount, month, None), e, day);
    } else {
      SplitOn(rows, active.value, month, amount, e, day);
    }
  }

  lemma SplitOn(rows: seq<WageRow>, i: nat, month: int, amount: nat, e: nat, day: int)
    requires Apart(rows) && i < |rows| && Covers(rows[i], month)
    requires FirstInForce(rows, rows[i].employee, month) == Some(i)
    ensures WageOn(SetWage(rows, rows[i].employee, month, amount).rows, e, day)
         == if e == rows[i].employee && Overwritten(rows, rows[i].employee, month, day) then Some(amount)
            else WageOn(rows, e, day)
  {
    var row := rows[i];
    SetKeepsApart(rows, row.employee, month, amount);
    if InForce(row, e, day) { OneInForce(rows, e, day, i); }
    if row.lower == month {
      ReplacedOn(rows, i, row.(amount := amount), e, day);
    } else {
      var head := row.(upper := Some(month));
      RowItselfFits(rows, i, head);
      StillApart(rows, i, head);
      ReplacedOn(rows, i, head, e, day);
      AppendedOn(rows[i := head], WageRow(row.employee, amount, month, row.upper), e, day);
    }
  }

  /** It is refused exactly when nothing is in force in the month but a later range exists. */
  lemma RefusedIff(rows: seq<WageRow>, employee: nat, month: int, amount: nat)
    ensures SetWage(rows, employee, month, amount).Overlapping?
       <==> WageOn(rows, employee, month).None? && exists i ::
              0 <= i < |rows| && rows[i].employee == employee && NonEmpty(rows[i]) && month < rows[i].lower
  {
    if FirstInForce(rows, employee, month).None? {
      var row := WageRow(employee, amount, month, None);
      forall i | 0 <= i < |rows|
        ensures Clash(rows[i], row) <==> rows[i].employee == employee && NonEmpty(rows[i]) && month < rows[i].lower {
        assert !InForce(rows[i], employee, month);
      }
    }
  }

  // ---- Every history of hirings and wage changes ----

  /** create_employee stores the first wage from the hire date on; a wage change names a month. */
  datatype Act = Hire(hired: int, wage: nat) | SetFrom(employee: nat, date: Date, amount: nat)

  /** Employee number e was hired on hires[e]. */
  datatype Payroll = Payroll(hires: seq<int>, rows: seq<WageRow>)

  function Do(p: Payroll, act: Act): Payroll {
    match act
    case Hire(hired, wage) => Payroll(p.hires + [hired], p.rows + [WageRow(|p.hires|, wage, hired, None)])
    case SetFrom(employee, date, amount) =>
      if employee < |p.hires| && SetWage(p.rows, employee, Ordinal(FirstOf(date)), amount).Saved?
      then p.(rows := SetWage(p.rows, employee, Ordinal(FirstOf(date)), amount).rows) else p
  }

  function History(acts: seq<Act>): Payroll {
    if acts == [] then Payroll([], []) else Do(History(acts[..|acts| - 1]), acts[|acts| - 1])
  }

  ghost predicate Kept(p: Payroll) {
    && Apart(p.rows)
    && (forall i :: 0 <= i < |p.rows| ==>
       p.rows[i].employee < |p.hires| && p.hires[p.rows[i].employee] <= p.rows[i].lower)
    && (forall e: nat, day :: e < |p.hires| ==> (WageOn(p.rows, e, day).Some? <==> p.hires[e] <= day))
  }

  lemma HireKeeps(p: Payroll, hired: int, wage: nat)
    requires Kept(p)
    ensures Kept(Do(p, Hire(hired, wage)))
  {
    var q, n := Do(p, Hire(hired, wage)), |p.hires|;
    assert Apart(q.rows);
    forall e: nat, day | e < |q.hires| ensures WageOn(q.rows, e, day).Some? <==> q.hires[e] <= day {
      if e < n && p.hires[e] <= day {
        assert WageOn(p.rows, e, day).Some?;
        OneInForce(q.rows, e, day, FirstInForce(p.rows, e, day).value);
      } else if e == n && hired <= day {
        OneInForce(q.rows, e, day, |p.rows|);
      }
    }
  }

  lemma ChangeKeeps(p: Payroll, employee: nat, month: int, amount: nat)
    requires Kept(p) && employee < |p.hires| && SetWage(p.rows, employee, month, amount).Saved?
    ensures p.hires[employee] <= month && Kept(p.(rows := SetWage(p.rows, employee, month, amount).rows))
  {
    RefusedIff(p.rows, employee, month, amount);
    SetKeepsApart(p.rows, employee, month, amount);
    assert WageOn(p.rows, employee, p.hires[employee]).Some?;
    var active := FirstInForce(p.rows, employee, month).value;
    var q := p.(rows := SetWage(p.rows, employee, month, amount).rows);
    forall e: nat, day | e < |q.hires| ensures WageOn(q.rows, e, day).Some? <==> q.hires[e] <= day {
      SetOverwrites(p.rows, employee, month, amount, e, day);
      assert WageOn(p.rows, e, day).Some? <==> p.hires[e] <= day;
    }
  }

  lemma {:induction false} HistoryKeeps(acts: seq<Act>)
    ensures Kept(History(acts))
  {
    if acts != [] {
      HistoryKeeps(acts[..|acts| - 1]);
      var p := History(acts[..|acts| - 1]);
      match acts[|acts| - 1]
      case Hire(hired, wage) => HireKeeps(p, hired, wage);
      case SetFrom(employee, date, amount) =>
        if employee < |p.hires| && SetWage(p.rows, employee, Ordinal(FirstOf(date)), amount).Saved? {
          ChangeKeeps(p, employee, Ordinal(FirstOf(date)), amount);
        }
    }
  }

  /** Along every history: the rows stay apart, an employee has a wage exactly from the hire date on, and a change
      is refused exactly when its month begins before that date — also for the very month of a mid-month hire. */
  lemma WagesCoverEmployment(acts: seq<Act>, employee: nat, day: int, month: int, amount: nat)
    requires employee < |History(acts).hires|
    ensures var p := History(acts);
      && Apart(p.rows)
      && (WageOn(p.rows, employee, day).Some? <==> p.hires[employee] <= day)
      && (SetWage(p.rows, employee, month, amount).Overlapping? <==> month < p.hires[employee])
  {
    HistoryKeeps(acts);
    var p := History(acts);
    if SetWage(p.rows, employee, month, amount).Saved? { ChangeKeeps(p, employee, month, amount); }
    RefusedIff(p.rows, employee, month, amount);
  }
}
