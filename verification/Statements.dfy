/** Pay statements, the manager's summary and the export package: a sheet is a map from cells to values, and every
    amount of the closed payload reaches its total. */
module Statements {
  import opened TimeCalculation
  import opened CloseGate
  import opened Calendar
  import opened Preview
  import opened MonthPayload

  datatype Cell = Cell(column: char, row: nat)
  datatype Value = Text(text: string) | Money(amount: int)
  type Sheet = map<Cell, Value>

  const FIRST_ROW: nat := 8
  const LAST_ITEM_ROW: nat := 23
  const ITEM_ROWS: nat := 16
  const DETAIL_START: nat := 27

  datatype StatementData = StatementData(
    month: string, employee: string, place: string, earnings: seq<Item>, deductions: seq<Item>, details: seq<string>)

  function Sum(items: seq<Item>): int {
    if items == [] then 0 else Sum(items[..|items| - 1]) + items[|items| - 1].amount
  }

  function TotalPay(d: StatementData): int { Sum(d.earnings) }
  function TotalDeduction(d: StatementData): int { Sum(d.deductions) }
  function NetPay(d: StatementData): int { TotalPay(d) - TotalDeduction(d) }

  function Lookup(s: Sheet, c: Cell): Option<Value> { if c in s then Some(s[c]) else None }

  // ---- The layout, cell by cell ----

  function HeadCell(d: StatementData, c: Cell): Option<Value> {
    if c == Cell('A', 1) then Some(Text("급여명세서"))
    else if c == Cell('A', 2) then Some(Text("귀속월"))
    else if c == Cell('B', 1) then Some(Text(d.month))
    else if c == Cell('A', 3) then Some(Text("직원식별"))
    else if c == Cell('B', 3) then Some(Text(d.employee))
    else if c == Cell('A', 4) then Some(Text("부서/직급"))
    else if c == Cell('B', 4) then Some(Text(d.place))
    else if c == Cell('A', 7) then Some(Text("지급 항목"))
    else if c == Cell('B', 7) || c == Cell('D', 7) then Some(Text("금액"))
    else if c == Cell('C', 7) then Some(Text("공제 항목"))
    else None
  }

  /** The item of a row, if the list reaches that far. */
  function NameAt(items: seq<Item>, row: nat): Option<Value> {
    if FIRST_ROW <= row < FIRST_ROW + |items| then Some(Text(items[row - FIRST_ROW].name)) else None
  }

  function AmountAt(items: seq<Item>, row: nat): Option<Value> {
    if FIRST_ROW <= row < FIRST_ROW + |items| then Some(Money(items[row - FIRST_ROW].amount)) else None
  }

  function ItemCell(d: StatementData, c: Cell): Option<Value> {
    if c.column == 'A' then NameAt(d.earnings, c.row)
    else if c.column == 'B' then AmountAt(d.earnings, c.row)
    else if c.column == 'C' then NameAt(d.deductions, c.row)
    else if c.column == 'D' then AmountAt(d.deductions, c.row)
    else None
  }

  function TotalCell(d: StatementData, c: Cell): Option<Value> {
    if c == Cell('C', 24) then Some(Text("총공제"))
    else if c == Cell('D', 24) then Some(Money(TotalDeduction(d)))
    else if c == Cell('A', 25) then Some(Text("총지급"))
    else if c == Cell('B', 25) then Some(Money(TotalPay(d)))
    else if c == Cell('C', 25) then Some(Text("실지급액"))
    else if c == Cell('D', 25) then Some(Money(NetPay(d)))
    else None
  }

  function DetailCell(lines: seq<string>, c: Cell): Option<Value> {
    if c == Cell('A', DETAIL_START) then Some(Text("산정 내역"))
    else if c.column == 'A' && DETAIL_START < c.row <= DETAIL_START + |lines| then
      Some(Text(lines[c.row - DETAIL_START - 1]))
    else None
  }

  /** What each cell of the finished statement holds: four bands of rows, each with its own writer. */
  function StatementCell(d: StatementData, c: Cell): Option<Value> {
    if c.row < FIRST_ROW then HeadCell(d, c)
    else if c.row <= LAST_ITEM_ROW then ItemCell(d, c)
    else if c.row < DETAIL_START then TotalCell(d, c)
    else DetailCell(d.details, c)
  }

  ghost predicate SheetOf(s: Sheet, d: StatementData) { forall c :: Lookup(s, c) == StatementCell(d, c) }

  /** The money in rows first, …, end - 1 of a column. */
  function ColumnSum(s: Sheet, column: char, first: nat, end: nat): int
    decreases end
  {
    if end <= first then 0
    else
      var v := Lookup(s, Cell(column, end - 1));
      ColumnSum(s, column, first, end - 1) + (if v.Some? && v.value.Money? then v.value.amount else 0)
  }

  /** What the item rows of a column add up to. */
  function ItemsTotal(s: Sheet, column: char): int { ColumnSum(s, column, FIRST_ROW, LAST_ITEM_ROW + 1) }

  // ---- The writers ----

  datatype Book = Book(sheet: Sheet) | TooManyRows

  function Over(value: Option<Value>, before: Option<Value>): Option<Value> { if value.Some? then value else before }

  method WriteHead(d: StatementData) returns (s: Sheet)
    ensures forall c :: Lookup(s, c) == HeadCell(d, c)
  {
    s := map[Cell('A', 1) := Text("급여명세서"), Cell('A', 2) := Text("귀속월"), Cell('B', 1) := Text(d.month),
             Cell('A', 3) := Text("직원식별"), Cell('B', 3) := Text(d.employee), Cell('A', 4) := Text("부서/직급"),
             Cell('B', 4) := Text(d.place), Cell('A', 7) := Text("지급 항목"), Cell('B', 7) := Text("금액"),
             Cell('C', 7) := Text("공제 항목"), Cell('D', 7) := Text("금액")];
  }

  function ItemsOver(before: Sheet, items: seq<Item>, names: char, amounts: char, c: Cell): Option<Value> {
    if c.column == names then Over(NameAt(items, c.row), Lookup(before, c))
    else if c.column == amounts then Over(AmountAt(items, c.row), Lookup(before, c))
    else Lookup(before, c)
  }

  /** Two columns of items, one row each. */
  method WriteItems(before: Sheet, items: seq<Item>, names: char, amounts: char) returns (s: Sheet)
    requires names != amounts
    ensures forall c :: Lookup(s, c) == ItemsOver(before, items, names, amounts, c)
  {
    s := before;
    for offset := 0 to |items|
      invariant forall c :: Lookup(s, c) == ItemsOver(before, items[..offset], names, amounts, c)
    {
      var row := FIRST_ROW + offset;
      ghost var sofar := s;
      s := s[Cell(names, row) := Text(items[offset].name)][Cell(amounts, row) := Money(items[offset].amount)];
      forall c: Cell ensures Lookup(s, c) == ItemsOver(before, items[..offset + 1], names, amounts, c) {
        assert c == Cell(c.column, c.row) && Lookup(sofar, c) == ItemsOver(before, items[..offset], names, amounts, c);
      }
    }
    assert items[..|items|] == items;
  }

  method WriteTotals(before: Sheet, d: StatementData) returns (s: Sheet)
    ensures forall c :: Lookup(s, c) == Over(TotalCell(d, c), Lookup(before, c))
  {
    s := before[Cell('C', 24) := Text("총공제")][Cell('D', 24) := Money(TotalDeduction(d))];
    s := s[Cell('A', 25) := Text("총지급")][Cell('B', 25) := Money(TotalPay(d))];
    s := s[Cell('C', 25) := Text("실지급액")][Cell('D', 25) := Money(NetPay(d))];
  }

  method WriteDetails(before: Sheet, lines: seq<string>) returns (s: Sheet)
    ensures forall c :: Lookup(s, c) == Over(DetailCell(lines, c), Lookup(before, c))
  {
    s := before[Cell('A', DETAIL_START) := Text("산정 내역")];
    for i := 0 to |lines|
      invariant forall c :: Lookup(s, c) == Over(DetailCell(lines[..i], c), Lookup(before, c))
    {
      s := s[Cell('A', DETAIL_START + 1 + i) := Text(lines[i])];
    }
    assert lines[..|lines|] == lines;
  }

  /** Refused when the items do not fit their sixteen rows; otherwise no writer reaches into another's band. */
  method BuildStatement(d: StatementData) returns (r: Book)
    ensures r.TooManyRows? <==> |d.earnings| > ITEM_ROWS || |d.deductions| > ITEM_ROWS
    ensures r.Book? ==> SheetOf(r.sheet, d)
  {
    if |d.earnings| > LAST_ITEM_ROW - FIRST_ROW + 1 || |d.deductions| > LAST_ITEM_ROW - FIRST_ROW + 1 {
      return TooManyRows;
    }
    var head := WriteHead(d);
    var paid := WriteItems(head, d.earnings, 'A', 'B');
    var items := WriteItems(paid, d.deductions, 'C', 'D');
    var totals := WriteTotals(items, d);
    var s := WriteDetails(totals, d.details);
    r := Book(s);
  }

  /** The n item rows of a column show the amounts of these items. */
  ghost predicate Shows(s: Sheet, column: char, items: seq<Item>, n: nat) {
    forall row: nat :: FIRST_ROW <= row < FIRST_ROW + n ==> Lookup(s, Cell(column, row)) == AmountAt(items, row)
  }

  lemma {:induction false} ItemsSum(s: Sheet, column: char, items: seq<Item>, n: nat)
    requires Shows(s, column, items, n)
    ensures ColumnSum(s, column, FIRST_ROW, FIRST_ROW + n) == Sum(if n < |items| then items[..n] else items)
    decreases n
  {
    if n > 0 {
      ItemsSum(s, column, items, n - 1);
      var row := FIRST_ROW + n - 1;
      assert Lookup(s, Cell(column, row)) == AmountAt(items, row);
      if n <= |items| { assert items[..n][..n - 1] == items[..n - 1]; }
      if n == |items| { assert items[..n] == items; }
    }
  }

  lemma AllItemsSum(s: Sheet, column: char, items: seq<Item>)
    requires |items| <= ITEM_ROWS && Shows(s, column, items, ITEM_ROWS)
    ensures ItemsTotal(s, column) == Sum(items)
  {
    ItemsSum(s, column, items, ITEM_ROWS);
    assert items[..|items|] == items;
  }

  lemma ColumnsShow(d: StatementData, s: Sheet)
    requires SheetOf(s, d)
    ensures Shows(s, 'B', d.earnings, ITEM_ROWS) && Shows(s, 'D', d.deductions, ITEM_ROWS)
  {
  }

  lemma TotalsShow(d: StatementData, s: Sheet)
    requires SheetOf(s, d)
    ensures Lookup(s, Cell('B', 25)) == Some(Money(TotalPay(d)))
    ensures Lookup(s, Cell('D', 24)) == Some(Money(TotalDeduction(d)))
    ensures Lookup(s, Cell('D', 25)) == Some(Money(NetPay(d)))
  {
  }

  /** The printed totals are the sums of the printed item cells, and the printed net is their difference. */
  lemma TotalsMatchCells(d: StatementData, s: Sheet)
    requires |d.earnings| <= ITEM_ROWS && |d.deductions| <= ITEM_ROWS && SheetOf(s, d)
    ensures Lookup(s, Cell('B', 25)) == Some(Money(ItemsTotal(s, 'B')))
    ensures Lookup(s, Cell('D', 24)) == Some(Money(ItemsTotal(s, 'D')))
    ensures Lookup(s, Cell('D', 25)) == Some(Money(ItemsTotal(s, 'B') - ItemsTotal(s, 'D')))
  {
    ColumnsShow(d, s);
    TotalsShow(d, s);
    AllItemsSum(s, 'B', d.earnings);
    AllItemsSum(s, 'D', d.deductions);
  }

  // ---- The summary ----

  const SUMMARY_FIRST: nat := 4

  function PayOf(ds: seq<StatementData>): int { if ds == [] then 0 else PayOf(ds[..|ds| - 1]) + TotalPay(ds[|ds| - 1]) }
  function DeductionOf(ds: seq<StatementData>): int {
    if ds == [] then 0 else DeductionOf(ds[..|ds| - 1]) + TotalDeduction(ds[|ds| - 1])
  }
  function NetOf(ds: seq<StatementData>): int { if ds == [] then 0 else NetOf(ds[..|ds| - 1]) + NetPay(ds[|ds| - 1]) }

  function TitleCell(title: string, c: Cell): Option<Value> {
    if c == Cell('A', 1) then Some(Text(title + " 급여 요약"))
    else if c == Cell('A', 3) then Some(Text("직원식별"))
    else if c == Cell('B', 3) then Some(Text("총지급"))
    else if c == Cell('C', 3) then Some(Text("총공제"))
    else if c == Cell('D', 3) then Some(Text("실지급"))
    else None
  }

  function RowCell(name: string, pay: int, deduction: int, net: int, column: char): Option<Value> {
    match column
    case 'A' => Some(Text(name))
    case 'B' => Some(Money(pay))
    case 'C' => Some(Money(deduction))
    case 'D' => Some(Money(net))
    case _ => None
  }

  function SummaryRow(d: StatementData, column: char): Option<Value> {
    RowCell(d.employee, TotalPay(d), TotalDeduction(d), NetPay(d), column)
  }

  /** One row for each statement below the titles. */
  function RowsCell(title: string, ds: seq<StatementData>, c: Cell): Option<Value> {
    if c.row < SUMMARY_FIRST then TitleCell(title, c)
    else if c.row < SUMMARY_FIRST + |ds| then SummaryRow(ds[c.row - SUMMARY_FIRST], c.column)
    else None
  }

  /** What each cell of the finished summary holds: the rows, and the totals below them. */
  function SummaryCell(title: string, ds: seq<StatementData>, c: Cell): Option<Value> {
    if c.row == SUMMARY_FIRST + |ds| then RowCell("합계", PayOf(ds), DeductionOf(ds), NetOf(ds), c.column)
    else RowsCell(title, ds, c)
  }

  ghost predicate SummaryOf(s: Sheet, title: string, ds: seq<StatementData>) {
    forall c :: Lookup(s, c) == SummaryCell(title, ds, c)
  }

  function WithRow(s: Sheet, row: nat, name: string, pay: int, deduction: int, net: int): (r: Sheet)
    ensures forall c: Cell :: c.row != row ==> Lookup(r, c) == Lookup(s, c)
    ensures forall c: Cell :: c.row == row ==>
      Lookup(r, c) == Over(RowCell(name, pay, deduction, net, c.column), Lookup(s, c))
  {
    s[Cell('A', row) := Text(name)][Cell('B', row) := Money(pay)]
     [Cell('C', row) := Money(deduction)][Cell('D', row) := Money(net)]
  }

  method BuildSummary(title: string, ds: seq<StatementData>) returns (s: Sheet)
    ensures SummaryOf(s, title, ds)
  {
    s := map[Cell('A', 1) := Text(title + " 급여 요약"), Cell('A', 3) := Text("직원식별"), Cell('B', 3) := Text("총지급"),
             Cell('C', 3) := Text("총공제"), Cell('D', 3) := Text("실지급")];
    var row := SUMMARY_FIRST;
    var totalPay, totalDed, totalNet := 0, 0, 0;
    for i := 0 to |ds|
      invariant row == SUMMARY_FIRST + i && forall c :: Lookup(s, c) == RowsCell(title, ds[..i], c)
      invariant totalPay == PayOf(ds[..i]) && totalDed == DeductionOf(ds[..i]) && totalNet == NetOf(ds[..i])
    {
      assert ds[..i + 1][..i] == ds[..i];
      ghost var sofar := s;
      s := WithRow(s, row, ds[i].employee, TotalPay(ds[i]), TotalDeduction(ds[i]), NetPay(ds[i]));
      RowJoinsRows(title, sofar, s, ds[..i], ds[i]);
      assert ds[..i] + [ds[i]] == ds[..i + 1];
      totalPay := totalPay + TotalPay(ds[i]);
      totalDed := totalDed + TotalDeduction(ds[i]);
      totalNet := totalNet + NetPay(ds[i]);
      row := row + 1;
    }
    assert ds[..|ds|] == ds;
    s := WithRow(s, row, "합계", totalPay, totalDed, totalNet);
  }

  lemma RowJoinsRows(title: string, before: Sheet, after: Sheet, ds: seq<StatementData>, d: StatementData)
    requires forall c :: Lookup(before, c) == RowsCell(title, ds, c)
    requires after == WithRow(before, SUMMARY_FIRST + |ds|, d.employee, TotalPay(d), TotalDeduction(d), NetPay(d))
    ensures forall c :: Lookup(after, c) == RowsCell(title, ds + [d], c)
  {
    forall c: Cell ensures Lookup(after, c) == RowsCell(title, ds + [d], c) {
      assert Lookup(before, c) == RowsCell(title, ds, c);
      if SUMMARY_FIRST <= c.row < SUMMARY_FIRST + |ds| {
        assert (ds + [d])[c.row - SUMMARY_FIRST] == ds[c.row - SUMMARY_FIRST];
      }
    }
  }

  /** The printed totals are the sums of the printed rows above them, in all three columns, and the printed net total is
      the printed pay less the printed deductions. */
  lemma SummaryTotalsMatchCells(title: string, ds: seq<StatementData>, s: Sheet)
    requires SummaryOf(s, title, ds)
    ensures var last := SUMMARY_FIRST + |ds|;
      && Lookup(s, Cell('B', last)) == Some(Money(ColumnSum(s, 'B', SUMMARY_FIRST, last)))
      && Lookup(s, Cell('C', last)) == Some(Money(ColumnSum(s, 'C', SUMMARY_FIRST, last)))
      && Lookup(s, Cell('D', last)) == Some(Money(ColumnSum(s, 'D', SUMMARY_FIRST, last)))
      && ColumnSum(s, 'D', SUMMARY_FIRST, last)
         == ColumnSum(s, 'B', SUMMARY_FIRST, last) - ColumnSum(s, 'C', SUMMARY_FIRST, last)
  {
    assert ds[..|ds|] == ds;
    ColumnsAddUp(title, ds, s, |ds|);
  }

  lemma {:induction false} ColumnsAddUp(title: string, ds: seq<StatementData>, s: Sheet, n: nat)
    requires n <= |ds| && SummaryOf(s, title, ds)
    ensures ColumnSum(s, 'B', SUMMARY_FIRST, SUMMARY_FIRST + n) == PayOf(ds[..n])
    ensures ColumnSum(s, 'C', SUMMARY_FIRST, SUMMARY_FIRST + n) == DeductionOf(ds[..n])
    ensures ColumnSum(s, 'D', SUMMARY_FIRST, SUMMARY_FIRST + n) == NetOf(ds[..n])
      == PayOf(ds[..n]) - DeductionOf(ds[..n])
  {
    if n > 0 {
      ColumnsAddUp(title, ds, s, n - 1);
      assert ds[..n][..n - 1] == ds[..n - 1];
      var row := SUMMARY_FIRST + n - 1;
      assert forall column :: Lookup(s, Cell(column, row)) == SummaryRow(ds[n - 1], column);
    }
  }

  // ---- From the closed payload to the export ----

  /** Everything on a statement that is text: how a code is written, the month, the place of work, the detail lines. */
  datatype Texts = Texts(month: string, place: string, employee: int -> string, details: PayloadLine -> seq<string>)

  /** statements_from_snapshot for one line. */
  function StatementOf(line: PayloadLine, texts: Texts): StatementData
    requires line.employee.Some?
  {
    StatementData(texts.month, texts.employee(line.employee.value), texts.place, line.earnings, line.deductions,
                  texts.details(line))
  }

  function StatementsOf(lines: seq<PayloadLine>, texts: Texts): (ds: seq<StatementData>)
    requires forall k :: 0 <= k < |lines| ==> lines[k].employee.Some?
    ensures |ds| == |lines| && forall k :: 0 <= k < |ds| ==> ds[k] == StatementOf(lines[k], texts)
  {
    seq(|lines|, k requires 0 <= k < |lines| => StatementOf(lines[k], texts))
  }

  /** A line that has an employee and fits the layout. */
  predicate Printable(line: PayloadLine) {
    line.employee.Some? && |line.earnings| <= ITEM_ROWS && |line.deductions| <= ITEM_ROWS
  }

  predicate AllPrintable(lines: seq<PayloadLine>) { forall k :: 0 <= k < |lines| ==> Printable(lines[k]) }

  /** The package: a statement for each line, the summary, and the manifest's employee and net for each statement. */
  datatype Export = Export(statements: seq<Sheet>, summary: Sheet, manifest: seq<(string, int)>) | NoExport

  ghost predicate ExportOf(e: Export, lines: seq<PayloadLine>, texts: Texts) {
    && e.Export? && AllPrintable(lines) && |e.statements| == |e.manifest| == |lines|
    && (forall k :: 0 <= k < |lines| ==> SheetOf(e.statements[k], StatementOf(lines[k], texts)))
    && (forall k :: 0 <= k < |lines| ==>
          e.manifest[k] == (texts.employee(lines[k].employee.value), NetPay(StatementOf(lines[k], texts))))
    && SummaryOf(e.summary, texts.month, StatementsOf(lines, texts))
  }

  /** The whole package, or nothing when some line cannot be printed. */
  method BuildExport(lines: seq<PayloadLine>, texts: Texts) returns (e: Export)
    ensures e.Export? <==> AllPrintable(lines)
    ensures e.Export? ==> ExportOf(e, lines, texts)
  {
    if exists k :: 0 <= k < |lines| && lines[k].employee.None? {
      return NoExport;
    }
    var ds := StatementsOf(lines, texts);
    var sheets: seq<Sheet>, manifest: seq<(string, int)> := [], [];
    for k := 0 to |lines|
      invariant |sheets| == |manifest| == k && AllPrintable(lines[..k])
      invariant forall j :: 0 <= j < k ==> SheetOf(sheets[j], ds[j]) && manifest[j] == (ds[j].employee, NetPay(ds[j]))
    {
      var book := BuildStatement(ds[k]);
      if book.TooManyRows? {
        assert !Printable(lines[k]);
        return NoExport;
      }
      assert lines[..k + 1] == lines[..k] + [lines[k]];
      sheets, manifest := sheets + [book.sheet], manifest + [(ds[k].employee, NetPay(ds[k]))];
    }
    assert lines[..|lines|] == lines;
    var summary := BuildSummary(texts.month, ds);
    e := Export(sheets, summary, manifest);
  }

  /** A line whose net is what its items leave over, as the month's payload builds it. */
  predicate Balanced(line: PayloadLine) { line.net == Sum(line.earnings) - Sum(line.deductions) }

  function NetOfLines(lines: seq<PayloadLine>): int {
    if lines == [] then 0 else NetOfLines(lines[..|lines| - 1]) + lines[|lines| - 1].net
  }

  /** The k-th net is on the k-th statement, in its row of the summary, and in the manifest. */
  ghost predicate NetPrinted(e: Export, k: nat, net: int) {
    && e.Export? && k < |e.statements| && k < |e.manifest| && e.manifest[k].1 == net
    && Lookup(e.statements[k], Cell('D', 25)) == Some(Money(net))
    && Lookup(e.summary, Cell('D', SUMMARY_FIRST + k)) == Some(Money(net))
  }

  /** Every net of a balanced payload is printed everywhere, and the summary's printed net total is their sum. */
  lemma ExportPrintsPayloadNets(lines: seq<PayloadLine>, texts: Texts, e: Export)
    requires ExportOf(e, lines, texts) && forall k :: 0 <= k < |lines| ==> Balanced(lines[k])
    ensures forall k :: 0 <= k < |lines| ==> NetPrinted(e, k, lines[k].net)
    ensures Lookup(e.summary, Cell('D', SUMMARY_FIRST + |lines|)) == Some(Money(NetOfLines(lines)))
  {
    forall k | 0 <= k < |lines| ensures NetPrinted(e, k, lines[k].net) {
      SheetPrintsNet(lines[k], texts, e.statements[k]);
      SummaryPrintsNet(StatementsOf(lines, texts), texts, e.summary, k);
    }
    NetsAgree(lines, texts);
    SummaryPrintsTotal(StatementsOf(lines, texts), texts, e.summary);
  }

  lemma SheetPrintsNet(line: PayloadLine, texts: Texts, s: Sheet)
    requires Printable(line) && Balanced(line) && SheetOf(s, StatementOf(line, texts))
    ensures Lookup(s, Cell('D', 25)) == Some(Money(line.net)) && NetPay(StatementOf(line, texts)) == line.net
  {
    TotalsShow(StatementOf(line, texts), s);
  }

  lemma SummaryPrintsNet(ds: seq<StatementData>, texts: Texts, s: Sheet, k: nat)
    requires k < |ds| && SummaryOf(s, texts.month, ds)
    ensures Lookup(s, Cell('D', SUMMARY_FIRST + k)) == Some(Money(NetPay(ds[k])))
  {
  }

  lemma SummaryPrintsTotal(ds: seq<StatementData>, texts: Texts, s: Sheet)
    requires SummaryOf(s, texts.month, ds)
    ensures Lookup(s, Cell('D', SUMMARY_FIRST + |ds|)) == Some(Money(NetOf(ds)))
  {
  }

  lemma {:induction false} NetsAgree(lines: seq<PayloadLine>, texts: Texts)
    requires AllPrintable(lines) && forall k :: 0 <= k < |lines| ==> Balanced(lines[k])
    ensures NetOf(StatementsOf(lines, texts)) == NetOfLines(lines)
  {
    if lines != [] {
      var n := |lines| - 1;
      NetsAgree(lines[..n], texts);
      assert StatementsOf(lines, texts)[..n] == StatementsOf(lines[..n], texts);
    }
  }

  /** Every line of a built payload is balanced, can be printed, and carries the gross pay of its employee. */
  lemma BuiltPayloadsFit(payload: seq<PayloadLine>, books: Books, date: Date, rnd: real -> real, k: nat)
    requires BuiltFrom(payload, books, date, rnd) && k < |payload|
    ensures Balanced(payload[k]) && Printable(payload[k])
    ensures k < |EmployeesOf(books.staff, date)|
      && payload[k].net == LineFor(books, EmployeesOf(books.staff, date)[k], date, rnd).gross
  {
    var employees := EmployeesOf(books.staff, date);
    if employees != [] { LinesForAt(books, date, rnd, if k < |employees| then k else 0); }
    assert payload[k].earnings[..0] == [];
  }

  // ---- What the printed sheets say, cell by cell ----

  predicate Says(s: Sheet, column: char, row: nat, text: string) { Lookup(s, Cell(column, row)) == Some(Text(text)) }

  predicate Pays(s: Sheet, column: char, row: nat, amount: int) { Lookup(s, Cell(column, row)) == Some(Money(amount)) }

  /** A list of items down two columns from row 8, and nothing below it up to row 23. */
  ghost predicate Lists(s: Sheet, names: char, amounts: char, items: seq<Item>) {
    && (forall i :: 0 <= i < |items| ==>
          Says(s, names, 8 + i, items[i].name) && Pays(s, amounts, 8 + i, items[i].amount))
    && forall row: nat :: 8 + |items| <= row <= 23 ==>
         Lookup(s, Cell(names, row)) == None && Lookup(s, Cell(amounts, row)) == None
  }

  lemma StatementSays(d: StatementData, s: Sheet)
    requires |d.earnings| <= 16 && |d.deductions| <= 16 && SheetOf(s, d)
    ensures Says(s, 'A', 1, "급여명세서") && Says(s, 'A', 2, "귀속월") && Says(s, 'B', 1, d.month)
    ensures Says(s, 'A', 3, "직원식별") && Says(s, 'B', 3, d.employee)
    ensures Says(s, 'A', 4, "부서/직급") && Says(s, 'B', 4, d.place)
    ensures Says(s, 'A', 7, "지급 항목") && Says(s, 'B', 7, "금액") && Says(s, 'C', 7, "공제 항목") && Says(s, 'D', 7, "금액")
    ensures Lists(s, 'A', 'B', d.earnings) && Lists(s, 'C', 'D', d.deductions)
    ensures Says(s, 'C', 24, "총공제") && Says(s, 'A', 25, "총지급") && Says(s, 'C', 25, "실지급액")
    ensures Says(s, 'A', 27, "산정 내역")
    ensures forall i :: 0 <= i < |d.details| ==> Says(s, 'A', 28 + i, d.details[i])
  {
    ListsItems(d, s);
  }

  lemma ListsItems(d: StatementData, s: Sheet)
    requires |d.earnings| <= 16 && |d.deductions| <= 16 && SheetOf(s, d)
    ensures Lists(s, 'A', 'B', d.earnings) && Lists(s, 'C', 'D', d.deductions)
  {
    forall row: nat | 8 <= row <= 23
      ensures RowLists(s, 'A', 'B', d.earnings, row) && RowLists(s, 'C', 'D', d.deductions, row) {
      RowIs(d, s, row);
    }
    RowsList(s, 'A', 'B', d.earnings);
    RowsList(s, 'C', 'D', d.deductions);
  }

  predicate RowLists(s: Sheet, names: char, amounts: char, items: seq<Item>, row: nat) {
    Lookup(s, Cell(names, row)) == NameAt(items, row) && Lookup(s, Cell(amounts, row)) == AmountAt(items, row)
  }

  lemma RowIs(d: StatementData, s: Sheet, row: nat)
    requires SheetOf(s, d) && 8 <= row <= 23
    ensures RowLists(s, 'A', 'B', d.earnings, row) && RowLists(s, 'C', 'D', d.deductions, row)
  {
    assert forall column :: Lookup(s, Cell(column, row)) == StatementCell(d, Cell(column, row));
  }

  lemma RowsList(s: Sheet, names: char, amounts: char, items: seq<Item>)
    requires |items| <= 16 && forall row: nat :: 8 <= row <= 23 ==> RowLists(s, names, amounts, items, row)
    ensures Lists(s, names, amounts, items)
  {
    forall i | 0 <= i < |items|
      ensures Says(s, names, 8 + i, items[i].name) && Pays(s, amounts, 8 + i, items[i].amount)
    {
      assert RowLists(s, names, amounts, items, 8 + i);
    }
    forall row: nat | 8 + |items| <= row <= 23
      ensures Lookup(s, Cell(names, row)) == None && Lookup(s, Cell(amounts, row)) == None {
      assert RowLists(s, names, amounts, items, row);
    }
  }

  lemma SummarySays(title: string, ds: seq<StatementData>, s: Sheet)
    requires SummaryOf(s, title, ds)
    ensures Says(s, 'A', 1, title + " 급여 요약") && Says(s, 'A', 3, "직원식별") && Says(s, 'B', 3, "총지급")
    ensures Says(s, 'C', 3, "총공제") && Says(s, 'D', 3, "실지급") && Says(s, 'A', 4 + |ds|, "합계")
    ensures forall k :: 0 <= k < |ds| ==> SummaryRowSays(s, 4 + k, ds[k])
  {
    forall k | 0 <= k < |ds| ensures SummaryRowSays(s, 4 + k, ds[k]) {
      assert forall column :: Lookup(s, Cell(column, 4 + k)) == SummaryRow(ds[k], column);
    }
  }

  predicate SummaryRowSays(s: Sheet, row: nat, d: StatementData) {
    && Says(s, 'A', row, d.employee) && Pays(s, 'B', row, Sum(d.earnings)) && Pays(s, 'C', row, Sum(d.deductions))
    && Pays(s, 'D', row, Sum(d.earnings) - Sum(d.deductions))
  }

  /** Each statement, its row of the summary and its manifest entry name the employee of the payload's line, and the
      statement lists the line's items. */
  lemma ExportNamesEmployees(lines: seq<PayloadLine>, texts: Texts, e: Export, k: nat)
    requires ExportOf(e, lines, texts) && k < |lines|
    ensures lines[k].employee.Some? && var name := texts.employee(lines[k].employee.value);
      && Says(e.statements[k], 'B', 3, name) && Says(e.statements[k], 'B', 1, texts.month)
      && Says(e.summary, 'A', 4 + k, name) && e.manifest[k].0 == name
    ensures Lists(e.statements[k], 'A', 'B', lines[k].earnings)
    ensures Lists(e.statements[k], 'C', 'D', lines[k].deductions)
  {
    StatementSays(StatementOf(lines[k], texts), e.statements[k]);
    SummarySays(texts.month, StatementsOf(lines, texts), e.summary);
    assert SummaryRowSays(e.summary, 4 + k, StatementsOf(lines, texts)[k]);
  }
}
