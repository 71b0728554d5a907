/** The cash flow page: section headers, line items and totals, with zero-suppressing currency cells. */
module CashFlow {
  import opened Wrappers
  import opened Variance
  import Lists

  /** A `CashFlowRow`; an absent `isTotal` is `false`. `level` is 1 or 2. */
  datatype CashFlowRow = CashFlowRow(id: string, name: string, level: int, current: real, previous: real, isTotal: bool)

  /** `mockCashFlow`, the constant table the page shows and `formatCurrency` searches. */
  function MockCashFlow(): seq<CashFlowRow> {
    [ CashFlowRow("1", "OPERATING ACTIVITIES", 1, 0.0, 0.0, false),
      CashFlowRow("1-1", "Profit before tax", 2, 4800000.0, 4000000.0, false),
      CashFlowRow("1-2", "Depreciation & amortization", 2, 850000.0, 780000.0, false),
      CashFlowRow("1-3", "Changes in working capital", 2, -420000.0, -350000.0, false),
      CashFlowRow("1-4", "Tax paid", 2, -1200000.0, -1000000.0, false),
      CashFlowRow("1-t", "Net cash from operating activities", 1, 4030000.0, 3430000.0, true),
      CashFlowRow("2", "INVESTING ACTIVITIES", 1, 0.0, 0.0, false),
      CashFlowRow("2-1", "Purchase of property, plant & equipment", 2, -1500000.0, -1200000.0, false),
      CashFlowRow("2-2", "Purchase of intangible assets", 2, -800000.0, -600000.0, false),
      CashFlowRow("2-3", "Proceeds from disposal of assets", 2, 150000.0, 80000.0, false),
      CashFlowRow("2-t", "Net cash used in investing activities", 1, -2150000.0, -1720000.0, true),
      CashFlowRow("3", "FINANCING ACTIVITIES", 1, 0.0, 0.0, false),
      CashFlowRow("3-1", "Repayment of borrowings", 2, -300000.0, -400000.0, false),
      CashFlowRow("3-2", "Dividends paid", 2, -500000.0, -450000.0, false),
      CashFlowRow("3-3", "Interest paid", 2, -180000.0, -200000.0, false),
      CashFlowRow("3-t", "Net cash used in financing activities", 1, -980000.0, -1050000.0, true),
      CashFlowRow("4", "NET CHANGE IN CASH", 1, 900000.0, 660000.0, true),
      CashFlowRow("5", "Cash at beginning of period", 2, 7500000.0, 6540000.0, false),
      CashFlowRow("6", "Cash at end of period", 1, 8400000.0, 7200000.0, true) ]
  }

  /** `isHeader`: a level-1 row that is not a total and has a zero current amount. */
  predicate IsHeader(r: CashFlowRow) {
    r.level == 1 && !r.isTotal && r.current == 0.0
  }

  /** Example, on the sample data (`RowOf` states the general rule): exactly the three section
      titles (rows 0, 6 and 11) are headers, and every other row shows its amounts. */
  lemma MockHeaders()
    ensures forall i :: 0 <= i < |MockCashFlow()| ==> (IsHeader(MockCashFlow()[i]) <==> i == 0 || i == 6 || i == 11)
    ensures MockCashFlow()[0].name == "OPERATING ACTIVITIES"
    ensures MockCashFlow()[6].name == "INVESTING ACTIVITIES"
    ensures MockCashFlow()[11].name == "FINANCING ACTIVITIES"
  {
  }

  /** `sub` occurs in `s` starting at position `i`. */
  predicate OccursAt(s: string, sub: string, i: int) {
    0 <= i && i + |sub| <= |s| && s[i..i + |sub|] == sub
  }

  /** `String.prototype.includes`. */
  predicate Contains(s: string, sub: string) {
    exists i | 0 <= i <= |s| :: OccursAt(s, sub, i)
  }

  /** The index of the first row at or after `k` whose current amount is `v`. */
  function FindFrom(table: seq<CashFlowRow>, v: real, k: nat): (i: Option<nat>)
    requires k <= |table|
    ensures i.Some? ==> k <= i.value < |table| && table[i.value].current == v
    ensures i.Some? ==> forall j :: k <= j < i.value ==> table[j].current != v
    ensures i.None? ==> forall j :: k <= j < |table| ==> table[j].current != v
    decreases |table| - k
  {
    if k == |table| then None
    else if table[k].current == v then Some(k)
    else FindFrom(table, v, k + 1)
  }

  /** `table.find(r => r.current === v)`: the first row whose current amount is `v`, if any. */
  function Find(table: seq<CashFlowRow>, v: real): (r: Option<CashFlowRow>)
    ensures r.None? <==> forall j :: 0 <= j < |table| ==> table[j].current != v
    ensures r.Some? ==> exists i :: 0 <= i < |table| && table[i] == r.value && IsFirstWith(table, v, i)
  {
    match FindFrom(table, v, 0)
    case None => None
    case Some(i) => Some(table[i])
  }

  /** Row `i` is the first row of `table` whose current amount is `v`. */
  predicate IsFirstWith(table: seq<CashFlowRow>, v: real, i: int) {
    0 <= i < |table| && table[i].current == v && forall j :: 0 <= j < i ==> table[j].current != v
  }

  /** A currency cell: blank, or the amount handed to the number formatter. */
  datatype Cell = Blank | Currency(amount: real)

  /** `formatCurrency(val)`: a zero is blanked when the first row of the table whose current amount is
      zero is a non-total row named with 'ACTIVITIES'; every other value is formatted. The search is
      on current amounts whichever column the value comes from. */
  function FormatCurrency(table: seq<CashFlowRow>, val: real): (c: Cell)
    ensures c.Currency? ==> c.amount == val
    ensures c == Blank ==> val == 0.0
    ensures c == Blank <==> val == 0.0 && exists i :: IsFirstWith(table, 0.0, i)
                                                    && Contains(table[i].name, "ACTIVITIES") && !table[i].isTotal
  {
    var found := Find(table, val);
    if val == 0.0 && found.Some? && Contains(found.value.name, "ACTIVITIES") && !found.value.isTotal
    then Blank else Currency(val)
  }

  /** The Change % badge: the percentage with its sign prefix, coloured by its sign (no icon). */
  datatype RowView = RowView(name: string, currentCell: Option<Cell>, previousCell: Option<Cell>,
                             change: Option<Badge>)

  /** One table row: header rows show no current, previous or change cell; other rows show both
      amounts through `formatCurrency`, and a change badge exactly when `previous` is non-zero,
      styled by the sign of `current - previous` and with a `+` exactly when the amount grew. */
  function RowOf(table: seq<CashFlowRow>, r: CashFlowRow): (v: RowView)
    ensures v.currentCell.None? <==> IsHeader(r)
    ensures v.previousCell.None? <==> IsHeader(r)
    ensures v.currentCell.Some? ==> v.currentCell.value == FormatCurrency(table, r.current)
    ensures v.previousCell.Some? ==> v.previousCell.value == FormatCurrency(table, r.previous)
    ensures v.change.Some? <==> !IsHeader(r) && r.previous != 0.0
    ensures v.change.Some? ==> v.change.value.percent == CalculateVariance(r.current, r.previous)
    ensures v.change.Some? ==> v.change.value.trend == TrendOf(r.current - r.previous)
    ensures v.change.Some? ==> (v.change.value.prefix == "+" <==> r.current > r.previous)
  {
    VarianceBadge(r.current, r.previous);
    var header := IsHeader(r);
    RowView(r.name,
            if header then None else Some(FormatCurrency(table, r.current)),
            if header then None else Some(FormatCurrency(table, r.previous)),
            if !header && r.previous != 0.0 then Some(BadgeOf(CalculateVariance(r.current, r.previous))) else None)
  }

  /** The table body, `mockCashFlow.map(...)`. */
  function Rendered(table: seq<CashFlowRow>): (v: seq<RowView>)
    ensures |v| == |table|
    ensures forall i :: 0 <= i < |table| ==> v[i] == RowOf(table, table[i])
  {
    Lists.Map(table, (r: CashFlowRow) => RowOf(table, r))
  }

  /** On the sample table every zero amount is blanked, because the first row with a zero current
      amount is the 'OPERATING ACTIVITIES' header. */
  lemma MockZeroIsBlank()
    ensures FormatCurrency(MockCashFlow(), 0.0) == Blank
  {
    var t := MockCashFlow();
    assert OccursAt(t[0].name, "ACTIVITIES", 10);
    assert IsFirstWith(t, 0.0, 0);
  }
}
