/** The financial reports page: a profit-and-loss hierarchy with month-on-month and budget variance columns. */
module FinancialReports {
  import opened Wrappers
  import opened ExpandTree
  import opened Variance

  datatype ReportType = ProfitAndLoss | BalanceSheetTab | CashFlowTab

  datatype Amounts = Amounts(current: real, previous: real, budget: real)

  /** The fields of a `ReportRow` other than `id`, `children` and `isExpanded`. */
  datatype ReportLine = ReportLine(name: string, level: int, values: Amounts)

  type ReportRow = Node<ReportLine>

  function Line(id: string, name: string, level: int, c: real, p: real, b: real, kids: Children<ReportLine>, flag: Option<bool>): ReportRow {
    Node(id, ReportLine(name, level, Amounts(c, p, b)), kids, flag)
  }

  /** `mockPLData`, the state the page starts from. */
  function MockPLData(): seq<ReportRow> {
    [ Line("rev", "Revenue", 1, 12500000.0, 11200000.0, 12000000.0,
        Present([ Line("sales", "Sales Revenue", 2, 12000000.0, 10800000.0, 11500000.0, Absent, None),
                  Line("other", "Other Income", 2, 500000.0, 400000.0, 500000.0, Absent, None) ]),
        Some(true)),
      Line("cos", "Cost of Sales", 1, -4500000.0, -4200000.0, -4300000.0, Present([]), Some(false)),
      Line("gp", "Gross Profit", 1, 8000000.0, 7000000.0, 7700000.0, Absent, None),
      Line("opex", "Operating Expenses", 1, -3200000.0, -3000000.0, -3100000.0,
        Present([ Line("salaries", "Salaries & Wages", 2, -2000000.0, -1800000.0, -1900000.0, Absent, None),
                  Line("rent", "Rent & Utilities", 2, -500000.0, -500000.0, -500000.0, Absent, None),
                  Line("marketing", "Marketing", 2, -700000.0, -700000.0, -700000.0, Absent, None) ]),
        Some(true)),
      Line("ebitda", "EBITDA", 1, 4800000.0, 4000000.0, 4600000.0, Absent, None) ]
  }

  /** `onClick={() => item.children && toggleExpand(item.id)}`: a defined children array is truthy even when empty. */
  predicate Clickable(n: ReportRow) {
    n.children.Present?
  }

  /** The hierarchy after a click on the `k`-th rendered row. */
  function AfterClick(data: seq<ReportRow>, k: nat): (r: seq<ReportRow>)
    requires k < |Rows(data, 0)|
    ensures Shape(r) == Shape(data)
    ensures !Clickable(Rows(data, 0)[k].node) ==> r == data
    ensures Clickable(Rows(data, 0)[k].node) ==> WalksAgreeExcept(Walk(r, 0), Walk(data, 0), Rows(data, 0)[k].node.id)
  {
    var n := Rows(data, 0)[k].node;
    ToggleKeepsShape(data, n.id);
    ToggleWalk(data, n.id, 0);
    if Clickable(n) then Toggle(data, n.id) else data
  }

  /** What one table row shows. */
  datatype RowView = RowView(name: string, level: int, chevron: Option<bool>,
                             current: real, previous: real, budget: real,
                             monthOnMonth: Badge, versusBudget: Badge)

  /** One row of `renderRows`: the MoM badge is the variance against `previous`, the Var % badge the
      variance against `budget`; each is up, down or flat with the sign of the difference from its base. */
  function ViewOf(r: Row<ReportLine>): (v: RowView)
    ensures var a := r.node.data.values;
      && v.monthOnMonth.percent == CalculateVariance(a.current, a.previous)
      && v.versusBudget.percent == CalculateVariance(a.current, a.budget)
      && v.monthOnMonth.trend == (if a.previous == 0.0 then Flat else TrendOf(a.current - a.previous))
      && v.versusBudget.trend == (if a.budget == 0.0 then Flat else TrendOf(a.current - a.budget))
      && (v.monthOnMonth.prefix == "+" <==> a.previous != 0.0 && a.current > a.previous)
      && (v.versusBudget.prefix == "+" <==> a.budget != 0.0 && a.current > a.budget)
  {
    var a := r.node.data.values;
    VarianceBadge(a.current, a.previous);
    VarianceBadge(a.current, a.budget);
    RowView(r.node.data.name, r.node.data.level, Chevron(r.node), a.current, a.previous, a.budget,
            BadgeOf(CalculateVariance(a.current, a.previous)), BadgeOf(CalculateVariance(a.current, a.budget)))
  }

  /** The table body, `renderRows(data)`. */
  function Rendered(data: seq<ReportRow>): (v: seq<RowView>)
    ensures |v| == |Rows(data, 0)|
    ensures forall i :: 0 <= i < |v| ==> v[i] == ViewOf(Rows(data, 0)[i])
  {
    Lists.Map(Rows(data, 0), ViewOf)
  }

  /** The page component: the `reportType` tab and the `data` state cell. */
  class FinancialReportsPage {
    var reportType: ReportType
    var data: seq<ReportRow>

    constructor ()
      ensures reportType == ProfitAndLoss && data == MockPLData()
    {
      reportType := ProfitAndLoss;
      data := MockPLData();
    }

    function Table(): seq<RowView>
      reads this
    {
      Rendered(data)
    }

    /** `toggleExpand(id)`. */
    method ToggleExpand(id: string)
      modifies this
      ensures data == Toggle(old(data), id) && reportType == old(reportType)
    {
      data := Toggle(data, id);
    }

    /** A click on the `k`-th rendered row. */
    method ClickRow(k: nat)
      requires k < |Rows(data, 0)|
      modifies this
      ensures data == AfterClick(old(data), k) && reportType == old(reportType)
    {
      var n := Rows(data, 0)[k].node;
      if n.children.Present? {
        ToggleExpand(n.id);
      }
    }

    /** A tab button: `setReportType(t)`. The table is rendered from `data` alone, so it stays the same. */
    method SetReportType(t: ReportType)
      modifies this
      ensures reportType == t && data == old(data)
      ensures Table() == old(Table())
    {
      reportType := t;
    }
  }

  /** Cost of Sales has an empty children array: its row shows no chevron, yet a click on it toggles
      its flag. */
  lemma CostOfSalesTogglesWithoutChevron()
    ensures |Rows(MockPLData(), 0)| == 10
    ensures Rows(MockPLData(), 0)[3].node.id == "cos"
    ensures Chevron(Rows(MockPLData(), 0)[3].node) == None
    ensures AfterClick(MockPLData(), 3)[1].isExpanded == Some(true)
    ensures Display(Rows(AfterClick(MockPLData(), 3), 0)) == Display(Rows(MockPLData(), 0))
  {
    var d := MockPLData();
    var rev, cos := d[0], d[1];
    assert RowsOf(rev, 0) == [Row(rev, 0)] + Rows(rev.children.items, 1);
    assert |Rows(rev.children.items, 1)| == 2;
    assert RowsOf(cos, 0) == [Row(cos, 0)];
    assert Rows(d, 0)[3] == Row(cos, 0);
    ToggleAt(d, "cos", 1);
    assert LeafMatches(d, "cos");
    ToggleLeafInvisible(d, "cos", 0);
  }
}
