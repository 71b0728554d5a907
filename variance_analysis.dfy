/** The variance analysis page: period-over-period deviations per account, banded and flagged by threshold. */
module VarianceAnalysis {
  import opened Wrappers
  import opened ExpandTree

  datatype Threshold = High | Medium | Low

  datatype Period = MoM | QoQ | YoY

  /** The fields of a `VarianceItem` other than `id`, `children` and `isExpanded`. */
  datatype VarianceLine = VarianceLine(account: string, current: real, previous: real,
                                       varianceAbs: real, variancePct: real,
                                       threshold: Threshold, reason: Option<string>)

  type VarianceItem = Node<VarianceLine>

  /** `mockVarianceData`, the state the page starts from. */
  function MockVarianceData(): seq<VarianceItem> {
    [ Node("1", VarianceLine("Revenue", 12500000.0, 11200000.0, 1300000.0, 11.6, Low, None),
        Present([ Node("1-1", VarianceLine("Software Sales", 8500000.0, 7200000.0, 1300000.0, 18.0, Medium,
                                           Some("New enterprise deal closed in MY")), Absent, None),
                  Node("1-2", VarianceLine("Maintenance", 4000000.0, 4000000.0, 0.0, 0.0, Low, None), Absent, None) ]),
        Some(true)),
      Node("2", VarianceLine("Cost of Sales", 4500000.0, 4200000.0, 300000.0, 7.1, Low, None), Present([]), Some(false)),
      Node("3", VarianceLine("Operating Expenses", 3200000.0, 2100000.0, 1100000.0, 52.4, High,
                             Some("Unexpected legal fees in Indonesia")), Present([]), Some(false)) ]
  }

  datatype Colour = Emerald | Amber | Rose

  /** The percentage badge colour: above 20 rose, above 10 amber, otherwise emerald. */
  function BandOf(pct: real): (c: Colour)
    ensures c == Rose <==> pct > 20.0
    ensures c == Amber <==> 10.0 < pct <= 20.0
    ensures c == Emerald <==> pct <= 10.0
  {
    if pct > 20.0 then Rose else if pct > 10.0 then Amber else Emerald
  }

  /** What one table row shows. */
  datatype RowView = RowView(account: string, indent: nat, chevron: Option<bool>,
                             highlighted: bool, alertIcon: bool,
                             current: real, previous: real,
                             amount: real, amountColour: Colour, amountPrefix: string,
                             percent: real, band: Colour, trendingUp: bool,
                             reason: Option<string>)

  /** One row of `renderRows(items, level)`: indented by the depth it is rendered at, highlighted and
      flagged exactly for the High threshold, the amount green with `+` exactly when strictly positive
      (zero is rose), and the reason shown only when it is a non-empty string. */
  function ViewOf(r: Row<VarianceLine>): (v: RowView)
    ensures var d := r.node.data;
      && v.indent == r.depth
      && v.highlighted == (d.threshold == High) && v.alertIcon == (d.threshold == High)
      && (v.amountColour == Emerald <==> d.varianceAbs > 0.0)
      && (v.amountColour != Emerald ==> v.amountColour == Rose)
      && (v.amountPrefix == "+" <==> d.varianceAbs > 0.0)
      && v.band == BandOf(d.variancePct)
      && v.trendingUp == (d.variancePct > 0.0)
      && (v.reason.Some? <==> d.reason.Some? && d.reason.value != "")
  {
    var d := r.node.data;
    var positive := d.varianceAbs > 0.0;
    RowView(d.account, r.depth, Chevron(r.node),
            d.threshold == High, d.threshold == High,
            d.current, d.previous,
            d.varianceAbs, if positive then Emerald else Rose, if positive then "+" else "",
            d.variancePct, BandOf(d.variancePct), d.variancePct > 0.0,
            if d.reason.Some? && d.reason.value != "" then d.reason else None)
  }

  /** The table body, `renderRows(data)` with the default starting level 0. */
  function Rendered(data: seq<VarianceItem>): (v: seq<RowView>)
    ensures |v| == |Rows(data, 0)|
    ensures forall i :: 0 <= i < |v| ==> v[i] == ViewOf(Rows(data, 0)[i])
  {
    Lists.Map(Rows(data, 0), ViewOf)
  }

  /** The indentation of every rendered row is the tree depth of its record, counted from 0 at the top. */
  lemma IndentIsTreeDepth(data: seq<VarianceItem>, k: nat)
    requires k < |Rows(data, 0)|
    ensures Row(Rows(data, 0)[k].node, Rendered(data)[k].indent) in Walk(data, 0)
  {
    RowInWalk(data, 0, k);
  }

  /** No two records of the sample data share an id. */
  lemma MockDistinctIds()
    ensures DistinctIds(Walk(MockVarianceData(), 0))
  {
    var d := MockVarianceData();
    assert WalkIdsOf(d[0]) == ["1", "1-1", "1-2"];
    assert WalkIds(d) == ["1", "1-1", "1-2", "2", "3"];
    DistinctWalkIds(d, 0);
  }

  /** The page component: the `data` state cell and the `period` selector. */
  class VarianceAnalysisPage {
    var data: seq<VarianceItem>
    var period: Period

    /** Ids stay distinct: true of the sample data and kept by every toggle. */
    ghost predicate Valid()
      reads this
    {
      DistinctIds(Walk(data, 0))
    }

    constructor ()
      ensures data == MockVarianceData() && period == MoM
      ensures Valid()
    {
      data := MockVarianceData();
      period := MoM;
      MockDistinctIds();
    }

    function Table(): seq<RowView>
      reads this
    {
      Rendered(data)
    }

    /** `toggleExpand(id)`. */
    method ToggleExpand(id: string)
      modifies this
      ensures data == Toggle(old(data), id) && period == old(period)
      ensures old(Valid()) ==> Valid()
    {
      if Valid() {
        ToggleKeepsDistinctIds(data, id, 0);
      }
      data := Toggle(data, id);
    }

    /** A click on the name cell of the `k`-th rendered row, guarded by `item.children && item.children.length > 0`. */
    method ClickRow(k: nat)
      requires k < |Rows(data, 0)|
      modifies this
      ensures data == ParentClick(old(data), k) && period == old(period)
      ensures old(Valid()) ==> Valid()
      ensures old(Valid()) ==> var before, after := Walk(old(data), 0), Walk(data, 0);
        |after| == |before| &&
        forall i :: 0 <= i < |before| && !HasChildren(before[i].node) ==>
          after[i].node.isExpanded == before[i].node.isExpanded
    {
      if Valid() {
        ParentClickKeepsLeafFlags(data, k);
      }
      var n := Rows(data, 0)[k].node;
      if n.children.Present? && |n.children.items| > 0 {
        ToggleExpand(n.id);
      }
    }

    /** A period button: `setPeriod(p)`. Nothing in the table depends on the period. */
    method SetPeriod(p: Period)
      modifies this
      ensures period == p && data == old(data)
      ensures Table() == old(Table())
    {
      period := p;
    }
  }
}
