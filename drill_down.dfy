/** The variance drill-down page: actual against budget per account and subsidiary, with stored variances. */
module DrillDown {
  import opened Wrappers
  import opened ExpandTree

  /** The fields of a `DrillDownItem` other than `id`, `children` and `isExpanded`. */
  datatype DrillLine = DrillLine(name: string, level: int, actual: real, budget: real,
                                 variance: real, variancePercent: real)

  type DrillDownItem = Node<DrillLine>

  function Item(id: string, name: string, level: int, a: real, b: real, v: real, p: real,
                kids: Children<DrillLine>, flag: Option<bool>): DrillDownItem {
    Node(id, DrillLine(name, level, a, b, v, p), kids, flag)
  }

  /** `mockDrillDownData`, the state the page starts from. */
  function MockDrillDownData(): seq<DrillDownItem> {
    [ Item("1", "Revenue", 1, 12500000.0, 12000000.0, 500000.0, 4.2,
        Present([ Item("1-1", "Software Revenue", 2, 10800000.0, 10200000.0, 600000.0, 5.9,
                    Present([ Item("1-1-1", "Securemetric MY", 3, 5400000.0, 5000000.0, 400000.0, 8.0, Absent, None),
                              Item("1-1-2", "Securemetric SG", 3, 3200000.0, 3100000.0, 100000.0, 3.2, Absent, None),
                              Item("1-1-3", "Securemetric ID", 3, 1500000.0, 1400000.0, 100000.0, 7.1, Absent, None),
                              Item("1-1-4", "Securemetric VN", 3, 700000.0, 700000.0, 0.0, 0.0, Absent, None) ]),
                    Some(true)),
                  Item("1-2", "Hardware Revenue", 2, 1200000.0, 1300000.0, -100000.0, -7.7,
                    Present([ Item("1-2-1", "Securemetric MY", 3, 600000.0, 700000.0, -100000.0, -14.3, Absent, None),
                              Item("1-2-2", "Securemetric SG", 3, 600000.0, 600000.0, 0.0, 0.0, Absent, None) ]),
                    Some(false)),
                  Item("1-3", "Maintenance & Support", 2, 500000.0, 500000.0, 0.0, 0.0, Absent, None) ]),
        Some(true)),
      Item("2", "Cost of Sales", 1, -4500000.0, -4300000.0, -200000.0, -4.7, Present([]), Some(false)),
      Item("3", "Operating Expenses", 1, -3200000.0, -3100000.0, -100000.0, -3.2, Present([]), Some(false)) ]
  }

  datatype Colour = Emerald | Rose

  /** The `Var %` badge. */
  datatype PercentBadge = PercentBadge(percent: real, colour: Colour, trendingUp: bool, prefix: string)

  /** What one table row shows. */
  datatype RowView = RowView(name: string, level: int, chevron: Option<bool>,
                             actual: real, actualInRed: bool, budget: real,
                             variance: real, varianceColour: Colour, variancePrefix: string,
                             badge: Option<PercentBadge>)

  /** One row of `renderRows`. The variance amount is green with a `+` exactly when it is not negative
      (so zero reads `+`); the percentage badge is left out exactly when the stored percentage is zero,
      and is otherwise green, trending up and signed `+` exactly when it is positive. */
  function ViewOf(r: Row<DrillLine>): (v: RowView)
    ensures var d := r.node.data;
      && (v.varianceColour == Emerald <==> d.variance >= 0.0)
      && (v.variancePrefix == "+" <==> d.variance >= 0.0)
      && (v.variancePrefix != "+" ==> v.variancePrefix == "")
      && (v.badge.None? <==> d.variancePercent == 0.0)
      && (v.badge.Some? ==> v.badge.value.percent == d.variancePercent
                            && (v.badge.value.colour == Emerald <==> d.variancePercent > 0.0)
                            && v.badge.value.trendingUp == (d.variancePercent > 0.0)
                            && (v.badge.value.prefix == "+" <==> d.variancePercent > 0.0))
      && (v.chevron.Some? <==> HasChildren(r.node))
      && v.actualInRed == (d.actual < 0.0)
  {
    var d := r.node.data;
    var up := d.variancePercent > 0.0;
    RowView(d.name, d.level, Chevron(r.node), d.actual, d.actual < 0.0, d.budget,
            d.variance,
            if d.variance >= 0.0 then Emerald else Rose,
            if d.variance >= 0.0 then "+" else "",
            if d.variancePercent != 0.0
            then Some(PercentBadge(d.variancePercent, if up then Emerald else Rose, up, if up then "+" else ""))
            else None)
  }

  /** The table body, `renderRows(data)`. */
  function Rendered(data: seq<DrillDownItem>): (v: seq<RowView>)
    ensures |v| == |Rows(data, 0)|
    ensures forall i :: 0 <= i < |v| ==> v[i] == ViewOf(Rows(data, 0)[i])
  {
    Lists.Map(Rows(data, 0), ViewOf)
  }

  /** No two records of the sample data share an id. */
  lemma MockDistinctIds()
    ensures DistinctIds(Walk(MockDrillDownData(), 0))
  {
    var d := MockDrillDownData();
    var kids := d[0].children.items;
    assert WalkIdsOf(kids[0]) == ["1-1", "1-1-1", "1-1-2", "1-1-3", "1-1-4"];
    assert WalkIdsOf(kids[1]) == ["1-2", "1-2-1", "1-2-2"];
    assert WalkIds(kids) == WalkIdsOf(kids[0]) + WalkIdsOf(kids[1]) + ["1-3"];
    assert WalkIds(d) == ["1", "1-1", "1-1-1", "1-1-2", "1-1-3", "1-1-4", "1-2", "1-2-1", "1-2-2", "1-3", "2", "3"];
    DistinctWalkIds(d, 0);
  }

  /** The page component and its `data` state cell. */
  class DrillDownPage {
    var data: seq<DrillDownItem>

    /** Ids stay distinct: true of the sample data and kept by every toggle. */
    ghost predicate Valid()
      reads this
    {
      DistinctIds(Walk(data, 0))
    }

    constructor ()
      ensures data == MockDrillDownData()
      ensures Valid()
    {
      data := MockDrillDownData();
      MockDistinctIds();
    }

    function Table(): seq<RowView>
      reads this
    {
      Rendered(data)
    }

    /** `toggleExpand(id)`. */
    method ToggleExpand(id: string)
      modifies this
      ensures data == Toggle(old(data), id)
      ensures old(Valid()) ==> Valid()
    {
      if Valid() {
        ToggleKeepsDistinctIds(data, id, 0);
      }
      data := Toggle(data, id);
    }

    /** A click on the `k`-th rendered row, guarded by `item.children && item.children.length > 0`. */
    method ClickRow(k: nat)
      requires k < |Rows(data, 0)|
      modifies this
      ensures data == ParentClick(old(data), k)
      ensures old(Valid()) ==> Valid()
      ensures old(Valid()) ==> var before, after := Walk(old(data), 0), Walk(data, 0);
        |after| == |before| &&
        forall i :: 0 <= i < |before| && !HasChildren(before[i].node) ==>
          after[i].node.isExpanded == before[i].node.isExpanded
    {
      if Valid() {
        ParentClickKeepsLeafFlags(data, k);
      }
      var n := Rows(data, 0)[k].node;
      if n.children.Present? && |n.children.items| > 0 {
        ToggleExpand(n.id);
      }
    }
  }
}
