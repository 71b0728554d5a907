/** The chart-of-accounts page: a hierarchy of ledger accounts whose every row toggles on click. */
module ChartOfAccounts {
  import opened Wrappers
  import opened ExpandTree

  datatype AccountType = Revenue | CostOfSales | Opex | Asset | Liability | Equity

  /** The fields of a `COAItem` other than `id`, `children` and `isExpanded`. */
  datatype Account = Account(code: string, name: string, accountType: AccountType, level: int)

  type COAItem = Node<Account>

  function Leaf(id: string, code: string, name: string, t: AccountType, level: int): COAItem {
    Node(id, Account(code, name, t, level), Absent, None)
  }

  /** `initialCOA`, the state the page starts from. */
  function InitialCOA(): seq<COAItem> {
    [ Node("1", Account("4000", "Revenue", Revenue, 1),
        Present([ Node("1-1", Account("4100", "Sales Revenue", Revenue, 2),
                    Present([ Leaf("1-1-1", "4110", "Software Sales", Revenue, 3),
                              Leaf("1-1-2", "4120", "Hardware Sales", Revenue, 3),
                              Leaf("1-1-3", "4130", "Maintenance & Support", Revenue, 3) ]),
                    Some(true)),
                  Node("1-2", Account("4200", "Other Income", Revenue, 2),
                    Present([ Leaf("1-2-1", "4210", "Interest Income", Revenue, 3) ]),
                    Some(false)) ]),
        Some(true)),
      Node("2", Account("5000", "Cost of Sales", CostOfSales, 1), Present([]), Some(false)),
      Node("3", Account("6000", "Operating Expenses", Opex, 1), Present([]), Some(false)) ]
  }

  /** No two accounts of the initial hierarchy share an id. */
  lemma InitialDistinctIds()
    ensures DistinctIds(Walk(InitialCOA(), 0))
  {
    var c := InitialCOA();
    var kids := c[0].children.items;
    assert WalkIdsOf(kids[0]) == ["1-1", "1-1-1", "1-1-2", "1-1-3"];
    assert WalkIdsOf(kids[1]) == ["1-2", "1-2-1"];
    assert WalkIds(kids) == WalkIdsOf(kids[0]) + WalkIdsOf(kids[1]);
    assert WalkIds(c) == ["1", "1-1", "1-1-1", "1-1-2", "1-1-3", "1-2", "1-2-1", "2", "3"];
    DistinctWalkIds(c, 0);
  }

  /** The page component and its one state cell. */
  class ChartOfAccountsPage {
    /** The `coaData` state cell. */
    var coaData: seq<COAItem>

    /** Ids stay distinct: true of the initial hierarchy and kept by every toggle. */
    ghost predicate Valid()
      reads this
    {
      DistinctIds(Walk(coaData, 0))
    }

    constructor ()
      ensures coaData == InitialCOA()
      ensures Valid()
    {
      coaData := InitialCOA();
      InitialDistinctIds();
    }

    /** The rows `renderTree(coaData)` puts on screen; the top-level accounts are always among them, in order. */
    function VisibleRows(): (r: seq<Row<Account>>)
      reads this
      ensures RowsAt(r, 0) == coaData
    {
      TopLevelAlwaysShown(coaData, 0);
      Rows(coaData, 0)
    }

    /** `toggleExpand(id)`: `setCoaData(toggleRecursive(coaData))`. */
    method ToggleExpand(id: string)
      modifies this
      ensures coaData == Toggle(old(coaData), id)
      ensures Shape(coaData) == Shape(old(coaData))
      ensures old(Valid()) ==> Valid()
    {
      if Valid() {
        ToggleKeepsDistinctIds(coaData, id, 0);
      }
      ToggleKeepsShape(coaData, id);
      coaData := Toggle(coaData, id);
    }

    /** A click on the `k`-th rendered row: every row, leaf or not, calls `toggleExpand(item.id)`. */
    method ClickRow(k: nat)
      requires k < |VisibleRows()|
      modifies this
      ensures coaData == Toggle(old(coaData), old(VisibleRows())[k].node.id)
      ensures old(Valid()) ==> Valid()
      ensures old(Valid()) && !HasChildren(old(VisibleRows())[k].node) ==> Display(VisibleRows()) == Display(old(VisibleRows()))
    {
      if Valid() && !HasChildren(VisibleRows()[k].node) {
        LeafClickInvisible(coaData, k);
      }
      ToggleExpand(VisibleRows()[k].node.id);
    }
  }

  /** Clicking a childless account does toggle its flag, yet, with distinct ids, nothing on screen changes. */
  lemma LeafClickInvisible(coa: seq<COAItem>, k: nat)
    requires k < |Rows(coa, 0)| && DistinctIds(Walk(coa, 0))
    requires !HasChildren(Rows(coa, 0)[k].node)
    ensures Display(Rows(Toggle(coa, Rows(coa, 0)[k].node.id), 0)) == Display(Rows(coa, 0))
  {
    UniqueLeafMatches(coa, 0, k);
    ToggleLeafInvisible(coa, Rows(coa, 0)[k].node.id, 0);
  }
}
