/**
 * The expandable hierarchy shared by the chart of accounts, the financial reports, the
 * variance drill-down and the variance analysis pages: records with an optional list of
 * children and an optional `isExpanded` flag, the `toggleRecursive` rewrite that a click
 * triggers, and the pre-order flattening into table rows that `renderRows`/`renderTree` performs.
 */
module ExpandTree {
  import opened Wrappers
  import opened Lists

  /** A record of the hierarchy; `data` holds the page-specific fields (code, name, amounts, ...). */
  datatype Node<D> = Node(id: string, data: D, children: Children<D>, isExpanded: Option<bool>)

  /** The optional `children` array of a record: absent (`undefined`), or present and possibly empty. */
  datatype Children<D> = Absent | Present(items: seq<Node<D>>) {
    /** The listed children, none when absent. */
    function Items(): seq<Node<D>> {
      if Present? then items else []
    }
  }

  /** The JavaScript truth value of the optional flag: an absent flag is falsy. */
  function Expanded<D>(n: Node<D>): bool {
    n.isExpanded.GetOr(false)
  }

  /** `item.children && item.children.length > 0`. */
  predicate HasChildren<D>(n: Node<D>) {
    n.children.Present? && |n.children.items| > 0
  }

  // ---------------------------------------------------------------------------
  // toggleRecursive
  // ---------------------------------------------------------------------------

  /** `toggleRecursive(items)` for the clicked `id`: a `map` over the list. */
  function Toggle<D>(ts: seq<Node<D>>, id: string): (r: seq<Node<D>>)
    ensures |r| == |ts|
    decreases ts
  {
    if ts == [] then [] else [ToggleNode(ts[0], id)] + Toggle(ts[1..], id)
  }

  /** The callback of that `map`: flip a matching item, otherwise rebuild its children if it has any. */
  function ToggleNode<D>(n: Node<D>, id: string): Node<D>
    decreases n
  {
    if n.id == id then n.(isExpanded := Some(!Expanded(n)))
    else match n.children
      case Absent => n
      case Present(cs) => n.(children := Present(Toggle(cs, id)))
  }

  /** What becomes of the item at position `i`: a matching item has its flag negated (absent reads
      as false, so it becomes true) and its subtree is not searched; a non-matching item without
      a children list is returned as it is; any other item keeps its flag and has its children toggled. */
  lemma {:induction false} ToggleAt<D>(ts: seq<Node<D>>, id: string, i: nat)
    requires i < |ts|
    ensures ts[i].id == id ==>
      Toggle(ts, id)[i] == ts[i].(isExpanded := Some(!Expanded(ts[i])))
    ensures ts[i].id != id && ts[i].children.Absent? ==> Toggle(ts, id)[i] == ts[i]
    ensures ts[i].id != id && ts[i].children.Present? ==>
      Toggle(ts, id)[i] == ts[i].(children := Present(Toggle(ts[i].children.items, id)))
    decreases ts
  {
    if i > 0 {
      ToggleAt(ts[1..], id, i - 1);
    }
  }

  /** One node of the hierarchy with its flag rewritten by `f`, recursively. */
  function Reflag<D>(ts: seq<Node<D>>, f: Option<bool> -> Option<bool>): (r: seq<Node<D>>)
    ensures |r| == |ts|
    decreases ts
  {
    if ts == [] then [] else [ReflagNode(ts[0], f)] + Reflag(ts[1..], f)
  }

  function ReflagNode<D>(n: Node<D>, f: Option<bool> -> Option<bool>): Node<D>
    decreases n
  {
    Node(n.id, n.data,
         match n.children case Absent => Absent case Present(cs) => Present(Reflag(cs, f)),
         f(n.isExpanded))
  }

  function NoFlag(o: Option<bool>): Option<bool> { None }
  function ReadFlag(o: Option<bool>): Option<bool> { Some(o.GetOr(false)) }

  /** The hierarchy with every flag removed: ids, data, children lists and order. */
  function Shape<D>(ts: seq<Node<D>>): seq<Node<D>> { Reflag(ts, NoFlag) }

  /** The hierarchy with every absent flag replaced by the `false` it is read as. */
  function Normalize<D>(ts: seq<Node<D>>): seq<Node<D>> { Reflag(ts, ReadFlag) }

  /** Toggling changes nothing but `isExpanded` flags: same records, same order, same children. */
  lemma {:induction false} ToggleKeepsShape<D>(ts: seq<Node<D>>, id: string)
    ensures Shape(Toggle(ts, id)) == Shape(ts)
    decreases ts
  {
    if ts != [] {
      ToggleNodeKeepsShape(ts[0], id);
      ToggleKeepsShape(ts[1..], id);
    }
  }

  lemma {:induction false} ToggleNodeKeepsShape<D>(n: Node<D>, id: string)
    ensures ReflagNode(ToggleNode(n, id), NoFlag) == ReflagNode(n, NoFlag)
    decreases n
  {
    if n.id != id && n.children.Present? {
      ToggleKeepsShape(n.children.items, id);
    }
  }

  /** Toggling the same id twice restores every flag, reading an absent flag as false. */
  lemma {:induction false} ToggleTwiceNormalized<D>(ts: seq<Node<D>>, id: string)
    ensures Normalize(Toggle(Toggle(ts, id), id)) == Normalize(ts)
    decreases ts
  {
    if ts != [] {
      ToggleNodeTwiceNormalized(ts[0], id);
      ToggleTwiceNormalized(ts[1..], id);
      assert Toggle(ts, id)[1..] == Toggle(ts[1..], id);
    }
  }

  lemma {:induction false} ToggleNodeTwiceNormalized<D>(n: Node<D>, id: string)
    ensures ReflagNode(ToggleNode(ToggleNode(n, id), id), ReadFlag) == ReflagNode(n, ReadFlag)
    decreases n
  {
    if n.id != id && n.children.Present? {
      ToggleTwiceNormalized(n.children.items, id);
    }
  }

  /** Every record of the hierarchy carries an explicit `isExpanded` flag. */
  ghost predicate AllFlagged<D>(ts: seq<Node<D>>)
    decreases ts
  {
    ts != [] ==> AllFlaggedNode(ts[0]) && AllFlagged(ts[1..])
  }

  ghost predicate AllFlaggedNode<D>(n: Node<D>)
    decreases n
  {
    n.isExpanded.Some? && (n.children.Present? ==> AllFlagged(n.children.items))
  }

  /** With explicit flags everywhere, toggling the same id twice gives back the very same hierarchy. */
  lemma {:induction false} ToggleTwiceIdentity<D>(ts: seq<Node<D>>, id: string)
    requires AllFlagged(ts)
    ensures Toggle(Toggle(ts, id), id) == ts
    decreases ts
  {
    if ts != [] {
      ToggleNodeTwiceIdentity(ts[0], id);
      ToggleTwiceIdentity(ts[1..], id);
      assert Toggle(ts, id)[1..] == Toggle(ts[1..], id);
    }
  }

  lemma {:induction false} ToggleNodeTwiceIdentity<D>(n: Node<D>, id: string)
    requires AllFlaggedNode(n)
    ensures ToggleNode(ToggleNode(n, id), id) == n
    decreases n
  {
    if n.id != id && n.children.Present? {
      ToggleTwiceIdentity(n.children.items, id);
    }
  }

  /** Counterexample to `ToggleTwiceIdentity` without its premise: without an explicit flag the double toggle is not the identity: the absent flag comes back as `false`. */
  lemma ToggleTwiceMaterializesFlag<D>(n: Node<D>)
    requires n.isExpanded.None?
    ensures Toggle(Toggle([n], n.id), n.id) == [n.(isExpanded := Some(false))]
    ensures Toggle(Toggle([n], n.id), n.id) != [n]
  {
    assert Toggle([n], n.id) == [n.(isExpanded := Some(true))];
  }

  // ---------------------------------------------------------------------------
  // renderRows / renderTree
  // ---------------------------------------------------------------------------

  /** A rendered table row: the record and the nesting depth it is rendered at. */
  datatype Row<D> = Row(node: Node<D>, depth: nat)

  /** `renderRows(items, depth)`: each item's row, followed by its children's rows while it is expanded. */
  function Rows<D>(ts: seq<Node<D>>, depth: nat): seq<Row<D>>
    decreases ts
  {
    if ts == [] then [] else RowsOf(ts[0], depth) + Rows(ts[1..], depth)
  }

  function RowsOf<D>(n: Node<D>, depth: nat): seq<Row<D>>
    decreases n
  {
    [Row(n, depth)] + (if Expanded(n) && n.children.Present? then Rows(n.children.items, depth + 1) else [])
  }

  /** Reference definition: the full pre-order walk of the hierarchy, every record at its tree depth. */
  function Walk<D>(ts: seq<Node<D>>, depth: nat): seq<Row<D>>
    decreases ts
  {
    if ts == [] then [] else WalkOf(ts[0], depth) + Walk(ts[1..], depth)
  }

  function WalkOf<D>(n: Node<D>, depth: nat): seq<Row<D>>
    decreases n
  {
    [Row(n, depth)] + (match n.children case Absent => [] case Present(cs) => Walk(cs, depth + 1))
  }

  /** The visible rows are the pre-order walk with the subtrees of collapsed records left out:
      an order-preserving subsequence of it, every row at its record's tree depth. */
  lemma {:induction false} RowsSubsequenceOfWalk<D>(ts: seq<Node<D>>, depth: nat)
    ensures IsSubsequence(Rows(ts, depth), Walk(ts, depth))
    decreases ts
  {
    if ts != [] {
      RowsOfSubsequenceOfWalkOf(ts[0], depth);
      RowsSubsequenceOfWalk(ts[1..], depth);
      SubsequenceAppend(RowsOf(ts[0], depth), WalkOf(ts[0], depth), Rows(ts[1..], depth), Walk(ts[1..], depth));
    }
  }

  lemma {:induction false} RowsOfSubsequenceOfWalkOf<D>(n: Node<D>, depth: nat)
    ensures IsSubsequence(RowsOf(n, depth), WalkOf(n, depth))
    decreases n
  {
    var below := match n.children case Absent => [] case Present(cs) => Walk(cs, depth + 1);
    SubsequenceRefl([Row(n, depth)]);
    if Expanded(n) && n.children.Present? {
      RowsSubsequenceOfWalk(n.children.items, depth + 1);
      SubsequenceAppend([Row(n, depth)], [Row(n, depth)], Rows(n.children.items, depth + 1), below);
    } else {
      SubsequenceAppend([Row(n, depth)], [Row(n, depth)], [], below);
      assert [Row(n, depth)] + [] == RowsOf(n, depth);
    }
  }

  /** Every visible row is a record of the hierarchy at its tree depth. */
  lemma RowInWalk<D>(ts: seq<Node<D>>, depth: nat, k: nat)
    requires k < |Rows(ts, depth)|
    ensures Rows(ts, depth)[k] in Walk(ts, depth)
  {
    RowsSubsequenceOfWalk(ts, depth);
    SubsequenceMember(Rows(ts, depth), Walk(ts, depth), Rows(ts, depth)[k]);
  }

  /** Every record of the hierarchy is expanded. */
  ghost predicate AllExpanded<D>(ts: seq<Node<D>>)
    decreases ts
  {
    ts != [] ==> AllExpandedNode(ts[0]) && AllExpanded(ts[1..])
  }

  ghost predicate AllExpandedNode<D>(n: Node<D>)
    decreases n
  {
    Expanded(n) && (n.children.Present? ==> AllExpanded(n.children.items))
  }

  /** With everything expanded, the table shows the whole pre-order walk. */
  lemma {:induction false} RowsAllExpanded<D>(ts: seq<Node<D>>, depth: nat)
    requires AllExpanded(ts)
    ensures Rows(ts, depth) == Walk(ts, depth)
    decreases ts
  {
    if ts != [] {
      var n := ts[0];
      if n.children.Present? {
        RowsAllExpanded(n.children.items, depth + 1);
      }
      assert RowsOf(n, depth) == WalkOf(n, depth);
      RowsAllExpanded(ts[1..], depth);
    }
  }

  /** A record's children are rendered below it exactly when it is expanded and has a non-empty
      children list, and then the rows one level deeper below it are exactly those children, in order. */
  lemma ChildrenShownIff<D>(n: Node<D>, depth: nat)
    ensures RowsOf(n, depth)[0] == Row(n, depth)
    ensures |RowsOf(n, depth)| > 1 <==> Expanded(n) && HasChildren(n)
    ensures RowsAt(RowsOf(n, depth)[1..], depth + 1) == (if Expanded(n) && n.children.Present? then n.children.items else [])
  {
    if Expanded(n) && n.children.Present? {
      var cs := n.children.items;
      if cs != [] {
        assert |Rows(cs, depth + 1)| >= |RowsOf(cs[0], depth + 1)| >= 1;
      }
      assert RowsOf(n, depth)[1..] == Rows(cs, depth + 1);
      TopLevelAlwaysShown(cs, depth + 1);
    } else {
      assert RowsOf(n, depth)[1..] == [];
    }
  }

  /** All visible rows lie at or below the starting depth. */
  lemma {:induction false} RowsDepthBound<D>(ts: seq<Node<D>>, depth: nat)
    ensures forall i :: 0 <= i < |Rows(ts, depth)| ==> Rows(ts, depth)[i].depth >= depth
    decreases ts
  {
    if ts != [] {
      var n := ts[0];
      if Expanded(n) && n.children.Present? {
        RowsDepthBound(n.children.items, depth + 1);
      }
      RowsDepthBound(ts[1..], depth);
      var below := if Expanded(n) && n.children.Present? then Rows(n.children.items, depth + 1) else [];
      var a, b := RowsOf(n, depth), Rows(ts[1..], depth);
      assert a == [Row(n, depth)] + below;
      assert forall i :: 0 <= i < |a| ==> a[i] == if i == 0 then Row(n, depth) else below[i - 1];
      assert forall i :: 0 <= i < |a + b| ==> (a + b)[i] == if i < |a| then a[i] else b[i - |a|];
    }
  }

  /** The records of the rows rendered at exactly `depth`, in order. */
  function RowsAt<D>(rows: seq<Row<D>>, depth: nat): seq<Node<D>>
  {
    if rows == [] then [] else (if rows[0].depth == depth then [rows[0].node] else []) + RowsAt(rows[1..], depth)
  }

  lemma {:induction false} RowsAtAppend<D>(a: seq<Row<D>>, b: seq<Row<D>>, depth: nat)
    ensures RowsAt(a + b, depth) == RowsAt(a, depth) + RowsAt(b, depth)
    decreases |a|
  {
    if a != [] {
      assert (a + b)[1..] == a[1..] + b;
      RowsAtAppend(a[1..], b, depth);
    } else {
      assert a + b == b;
    }
  }

  lemma {:induction false} RowsAtDeeper<D>(rows: seq<Row<D>>, depth: nat)
    requires forall i :: 0 <= i < |rows| ==> rows[i].depth > depth
    ensures RowsAt(rows, depth) == []
    decreases |rows|
  {
    if rows != [] {
      RowsAtDeeper(rows[1..], depth);
    }
  }

  /** The top-level records always appear, in their order, and they are the only rows at the starting depth. */
  lemma {:induction false} TopLevelAlwaysShown<D>(ts: seq<Node<D>>, depth: nat)
    ensures RowsAt(Rows(ts, depth), depth) == ts
    decreases ts
  {
    if ts != [] {
      var n := ts[0];
      var below := if Expanded(n) && n.children.Present? then Rows(n.children.items, depth + 1) else [];
      if Expanded(n) && n.children.Present? {
        RowsDepthBound(n.children.items, depth + 1);
      }
      RowsAtDeeper(below, depth);
      RowsAtAppend([Row(n, depth)], below, depth);
      RowsAtAppend(RowsOf(n, depth), Rows(ts[1..], depth), depth);
      TopLevelAlwaysShown(ts[1..], depth);
      assert RowsAt([Row(n, depth)], depth) == [n];
      assert [n] + ts[1..] == ts;
    }
  }

  // ---------------------------------------------------------------------------
  // What a row displays
  // ---------------------------------------------------------------------------

  /** What the chevron cell shows: nothing for a record without children, else down (expanded) or right. */
  function Chevron<D>(n: Node<D>): Option<bool> {
    if HasChildren(n) then Some(Expanded(n)) else None
  }

  /** Everything a rendered row shows: the record's own fields, the indentation depth and the chevron. */
  datatype Line<D> = Line(id: string, data: D, depth: nat, chevron: Option<bool>)

  function LineOf<D>(r: Row<D>): Line<D> {
    Line(r.node.id, r.node.data, r.depth, Chevron(r.node))
  }

  function Display<D>(rows: seq<Row<D>>): seq<Line<D>> {
    Map(rows, (r: Row<D>) => LineOf(r))
  }

  /** Every top-most record with this id (one with no matching ancestor) has no non-empty children list. */
  ghost predicate LeafMatches<D>(ts: seq<Node<D>>, id: string)
    decreases ts
  {
    ts != [] ==> LeafMatchesNode(ts[0], id) && LeafMatches(ts[1..], id)
  }

  ghost predicate LeafMatchesNode<D>(n: Node<D>, id: string)
    decreases n
  {
    if n.id == id then !HasChildren(n) else n.children.Present? ==> LeafMatches(n.children.items, id)
  }

  /** Toggling records without children changes nothing on screen: the flag flips, but no chevron
      shows it and no child rows appear or disappear. */
  lemma {:induction false} ToggleLeafInvisible<D>(ts: seq<Node<D>>, id: string, depth: nat)
    requires LeafMatches(ts, id)
    ensures Display(Rows(Toggle(ts, id), depth)) == Display(Rows(ts, depth))
    decreases ts
  {
    if ts != [] {
      ToggleNodeLeafInvisible(ts[0], id, depth);
      ToggleLeafInvisible(ts[1..], id, depth);
      var t := Toggle(ts, id);
      assert t[0] == ToggleNode(ts[0], id) && t[1..] == Toggle(ts[1..], id);
      MapAppend(RowsOf(t[0], depth), Rows(t[1..], depth), (r: Row<D>) => LineOf(r));
      MapAppend(RowsOf(ts[0], depth), Rows(ts[1..], depth), (r: Row<D>) => LineOf(r));
    }
  }

  lemma {:induction false} ToggleNodeLeafInvisible<D>(n: Node<D>, id: string, depth: nat)
    requires LeafMatchesNode(n, id)
    ensures Display(RowsOf(ToggleNode(n, id), depth)) == Display(RowsOf(n, depth))
    decreases n
  {
    var m := ToggleNode(n, id);
    if n.id == id {
      assert Rows(m.children.Items(), depth + 1) == [] == Rows(n.children.Items(), depth + 1);
      assert RowsOf(m, depth) == [Row(m, depth)];
      assert RowsOf(n, depth) == [Row(n, depth)];
    } else if n.children.Present? {
      var cs := n.children.items;
      ToggleLeafInvisible(cs, id, depth + 1);
      var lm := [Row(m, depth)];
      var ln := [Row(n, depth)];
      assert Display(lm) == Display(ln);
      if Expanded(n) {
        MapAppend(lm, Rows(Toggle(cs, id), depth + 1), (r: Row<D>) => LineOf(r));
        MapAppend(ln, Rows(cs, depth + 1), (r: Row<D>) => LineOf(r));
      } else {
        assert RowsOf(m, depth) == lm;
        assert RowsOf(n, depth) == ln;
      }
    }
  }

  /** Bridge to `LeafMatches`: if no record with this id anywhere in the walk has children, the top-most ones have none either. */
  lemma {:induction false} LeafMatchesIntro<D>(ts: seq<Node<D>>, id: string, depth: nat)
    requires forall r :: r in Walk(ts, depth) && r.node.id == id ==> !HasChildren(r.node)
    ensures LeafMatches(ts, id)
    decreases ts
  {
    if ts != [] {
      var n := ts[0];
      assert Walk(ts, depth) == WalkOf(n, depth) + Walk(ts[1..], depth);
      assert Row(n, depth) in WalkOf(n, depth);
      if n.id != id && n.children.Present? {
        assert WalkOf(n, depth) == [Row(n, depth)] + Walk(n.children.items, depth + 1);
        LeafMatchesIntro(n.children.items, id, depth + 1);
      }
      LeafMatchesIntro(ts[1..], id, depth);
    }
  }

  // ---------------------------------------------------------------------------
  // Toggle seen through the pre-order walk
  // ---------------------------------------------------------------------------

  /** Two records at the same walk position agree on everything but the flag, and on the flag too unless they carry `id`. */
  ghost predicate AgreeExcept<D>(a: Row<D>, b: Row<D>, id: string) {
    && a.depth == b.depth
    && a.node.id == b.node.id
    && a.node.data == b.node.data
    && HasChildren(a.node) == HasChildren(b.node)
    && (a.node.id != id ==> a.node.isExpanded == b.node.isExpanded)
  }

  ghost predicate WalksAgreeExcept<D>(a: seq<Row<D>>, b: seq<Row<D>>, id: string) {
    |a| == |b| && forall i :: 0 <= i < |a| ==> AgreeExcept(a[i], b[i], id)
  }

  lemma WalksAgreeAppend<D>(a1: seq<Row<D>>, b1: seq<Row<D>>, a2: seq<Row<D>>, b2: seq<Row<D>>, id: string)
    requires WalksAgreeExcept(a1, b1, id) && WalksAgreeExcept(a2, b2, id)
    ensures WalksAgreeExcept(a1 + a2, b1 + b2, id)
  {
    forall i | 0 <= i < |a1 + a2| ensures AgreeExcept((a1 + a2)[i], (b1 + b2)[i], id) {
      if i < |a1| {
        assert (a1 + a2)[i] == a1[i] && (b1 + b2)[i] == b1[i];
      } else {
        assert (a1 + a2)[i] == a2[i - |a1|] && (b1 + b2)[i] == b2[i - |a1|];
      }
    }
  }

  /** Position by position in the pre-order walk, toggling keeps every record's id, data, depth and
      whether it has children, and changes the flag only of records that carry the clicked id. */
  lemma {:induction false} ToggleWalk<D>(ts: seq<Node<D>>, id: string, depth: nat)
    ensures WalksAgreeExcept(Walk(Toggle(ts, id), depth), Walk(ts, depth), id)
    decreases ts
  {
    if ts != [] {
      var t := Toggle(ts, id);
      assert t[0] == ToggleNode(ts[0], id) && t[1..] == Toggle(ts[1..], id);
      ToggleNodeWalk(ts[0], id, depth);
      ToggleWalk(ts[1..], id, depth);
      WalksAgreeAppend(WalkOf(t[0], depth), WalkOf(ts[0], depth), Walk(t[1..], depth), Walk(ts[1..], depth), id);
    }
  }

  lemma {:induction false} ToggleNodeWalk<D>(n: Node<D>, id: string, depth: nat)
    ensures WalksAgreeExcept(WalkOf(ToggleNode(n, id), depth), WalkOf(n, depth), id)
    decreases n
  {
    var m := ToggleNode(n, id);
    var below := match n.children case Absent => [] case Present(cs) => Walk(cs, depth + 1);
    assert WalksAgreeExcept([Row(m, depth)], [Row(n, depth)], id);
    if n.id == id || n.children.Absent? {
      assert WalkOf(m, depth) == [Row(m, depth)] + below;
      WalksAgreeAppend([Row(m, depth)], [Row(n, depth)], below, below, id);
    } else {
      var cs := n.children.items;
      ToggleWalk(cs, id, depth + 1);
      WalksAgreeAppend([Row(m, depth)], [Row(n, depth)], Walk(Toggle(cs, id), depth + 1), below, id);
    }
  }

  /** No two records of the walk share an id. */
  ghost predicate DistinctIds<D>(w: seq<Row<D>>) {
    forall i, j :: 0 <= i < j < |w| ==> w[i].node.id != w[j].node.id
  }

  /** The ids of the pre-order walk, in walk order. */
  function WalkIds<D>(ts: seq<Node<D>>): seq<string>
    decreases ts
  {
    if ts == [] then [] else WalkIdsOf(ts[0]) + WalkIds(ts[1..])
  }

  function WalkIdsOf<D>(n: Node<D>): seq<string>
    decreases n
  {
    [n.id] + (match n.children case Absent => [] case Present(cs) => WalkIds(cs))
  }

  /** `WalkIds` lists exactly the ids of `Walk`, position by position. */
  lemma {:induction false} WalkIdsAgree<D>(ts: seq<Node<D>>, depth: nat)
    ensures |WalkIds(ts)| == |Walk(ts, depth)|
    ensures forall i :: 0 <= i < |WalkIds(ts)| ==> WalkIds(ts)[i] == Walk(ts, depth)[i].node.id
    decreases ts
  {
    if ts != [] {
      WalkIdsOfAgree(ts[0], depth);
      WalkIdsAgree(ts[1..], depth);
    }
  }

  lemma {:induction false} WalkIdsOfAgree<D>(n: Node<D>, depth: nat)
    ensures |WalkIdsOf(n)| == |WalkOf(n, depth)|
    ensures forall i :: 0 <= i < |WalkIdsOf(n)| ==> WalkIdsOf(n)[i] == WalkOf(n, depth)[i].node.id
    decreases n
  {
    if n.children.Present? {
      WalkIdsAgree(n.children.items, depth + 1);
    }
  }

  /** Distinct entries in `WalkIds` mean distinct ids along the walk. */
  lemma DistinctWalkIds<D>(ts: seq<Node<D>>, depth: nat)
    requires forall i, j :: 0 <= i < j < |WalkIds(ts)| ==> WalkIds(ts)[i] != WalkIds(ts)[j]
    ensures DistinctIds(Walk(ts, depth))
  {
    WalkIdsAgree(ts, depth);
  }

  /** Toggling keeps every id in place, so ids that were distinct stay distinct. */
  lemma ToggleKeepsDistinctIds<D>(ts: seq<Node<D>>, id: string, depth: nat)
    requires DistinctIds(Walk(ts, depth))
    ensures DistinctIds(Walk(Toggle(ts, id), depth))
  {
    ToggleWalk(ts, id, depth);
    var before, after := Walk(ts, depth), Walk(Toggle(ts, id), depth);
    assert forall i :: 0 <= i < |after| ==> after[i].node.id == before[i].node.id by {
      forall i | 0 <= i < |after| ensures after[i].node.id == before[i].node.id {
        assert AgreeExcept(after[i], before[i], id);
      }
    }
  }

  /** With distinct ids, clicking a visible row whose record has no children affects only that
      record, which has no children: the premise of `ToggleLeafInvisible`. */
  lemma UniqueLeafMatches<D>(ts: seq<Node<D>>, depth: nat, k: nat)
    requires k < |Rows(ts, depth)| && DistinctIds(Walk(ts, depth))
    requires !HasChildren(Rows(ts, depth)[k].node)
    ensures LeafMatches(ts, Rows(ts, depth)[k].node.id)
  {
    var w, x := Walk(ts, depth), Rows(ts, depth)[k];
    RowInWalk(ts, depth, k);
    forall r | r in w && r.node.id == x.node.id ensures !HasChildren(r.node) {
      var i :| 0 <= i < |w| && w[i] == r;
      var j :| 0 <= j < |w| && w[j] == x;
      assert i == j;
    }
    LeafMatchesIntro(ts, x.node.id, depth);
  }

  /** With distinct ids, toggling the id of a visible row whose record has children leaves the flag
      of every childless record of the hierarchy as it was. */
  lemma ToggleKeepsLeafFlags<D>(ts: seq<Node<D>>, depth: nat, k: nat)
    requires k < |Rows(ts, depth)| && DistinctIds(Walk(ts, depth))
    requires HasChildren(Rows(ts, depth)[k].node)
    ensures var before, after := Walk(ts, depth), Walk(Toggle(ts, Rows(ts, depth)[k].node.id), depth);
      |after| == |before| &&
      forall i :: 0 <= i < |before| && !HasChildren(before[i].node) ==>
        after[i].node.isExpanded == before[i].node.isExpanded
  {
    var w, x := Walk(ts, depth), Rows(ts, depth)[k];
    RowInWalk(ts, depth, k);
    ToggleWalk(ts, x.node.id, depth);
    var j :| 0 <= j < |w| && w[j] == x;
    forall i | 0 <= i < |w| && !HasChildren(w[i].node) ensures w[i].node.id != x.node.id {
      assert i != j;
    }
  }

  /** The click handler `item.children && item.children.length > 0 && toggleExpand(item.id)` on the
      `k`-th rendered row: only a record with non-empty children is toggled. */
  function ParentClick<D>(ts: seq<Node<D>>, k: nat): (r: seq<Node<D>>)
    requires k < |Rows(ts, 0)|
    ensures Shape(r) == Shape(ts)
    ensures !HasChildren(Rows(ts, 0)[k].node) ==> r == ts
    ensures HasChildren(Rows(ts, 0)[k].node) ==> WalksAgreeExcept(Walk(r, 0), Walk(ts, 0), Rows(ts, 0)[k].node.id)
  {
    var n := Rows(ts, 0)[k].node;
    ToggleKeepsShape(ts, n.id);
    ToggleWalk(ts, n.id, 0);
    if HasChildren(n) then Toggle(ts, n.id) else ts
  }

  /** Under that handler, and with distinct ids, no click ever changes the flag of a childless record. */
  lemma ParentClickKeepsLeafFlags<D>(ts: seq<Node<D>>, k: nat)
    requires k < |Rows(ts, 0)| && DistinctIds(Walk(ts, 0))
    ensures var before, after := Walk(ts, 0), Walk(ParentClick(ts, k), 0);
      |after| == |before| &&
      forall i :: 0 <= i < |before| && !HasChildren(before[i].node) ==>
        after[i].node.isExpanded == before[i].node.isExpanded
    ensures DistinctIds(Walk(ParentClick(ts, k), 0))
  {
    if HasChildren(Rows(ts, 0)[k].node) {
      ToggleKeepsLeafFlags(ts, 0, k);
      ToggleKeepsDistinctIds(ts, Rows(ts, 0)[k].node.id, 0);
    }
  }
}
