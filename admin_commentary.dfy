/** The admin commentary page: variance explanations from subsidiaries awaiting review. */
module AdminCommentary {
  import opened Lists

  datatype Status = Pending | Reviewed | Approved

  /** A `Commentary` record; `variance` is the preformatted label, `varianceAmount` the number. */
  datatype Commentary = Commentary(id: string, period: string, subsidiary: string, account: string,
                                   variance: string, varianceAmount: real, comment: string,
                                   author: string, date: string, status: Status)

  /** The `activeTab` values. */
  datatype Tab = AllTab | PendingTab | ReviewedTab

  /** `mockCommentaries`, the constant list the page filters. */
  function MockCommentaries(): seq<Commentary> {
    [CommentaryOne(), CommentaryTwo(), CommentaryThree()]
  }

  function CommentaryOne(): Commentary {
    Commentary("1", "Jan 2026", "Securemetric MY", "Software Revenue", "+8.0%", 400000.0,
      "Strong performance driven by new enterprise deals. Closed 3 major contracts including ABC Corp (RM150K) and XYZ Ltd (RM120K). Pipeline remains healthy for Q1.",
      "John Doe", "2026-01-28", Approved)
  }

  function CommentaryTwo(): Commentary {
    Commentary("2", "Jan 2026", "Securemetric SG", "Hardware Revenue", "-14.3%", -100000.0,
      "Delayed shipment from supplier impacted January sales. Orders are in backlog and expected to be fulfilled in February. No revenue risk.",
      "Jane Smith", "2026-01-27", Reviewed)
  }

  function CommentaryThree(): Commentary {
    Commentary("3", "Jan 2026", "Securemetric ID", "Operating Expenses", "+5.2%", -80000.0,
      "One-time recruitment costs for new technical team. 4 engineers hired to support upcoming project. Expected to normalize next month.",
      "Ahmad Rahman", "2026-01-26", Pending)
  }

  /** The predicate passed to `filter` for a tab. */
  predicate Keeps(tab: Tab, c: Commentary) {
    match tab
    case AllTab => true
    case PendingTab => c.status == Pending
    case ReviewedTab => c.status != Pending
  }

  /** `filteredCommentaries` for the list `items` and the active tab: 'pending' keeps exactly the
      Pending records, 'reviewed' exactly the Reviewed and Approved ones. */
  function FilteredCommentaries(items: seq<Commentary>, tab: Tab): (r: seq<Commentary>)
    ensures |r| <= |items|
    ensures tab == PendingTab ==> forall c :: c in r <==> c in items && c.status == Pending
    ensures tab == ReviewedTab ==>
      forall c :: c in r <==> c in items && (c.status == Reviewed || c.status == Approved)
  {
    Filter(items, (c: Commentary) => Keeps(tab, c))
  }

  /** The 'all' tab shows the list unchanged. */
  lemma AllTabIsIdentity(items: seq<Commentary>)
    ensures FilteredCommentaries(items, AllTab) == items
  {
    FilterAll(items, c => Keeps(AllTab, c));
  }

  /** The 'pending' and 'reviewed' tabs are disjoint and together hold the whole list. */
  lemma TabsPartition(items: seq<Commentary>)
    ensures var p, d := FilteredCommentaries(items, PendingTab), FilteredCommentaries(items, ReviewedTab);
      && |p| + |d| == |items|
      && multiset(p) + multiset(d) == multiset(items)
      && forall c :: !(c in p && c in d)
  {
    FilterPartition(items, c => Keeps(PendingTab, c), c => Keeps(ReviewedTab, c));
  }

  /** Every tab lists its records in the order of the underlying list. */
  lemma TabKeepsOrder(items: seq<Commentary>, tab: Tab)
    ensures IsSubsequence(FilteredCommentaries(items, tab), items)
  {
    FilterIsSubsequence(items, c => Keeps(tab, c));
  }

  datatype Colour = Emerald | Rose

  /** What one commentary card shows beyond its fixed fields. */
  datatype CardView = CardView(varianceLabel: string, varianceColour: Colour, reviewButtons: bool)

  /** The card of one record: the label is the preformatted `variance` string, coloured by the
      sign of `varianceAmount` alone; Approve and Request Revision appear exactly while Pending. */
  function CardOf(c: Commentary): (v: CardView)
    ensures v.varianceLabel == c.variance
    ensures v.varianceColour == Emerald <==> c.varianceAmount >= 0.0
    ensures v.reviewButtons <==> c.status == Pending
  {
    CardView(c.variance, if c.varianceAmount >= 0.0 then Emerald else Rose, c.status == Pending)
  }

  /** Example, on the sample data (`CardOf` states the general rule): the third record's label reads "+5.2%" yet it is shown in rose. */
  lemma MockLabelDisagreesWithColour()
    ensures CardOf(CommentaryThree()).varianceLabel == "+5.2%"
    ensures CardOf(CommentaryThree()).varianceColour == Rose
  {
  }
}
