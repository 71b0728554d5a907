/** The management feedback page: questions from the group to subsidiaries, listed under status tabs. */
module ManagementFeedback {
  import opened Wrappers
  import opened Lists

  datatype Status = PendingResponse | Responded | Acknowledged

  datatype Priority = High | Medium | Low

  /** A `Feedback` record; the nullable strings are `Option`s. */
  datatype Feedback = Feedback(id: string, period: string, subsidiary: string, topic: string,
                               question: string, response: Option<string>,
                               requestedBy: string, requestedDate: string,
                               respondedBy: Option<string>, respondedDate: Option<string>,
                               status: Status, priority: Priority)

  /** The `activeTab` values. */
  datatype Tab = AllTab | PendingTab | RespondedTab

  /** `mockFeedback`, the constant list the page filters. */
  function MockFeedback(): seq<Feedback> {
    [FeedbackOne(), FeedbackTwo(), FeedbackThree()]
  }

  function FeedbackOne(): Feedback {
    Feedback("1", "Jan 2026", "Securemetric MY", "Revenue Recognition",
      "Can you clarify the timing of revenue recognition for the ABC Corp deal? The contract signing date differs from the delivery date by 2 weeks.",
      Some("Revenue was recognized upon delivery of software licenses on Jan 15th per MFRS 15 criteria. Contract signing occurred earlier but acceptance was confirmed on delivery date."),
      "Group CFO", "2026-01-20", Some("John Doe"), Some("2026-01-22"), Acknowledged, High)
  }

  function FeedbackTwo(): Feedback {
    Feedback("2", "Jan 2026", "Securemetric SG", "Expense Allocation",
      "Please explain the increase in marketing expenses. Is this a one-time spend or recurring?",
      Some("This includes the regional conference sponsorship (SGD 50K) which is annual, plus digital campaign costs (SGD 30K). Conference is one-time annual event."),
      "Group CFO", "2026-01-25", Some("Jane Smith"), Some("2026-01-26"), Responded, Medium)
  }

  function FeedbackThree(): Feedback {
    Feedback("3", "Jan 2026", "Securemetric ID", "Working Capital",
      "Receivables aging shows increase in 60+ day balances. What collection actions are being taken?",
      None, "Group CFO", "2026-01-27", None, None, PendingResponse, High)
  }

  /** The predicate passed to `filter` for a tab. */
  predicate Keeps(tab: Tab, f: Feedback) {
    match tab
    case AllTab => true
    case PendingTab => f.status == PendingResponse
    case RespondedTab => f.status != PendingResponse
  }

  /** `filteredFeedback` for the list `items` and the active tab: 'pending' keeps exactly the
      records awaiting a response, 'responded' exactly the others, Acknowledged ones included. */
  function FilteredFeedback(items: seq<Feedback>, tab: Tab): (r: seq<Feedback>)
    ensures |r| <= |items|
    ensures tab == PendingTab ==> forall f :: f in r <==> f in items && f.status == PendingResponse
    ensures tab == RespondedTab ==>
      forall f :: f in r <==> f in items && (f.status == Responded || f.status == Acknowledged)
  {
    Filter(items, (f: Feedback) => Keeps(tab, f))
  }

  /** The 'all' tab shows the list unchanged. */
  lemma AllTabIsIdentity(items: seq<Feedback>)
    ensures FilteredFeedback(items, AllTab) == items
  {
    FilterAll(items, f => Keeps(AllTab, f));
  }

  /** The 'pending' and 'responded' tabs split the list: no record is in both, and together they
      hold every record exactly as often as the list does. */
  lemma TabsPartition(items: seq<Feedback>)
    ensures var p, d := FilteredFeedback(items, PendingTab), FilteredFeedback(items, RespondedTab);
      && |p| + |d| == |items|
      && multiset(p) + multiset(d) == multiset(items)
      && forall f :: !(f in p && f in d)
  {
    FilterPartition(items, f => Keeps(PendingTab, f), f => Keeps(RespondedTab, f));
  }

  /** Every tab lists its records in the order of the underlying list. */
  lemma TabKeepsOrder(items: seq<Feedback>, tab: Tab)
    ensures IsSubsequence(FilteredFeedback(items, tab), items)
  {
    FilterIsSubsequence(items, f => Keeps(tab, f));
  }

  /** What one feedback card shows beyond its fixed fields. */
  datatype CardView = CardView(responseBlock: Option<string>, addResponseButton: bool, acknowledgeButton: bool)

  /** The card of one record: the response block exactly when there is a non-empty response,
      'Add Response' exactly while a response is pending, 'Acknowledge' exactly once responded,
      and never both buttons. */
  function CardOf(f: Feedback): (c: CardView)
    ensures c.responseBlock.Some? <==> f.response.Some? && f.response.value != ""
    ensures c.responseBlock.Some? ==> c.responseBlock == f.response
    ensures c.addResponseButton <==> f.status == PendingResponse
    ensures c.acknowledgeButton <==> f.status == Responded
    ensures !(c.addResponseButton && c.acknowledgeButton)
  {
    CardView(if f.response.Some? && f.response.value != "" then f.response else None,
             f.status == PendingResponse, f.status == Responded)
  }
}
