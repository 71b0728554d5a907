# BizTrak consolidation dashboard — a Dafny model of its stateful logic

BizTrak is a front-end mock-up of a financial consolidation dashboard. Every page renders
hard-coded sample arrays. A few pieces of real logic sit inside those pages, and this
project models and proves properties of them:

- **Expandable hierarchies.** Four pages share one logic: the chart of accounts, the
  financial reports (profit and loss), the variance drill-down and the variance analysis.
  - A click toggles a record's `isExpanded` flag through a recursive map over the tree.
  - The table shows the pre-order walk of the tree, leaving out the children of collapsed records.
  - The pages differ in which rows react to a click. The chart of accounts toggles every row. The
    financial reports toggle any row with a `children` field, even an empty one. The drill-down and
    variance analysis pages toggle only rows with non-empty children (`ExpandTree.ParentClick`).
  - The model has one generic tree module (`ExpandTree`). Each page module adds its record
    fields, its click guard, what a row shows, and a class holding the page's state cell.
- **Period-over-period variance.** `calculateVariance` appears three times, identically: in
  the financial reports, balance sheet and cash flow pages. So do the up, down or neutral badge
  and the `+` prefix chosen by the sign. The cash flow page adds section headers whose cells stay
  empty, and a `formatCurrency` that blanks zeros.
- **Status tabs and counts.**
  - The management feedback and admin commentary pages filter a list by the active tab.
  - The subsidiary mapping page counts records by status.
  - Each card or row shows buttons and cells according to the record's status.
- **The BizTrak upload panel.** A class with the three state cells `dragActive`, `status`
  and `selectedFile`. Drag, drop, choose, upload and clear events change them. The simulated
  2-second delay becomes an explicit completion event, and a counter of scheduled timers
  records when that event can happen.

The three `calculateVariance` copies are modelled once, as `Variance.CalculateVariance`:
- src/pages/FinancialReports.tsx:89-92
- src/pages/BalanceSheet.tsx:44-47
- src/pages/CashFlow.tsx:52-55

The four `toggleRecursive` copies are modelled once, as `ExpandTree.Toggle`:
- src/pages/ChartOfAccounts.tsx:74-84
- src/pages/FinancialReports.tsx:95-105
- src/pages/DrillDown.tsx:98-108
- src/pages/VarianceAnalysis.tsx:72-82

The sample data of each modelled page is a constant function holding the same values.

JavaScript truthiness is written out:
- An absent `isExpanded` reads as `false` (`ExpandTree.Expanded`).
- `children` is either absent or a present, possibly empty, list (`ExpandTree.Children`).
  So "children defined" and "non-empty children" are different guards.

Amounts are exact `real`s.

## Model

| member | source | states |
|---|---|---|
| ExpandTree.Toggle | src/pages/ChartOfAccounts.tsx:74-84 | toggling maps the list: it has as many records as before |
| ExpandTree.ToggleAt | src/pages/ChartOfAccounts.tsx:76-82 | a record whose id matches gets its flag negated (absent becomes `true`) with its children untouched, even if they repeat the id; a non-matching record without `children` is returned unchanged; a non-matching record with `children` keeps everything but gets its children toggled |
| ExpandTree.ToggleKeepsShape | src/pages/ChartOfAccounts.tsx:74-84 | once every flag is erased, the toggled tree equals the original: same ids, data, children lists and order |
| ExpandTree.ToggleNodeKeepsShape | src/pages/ChartOfAccounts.tsx:75-83 | the same, for one record and its subtree |
| ExpandTree.ToggleTwiceNormalized | src/pages/ChartOfAccounts.tsx:74-84 | toggling the same id twice restores every flag when an absent flag is read as `false` |
| ExpandTree.ToggleNodeTwiceNormalized | src/pages/ChartOfAccounts.tsx:75-83 | the same, for one record and its subtree |
| ExpandTree.ToggleTwiceIdentity | src/pages/ChartOfAccounts.tsx:74-84 | when every record carries an explicit flag, toggling the same id twice gives back the very same tree |
| ExpandTree.ToggleNodeTwiceIdentity | src/pages/ChartOfAccounts.tsx:75-83 | the same, for one record and its subtree |
| ExpandTree.ToggleTwiceMaterializesFlag | src/pages/ChartOfAccounts.tsx:77 | for a record without a flag, toggling twice leaves it with an explicit `false` flag, so the tree is not literally restored |
| ExpandTree.Rows | src/pages/ChartOfAccounts.tsx:88-125 | `renderTree` over a list: each record's rows in list order; the definition, whose meaning `RowsSubsequenceOfWalk`, `RowsAllExpanded`, `TopLevelAlwaysShown` and `ChildrenShownIff` state |
| ExpandTree.RowsOf | src/pages/ChartOfAccounts.tsx:89-123 | one record's row, followed by the rows of its children only when it is expanded; the definition, whose meaning `ChildrenShownIff` states |
| ExpandTree.RowsSubsequenceOfWalk | src/pages/ChartOfAccounts.tsx:88-125 | the rendered rows are an order-preserving subsequence of the full pre-order walk, each record at its tree depth |
| ExpandTree.RowsOfSubsequenceOfWalkOf | src/pages/ChartOfAccounts.tsx:89-123 | the same, for one record and its subtree |
| ExpandTree.RowInWalk | src/pages/ChartOfAccounts.tsx:88-125 | every rendered row is a record of the tree paired with its tree depth |
| ExpandTree.RowsAllExpanded | src/pages/ChartOfAccounts.tsx:122 | when every record is expanded, the rows are exactly the full pre-order walk |
| ExpandTree.ChildrenShownIff | src/pages/ChartOfAccounts.tsx:122 | a record's own row comes first; rows follow it exactly when it is expanded and has a non-empty children list, and the rows one level deeper below it are then exactly its children, in order (none when it is collapsed) |
| ExpandTree.RowsDepthBound | src/pages/ChartOfAccounts.tsx:88-125 | no rendered row lies above the starting depth |
| ExpandTree.RowsAtAppend | src/pages/ChartOfAccounts.tsx:89 | selecting the rows at one depth distributes over concatenation |
| ExpandTree.RowsAtDeeper | src/pages/ChartOfAccounts.tsx:122 | rows that all lie deeper contribute nothing at the given depth |
| ExpandTree.TopLevelAlwaysShown | src/pages/ChartOfAccounts.tsx:88-125 | the rows at the starting depth are exactly the top-level records, in order, whatever the flags |
| ExpandTree.Chevron | src/pages/ChartOfAccounts.tsx:100-102 | no chevron for a record without children, else down when expanded and right when not; the definition, used by `LineOf` and stated through `DrillDown.ViewOf` and `ToggleLeafInvisible` |
| ExpandTree.LineOf | src/pages/ChartOfAccounts.tsx:89-123 | what one rendered row shows: the record's id and fields, its depth and its chevron; the definition compared by `ToggleLeafInvisible` |
| ExpandTree.Display | src/pages/ChartOfAccounts.tsx:88-125 | the lines of all rendered rows, in order; the definition compared by `ToggleLeafInvisible` and `LeafClickInvisible` |
| ExpandTree.ToggleLeafInvisible | src/pages/ChartOfAccounts.tsx:97-102 | toggling an id whose top-most matches have no children leaves every rendered line (fields, depth, chevron) unchanged |
| ExpandTree.ToggleNodeLeafInvisible | src/pages/ChartOfAccounts.tsx:97-102 | the same, for one record and its subtree |
| ExpandTree.LeafMatchesIntro | src/pages/ChartOfAccounts.tsx:76-80 | if no record with the id anywhere in the walk has children, then neither do the top-most matches that toggling reaches |
| ExpandTree.WalksAgreeAppend | src/pages/ChartOfAccounts.tsx:75 | agreement of walks except on one id's flags is preserved by concatenation |
| ExpandTree.ToggleWalk | src/pages/ChartOfAccounts.tsx:74-84 | position by position, the toggled tree's walk keeps every record's id, data, depth and whether it has children, and every flag of a record with another id |
| ExpandTree.ToggleNodeWalk | src/pages/ChartOfAccounts.tsx:75-83 | the same, for one record and its subtree |
| ExpandTree.ToggleKeepsDistinctIds | src/pages/ChartOfAccounts.tsx:74-84 | toggling keeps every id at its place in the walk, so ids that were distinct stay distinct |
| ExpandTree.WalkIdsAgree | src/pages/ChartOfAccounts.tsx:6 | the id-only walk lists exactly the ids of the pre-order walk, position by position |
| ExpandTree.WalkIdsOfAgree | src/pages/ChartOfAccounts.tsx:6 | the same, for one record and its subtree |
| ExpandTree.DistinctWalkIds | src/pages/ChartOfAccounts.tsx:6 | distinct entries in the id-only walk mean distinct ids along the walk |
| ExpandTree.UniqueLeafMatches | src/pages/ChartOfAccounts.tsx:97 | with distinct ids, the id of a visible childless row matches no record with children |
| ExpandTree.ToggleKeepsLeafFlags | src/pages/DrillDown.tsx:98-120 | with distinct ids, toggling a visible record that has children keeps the flag of every childless record |
| ExpandTree.ParentClick | src/pages/DrillDown.tsx:120 | the click handler guarded by non-empty children keeps the shape of the tree and changes nothing on a row without children; on a row with children, position by position in the walk only the flags of records with the clicked id change; the drill-down and variance analysis pages both use it (src/pages/VarianceAnalysis.tsx:94) |
| ExpandTree.ParentClickKeepsLeafFlags | src/pages/DrillDown.tsx:120 | under that handler, with distinct ids, no click ever changes the flag of a childless record, and the ids stay distinct |
| ChartOfAccounts.InitialDistinctIds | src/pages/ChartOfAccounts.tsx:15-68 | no two accounts of the initial hierarchy share an id |
| ChartOfAccounts.ChartOfAccountsPage.constructor | src/pages/ChartOfAccounts.tsx:71 | the page starts from the sample chart of accounts, whose ids are distinct |
| ChartOfAccounts.ChartOfAccountsPage.VisibleRows | src/pages/ChartOfAccounts.tsx:180 | the rows `renderTree(coaData)` puts on screen: the top-level accounts are always among them, in order |
| ChartOfAccounts.ChartOfAccountsPage.ToggleExpand | src/pages/ChartOfAccounts.tsx:73-86 | the new state is the toggled tree, with the same shape; distinct ids stay distinct |
| ChartOfAccounts.ChartOfAccountsPage.ClickRow | src/pages/ChartOfAccounts.tsx:97 | a click on any visible row, leaf or not, toggles that row's id; from a state with distinct ids, ids stay distinct and a click on a childless account leaves the display as it was |
| ChartOfAccounts.LeafClickInvisible | src/pages/ChartOfAccounts.tsx:97-102 | with distinct ids, clicking a childless account changes nothing on screen |
| Variance.Abs | src/pages/FinancialReports.tsx:91 | `Math.abs`: non-negative and equal to the argument or its negation |
| Variance.CalculateVariance | src/pages/FinancialReports.tsx:89-92 | zero when `previous` is 0; otherwise the result times the magnitude of the base equals the change in percent |
| Variance.TrendOf | src/pages/FinancialReports.tsx:145 | up exactly for positive values, down exactly for negative ones, neutral exactly for zero |
| Variance.Prefix | src/pages/FinancialReports.tsx:147 | `+` exactly for positive values, otherwise nothing |
| Variance.VarianceTrend | src/pages/FinancialReports.tsx:89-92 | the variance has the sign of `current - previous`, or is neutral when the base is zero |
| Variance.VarianceZeroIff | src/pages/FinancialReports.tsx:91 | with a non-zero base, the variance is zero exactly when current equals previous |
| Variance.VarianceBadge | src/pages/BalanceSheet.tsx:131-138 | the badge for a variance carries its percentage and the style of the change's sign, with `+` exactly when the base is non-zero and the amount grew |
| FinancialReports.Clickable | src/pages/FinancialReports.tsx:121 | a row reacts to a click exactly when its record has a `children` field, even an empty one; the guard of `AfterClick`, whose contract states its effect |
| FinancialReports.AfterClick | src/pages/FinancialReports.tsx:121 | a click keeps the shape of the tree and changes nothing when the record has no `children` field; when it has one, even an empty one, position by position in the walk only the flags of records with the clicked id change |
| FinancialReports.ViewOf | src/pages/FinancialReports.tsx:109-158 | the MoM badge is the variance against `previous`, the Var % badge the variance against `budget`; each is styled by the sign of the difference and prefixed `+` exactly when the amount exceeds a non-zero base |
| FinancialReports.Rendered | src/pages/FinancialReports.tsx:109-164 | one rendered line per visible row, in order, each the `ViewOf` of its row |
| FinancialReports.FinancialReportsPage.constructor | src/pages/FinancialReports.tsx:77-78 | the page starts on the profit and loss tab with the sample data |
| FinancialReports.FinancialReportsPage.ToggleExpand | src/pages/FinancialReports.tsx:94-107 | the new data is the toggled tree and the tab is unchanged |
| FinancialReports.FinancialReportsPage.ClickRow | src/pages/FinancialReports.tsx:121 | a click on a row applies `AfterClick` |
| FinancialReports.FinancialReportsPage.SetReportType | src/pages/FinancialReports.tsx:188-206 | switching tabs changes only the tab and leaves the rendered table identical |
| FinancialReports.CostOfSalesTogglesWithoutChevron | src/pages/FinancialReports.tsx:121-132 | in the sample data the Cost of Sales row has an empty children list and no chevron, yet a click sets its flag to `true`, and nothing on screen changes |
| DrillDown.ViewOf | src/pages/DrillDown.tsx:124-161 | the variance is green with `+` exactly when it is not negative; the Var % badge is omitted exactly when the percentage is zero, and is otherwise green, rising and `+` exactly when it is positive; the chevron appears exactly for non-empty children; a negative actual is red |
| DrillDown.Rendered | src/pages/DrillDown.tsx:112-167 | one rendered line per visible row, in order, each the `ViewOf` of its row |
| DrillDown.MockDistinctIds | src/pages/DrillDown.tsx:17-83 | no two records of the sample data share an id |
| DrillDown.DrillDownPage.constructor | src/pages/DrillDown.tsx:86 | the page starts from the sample data, whose ids are distinct |
| DrillDown.DrillDownPage.ToggleExpand | src/pages/DrillDown.tsx:97-110 | the new data is the toggled tree; distinct ids stay distinct |
| DrillDown.DrillDownPage.ClickRow | src/pages/DrillDown.tsx:120 | a click on a row applies `ParentClick`; from a state with distinct ids, ids stay distinct and no childless record's flag changes |
| VarianceAnalysis.BandOf | src/pages/VarianceAnalysis.tsx:115-117 | the percentage falls in exactly one band: rose above 20, amber in (10, 20], emerald at or below 10 |
| VarianceAnalysis.ViewOf | src/pages/VarianceAnalysis.tsx:89-129 | the indent is the depth the row is rendered at; highlight and alert icon appear exactly for the High threshold; the amount is green with `+` exactly when strictly positive (zero is rose); the reason is shown exactly when it is a non-empty string |
| VarianceAnalysis.Rendered | src/pages/VarianceAnalysis.tsx:86-140 | one rendered line per visible row, in order, each the `ViewOf` of its row |
| VarianceAnalysis.IndentIsTreeDepth | src/pages/VarianceAnalysis.tsx:86-137 | every rendered row's indentation is its record's depth in the tree, counted from 0 |
| VarianceAnalysis.MockDistinctIds | src/pages/VarianceAnalysis.tsx:18-56 | no two records of the sample data share an id |
| VarianceAnalysis.VarianceAnalysisPage.constructor | src/pages/VarianceAnalysis.tsx:59-60 | the page starts from the sample data, whose ids are distinct, with the MoM period |
| VarianceAnalysis.VarianceAnalysisPage.ToggleExpand | src/pages/VarianceAnalysis.tsx:71-84 | the new data is the toggled tree and the period is unchanged; distinct ids stay distinct |
| VarianceAnalysis.VarianceAnalysisPage.ClickRow | src/pages/VarianceAnalysis.tsx:94 | a click on a name cell applies `ParentClick`; from a state with distinct ids, ids stay distinct and no childless record's flag changes |
| VarianceAnalysis.VarianceAnalysisPage.SetPeriod | src/pages/VarianceAnalysis.tsx:153 | choosing a period changes only the period and leaves the rendered table identical |
| Lists.Filter | src/pages/ManagementFeedback.tsx:96-101 | `filter` keeps exactly the elements satisfying the predicate and never lengthens the list |
| Lists.FilterCons | src/pages/SubsidiaryMapping.tsx:52 | filtering a list that starts with an element decides that element first, then filters the rest |
| Lists.FilterIsSubsequence | src/pages/ManagementFeedback.tsx:96-101 | a filter result is an order-preserving subsequence of its input |
| Lists.FilterAll | src/pages/ManagementFeedback.tsx:97 | a predicate that holds everywhere returns the input unchanged |
| Lists.FilterPartition | src/pages/ManagementFeedback.tsx:98-99 | two complementary filters split the input: the lengths add up and the multisets together give the input back |
| ManagementFeedback.FilteredFeedback | src/pages/ManagementFeedback.tsx:96-101 | the 'pending' tab keeps exactly the Pending Response records; the 'responded' tab keeps exactly the Responded and Acknowledged ones |
| ManagementFeedback.AllTabIsIdentity | src/pages/ManagementFeedback.tsx:97 | the 'all' tab shows the list unchanged |
| ManagementFeedback.TabsPartition | src/pages/ManagementFeedback.tsx:98-99 | the 'pending' and 'responded' tabs share no record, and together hold every record as often as the list does |
| ManagementFeedback.TabKeepsOrder | src/pages/ManagementFeedback.tsx:96-101 | every tab lists its records in list order |
| ManagementFeedback.CardOf | src/pages/ManagementFeedback.tsx:254-285 | the response block appears exactly for a non-empty response; 'Add Response' appears exactly while pending and 'Acknowledge' exactly once responded; never both |
| AdminCommentary.FilteredCommentaries | src/pages/AdminCommentary.tsx:77-82 | the 'pending' tab keeps exactly the Pending records; the 'reviewed' tab keeps exactly the Reviewed and Approved ones |
| AdminCommentary.AllTabIsIdentity | src/pages/AdminCommentary.tsx:78 | the 'all' tab shows the list unchanged |
| AdminCommentary.TabsPartition | src/pages/AdminCommentary.tsx:79-80 | the 'pending' and 'reviewed' tabs are disjoint and together give back the list |
| AdminCommentary.TabKeepsOrder | src/pages/AdminCommentary.tsx:77-82 | every tab lists its records in list order |
| AdminCommentary.CardOf | src/pages/AdminCommentary.tsx:194-235 | the variance label is the preformatted string, green exactly when `varianceAmount` is not negative, whatever the label says; Approve and Request Revision appear exactly while Pending |
| AdminCommentary.MockLabelDisagreesWithColour | src/pages/AdminCommentary.tsx:44-55 | the third sample commentary reads "+5.2%" yet is shown in rose |
| SubsidiaryMapping.CountOf | src/pages/SubsidiaryMapping.tsx:52-54 | a status count never exceeds the number of records |
| SubsidiaryMapping.StatsOf | src/pages/SubsidiaryMapping.tsx:50-55 | `total` is the list length and each status count is at most the total |
| SubsidiaryMapping.CountCons | src/pages/SubsidiaryMapping.tsx:52-54 | a leading record adds one to the count of its own status and nothing to the others |
| SubsidiaryMapping.CountsSumToTotal | src/pages/SubsidiaryMapping.tsx:50-55 | mapped, pending and unmapped add up to the total, since every record has exactly one of the three statuses |
| SubsidiaryMapping.MockStats | src/pages/SubsidiaryMapping.tsx:16-23 | the sample list has six records: four mapped, one pending, one unmapped |
| SubsidiaryMapping.RowOf | src/pages/SubsidiaryMapping.tsx:173-193 | the group code and name are shown exactly for Mapped records and every other record gets the group-account selector; the action reads 'Edit' exactly for Mapped records and 'Map' otherwise |
| BizTrakUpload.UploadPanel.constructor | src/pages/BizTrakUpload.tsx:24-26 | the panel starts without highlight, idle, with no file and no timer, and satisfies its invariant |
| BizTrakUpload.UploadPanel.ProcessButtonShown | src/pages/BizTrakUpload.tsx:158 | the process button is on screen with a selected file and status idle; the definition, which `Zone` states as the card's button and `ClickProcess` requires |
| BizTrakUpload.UploadPanel.Zone | src/pages/BizTrakUpload.tsx:127-186 | the picker shows exactly while no file is selected; otherwise the file card shows at most one of process button (idle), progress bar (uploading) and success notice (success) |
| BizTrakUpload.UploadPanel.HandleDrag | src/pages/BizTrakUpload.tsx:28-36 | 'dragenter' and 'dragover' raise the highlight, 'dragleave' drops it, other event types leave it; nothing else changes |
| BizTrakUpload.UploadPanel.HandleFile | src/pages/BizTrakUpload.tsx:54-57 | the file becomes the selected file and the status returns to idle |
| BizTrakUpload.UploadPanel.HandleDrop | src/pages/BizTrakUpload.tsx:38-45 | a drop always clears the highlight and selects the first dropped file if there is one |
| BizTrakUpload.UploadPanel.HandleChange | src/pages/BizTrakUpload.tsx:47-52 | choosing files selects the first one if there is one |
| BizTrakUpload.UploadPanel.UploadFile | src/pages/BizTrakUpload.tsx:59-62 | the status becomes uploading and one more completion timer is scheduled |
| BizTrakUpload.UploadPanel.CompleteUpload | src/pages/BizTrakUpload.tsx:62-64 | a scheduled timer fires and sets success unconditionally; the selected file is untouched |
| BizTrakUpload.UploadPanel.ClickProcess | src/pages/BizTrakUpload.tsx:158-160 | the process button, clickable only while shown, starts the upload: the status becomes uploading, one more timer is due, the file stays, and the card now shows the progress bar alone |
| BizTrakUpload.UploadPanel.FinishUpload | src/pages/BizTrakUpload.tsx:59-64 | while the panel shows uploading a timer is due, so the upload can always complete to success |
| BizTrakUpload.UploadPanel.ClearFile | src/pages/BizTrakUpload.tsx:151 | clearing removes the file and leaves the status as it was |
| BizTrakUpload.ClearDuringUpload | src/pages/BizTrakUpload.tsx:59-65 | a file cleared while uploading still ends in success, with the picker back on screen |
| BizTrakUpload.ReselectDuringUpload | src/pages/BizTrakUpload.tsx:54-65 | a file dropped while another uploads is shown as validated once the earlier timer fires |
| BalanceSheet.RowOf | src/pages/BalanceSheet.tsx:102-138 | the Change % badge is the variance against `previous`; it is up, down or neutral exactly as `current` is above, below or equal to a non-zero `previous`, and neutral for a zero base; `+` exactly when a non-zero base grew |
| BalanceSheet.Rendered | src/pages/BalanceSheet.tsx:102 | one rendered row per statement line, in order |
| CashFlow.IsHeader | src/pages/CashFlow.tsx:141 | a row is a header when it is level 1, not a total, and has a zero current amount; the definition, whose effect `RowOf` states and whose extent on the sample `MockHeaders` states |
| CashFlow.MockHeaders | src/pages/CashFlow.tsx:14-37 | of the sample table, exactly the three section titles (rows 0, 6 and 11, the operating, investing and financing 'ACTIVITIES' rows) are headers |
| CashFlow.Contains | src/pages/CashFlow.tsx:41 | `includes`: the text occurs somewhere in the name; the definition used by `FormatCurrency` and `MockZeroIsBlank` |
| CashFlow.FindFrom | src/pages/CashFlow.tsx:41 | the search returns the first index at or after the start whose current amount matches, or reports that there is none |
| CashFlow.Find | src/pages/CashFlow.tsx:41 | `find` returns nothing exactly when no row matches, and otherwise the first matching row |
| CashFlow.FormatCurrency | src/pages/CashFlow.tsx:40-50 | a value is blanked exactly when it is zero and the first row with a zero current amount is a non-total row whose name contains 'ACTIVITIES'; any other value is formatted as is |
| CashFlow.RowOf | src/pages/CashFlow.tsx:139-179 | header rows show no current, previous or change cell; other rows format both amounts, and show a change badge exactly when `previous` is non-zero, styled by the sign of `current - previous` and prefixed `+` exactly when the amount grew |
| CashFlow.Rendered | src/pages/CashFlow.tsx:139 | one rendered row per table row, in order |
| CashFlow.MockZeroIsBlank | src/pages/CashFlow.tsx:14-43 | on the sample table every zero amount is blanked, because the first zero-current row is the 'OPERATING ACTIVITIES' header |

## Left out

- Currency and number formatting (`Intl.NumberFormat`, `toFixed`). These are locale library calls. The model keeps the value handed to them.
- IEEE floating point. Amounts and variances are exact reals, with no rounding to one decimal.
- Timing of the upload. Nothing here runs concurrently. The 2-second `setTimeout` in src/pages/BizTrakUpload.tsx:62 is an explicit `CompleteUpload` event, allowed whenever a timer is scheduled; while the panel shows uploading one always is (`FinishUpload`).
- The file-picker click on the drop zone (`document.getElementById(...).click()`), and `preventDefault`/`stopPropagation`. These are DOM calls. Only the `handleChange` that follows a choice is modelled.
- A missing `FileList` is treated as an empty sequence.
- Styling classes, font weights and the level-based `paddingLeft` of the chart of accounts, financial reports, drill-down, balance sheet and cash flow pages. Instead, the chart-of-accounts lines carry the tree depth. The financial reports, drill-down and balance sheet rows carry the record's `level`, the input of their padding. The cash flow rows carry no indentation. Only the variance analysis view computes an indent, and that indent is the tree depth.
- The icons next to level-3 rows, and the hover effects.
- The upload history list and the hard-coded summary cards. Buttons without handlers (Filter, Export, Share, New Question, Analyze) are left out too.
- The consistency of the sample data itself, such as summary-card numbers or totals against line items. No code computes these relations.
- `refreshRates` in src/pages/MultiCurrencyFX.tsx:24-32 depends on `Math.random` and the clock.
- Charts, routing, layout, theme and sidebar. These are UI plumbing.
- Display-only pages: transactions, adjustments, inter-company, data validation, audit log, user management, system settings, board-pack export and commentary review.
- The active tab of the feedback and commentary pages is a parameter of the filter. Those pages are pure over a constant list, so there is no class for them.
- `isTotal` is a plain boolean. An absent flag is `false`, which has the same truthiness.
- Literal-union `level` fields are unbounded integers.
- The sample data of the management feedback page is modelled, but no lemma evaluates the filter over that particular list; the general tab lemmas cover it.
