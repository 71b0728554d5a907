/** The balance sheet page: a flat list of statement lines with a period-over-period change badge. */
module BalanceSheet {
  import opened Variance
  import Lists

  /** A `ReportRow` of the balance sheet; `level` is 1, 2 or 3. */
  datatype ReportRow = ReportRow(id: string, name: string, level: int, current: real, previous: real)

  /** `mockBalanceSheet`, the constant list the page shows. */
  function MockBalanceSheet(): seq<ReportRow> {
    [ ReportRow("1", "ASSETS", 1, 25800000.0, 23500000.0),
      ReportRow("1-1", "Current Assets", 2, 12400000.0, 11200000.0),
      ReportRow("1-1-1", "Cash & Bank Balances", 3, 8400000.0, 7200000.0),
      ReportRow("1-1-2", "Trade Receivables", 3, 3200000.0, 3100000.0),
      ReportRow("1-1-3", "Other Receivables", 3, 800000.0, 900000.0),
      ReportRow("1-2", "Non-Current Assets", 2, 13400000.0, 12300000.0),
      ReportRow("1-2-1", "Property, Plant & Equipment", 3, 8500000.0, 8000000.0),
      ReportRow("1-2-2", "Intangible Assets", 3, 4900000.0, 4300000.0),
      ReportRow("2", "LIABILITIES", 1, 8200000.0, 7800000.0),
      ReportRow("2-1", "Current Liabilities", 2, 5400000.0, 5200000.0),
      ReportRow("2-1-1", "Trade Payables", 3, 2800000.0, 2600000.0),
      ReportRow("2-1-2", "Accruals", 3, 1600000.0, 1500000.0),
      ReportRow("2-1-3", "Short-term Borrowings", 3, 1000000.0, 1100000.0),
      ReportRow("2-2", "Non-Current Liabilities", 2, 2800000.0, 2600000.0),
      ReportRow("2-2-1", "Long-term Debt", 3, 2800000.0, 2600000.0),
      ReportRow("3", "EQUITY", 1, 17600000.0, 15700000.0),
      ReportRow("3-1", "Share Capital", 2, 5000000.0, 5000000.0),
      ReportRow("3-2", "Retained Earnings", 2, 12600000.0, 10700000.0) ]
  }

  /** What one table row shows. */
  datatype RowView = RowView(name: string, level: int, current: real, previous: real, change: Badge)

  /** One table row: the Change % badge is the variance of `current` against `previous`, in up
      (emerald, rising icon), down (rose, falling icon) or neutral style by the sign of the change,
      with a `+` exactly when the base is non-zero and the amount grew. */
  function RowOf(r: ReportRow): (v: RowView)
    ensures v.change.percent == CalculateVariance(r.current, r.previous)
    ensures r.previous == 0.0 ==> v.change.trend == Flat
    ensures r.previous != 0.0 ==> (v.change.trend == Up <==> r.current > r.previous)
    ensures r.previous != 0.0 ==> (v.change.trend == Down <==> r.current < r.previous)
    ensures r.previous != 0.0 ==> (v.change.trend == Flat <==> r.current == r.previous)
    ensures v.change.prefix == "+" <==> r.previous != 0.0 && r.current > r.previous
  {
    VarianceBadge(r.current, r.previous);
    RowView(r.name, r.level, r.current, r.previous, BadgeOf(CalculateVariance(r.current, r.previous)))
  }

  /** The table body, `mockBalanceSheet.map(...)`. */
  function Rendered(rows: seq<ReportRow>): (v: seq<RowView>)
    ensures |v| == |rows|
    ensures forall i :: 0 <= i < |rows| ==> v[i] == RowOf(rows[i])
  {
    Lists.Map(rows, RowOf)
  }
}
