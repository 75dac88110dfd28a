/**
 * The computations of pages/4_dashboard.py: the time-period choice, the date and account
 * filters, the summary metrics, the monthly income/expense table and the expense breakdown.
 */
module DashboardPage {
  import opened Wrappers
  import opened Ledger
  import opened Charts

  /** The "Time Period" choices; a custom range carries the two dates picked. */
  datatype TimePeriod =
    | Last30Days
    | Last3Months
    | Last6Months
    | YearToDate
    | AllTime
    | CustomRange(start: int, end: int)

  /** `transactions_df["date"].min()`. */
  function EarliestDate(txns: seq<Txn>): (r: int)
    requires txns != []
    ensures forall t :: t in txns ==> r <= t.date
    ensures exists t :: t in txns && t.date == r
  {
    if |txns| == 1 then txns[0].date
    else
      var rest := EarliestDate(txns[1..]);
      assert forall t :: t in txns ==> t == txns[0] || t in txns[1..];
      if txns[0].date <= rest then txns[0].date else rest
  }

  /** The `(start_date, end_date)` the chosen period gives, `today` being the current date. */
  function DateRange(choice: TimePeriod, today: int, txns: seq<Txn>, cal: Calendar): (r: (int, int))
    requires txns != []
    ensures choice.CustomRange? ==> r == (choice.start, choice.end)
    ensures !choice.CustomRange? ==> r.1 == today
    ensures choice == Last30Days ==> r.0 == today - 30
    ensures choice == Last3Months ==> r.0 == today - 90
    ensures choice == Last6Months ==> r.0 == today - 180
    ensures choice == YearToDate ==> r.0 == cal.newYear(cal.yearOf(today))
    ensures choice == AllTime ==> r.0 == EarliestDate(txns)
  {
    match choice
    case CustomRange(start, end) => (start, end)
    case Last30Days => (today - 30, today)
    case Last3Months => (today - 90, today)
    case Last6Months => (today - 180, today)
    case YearToDate => (cal.newYear(cal.yearOf(today)), today)
    case AllTime => (EarliestDate(txns), today)
  }

  /**
   * Every window but "All time" and the custom range starts no later than it ends (January 1
   * of today's year is not after today); "All time" starts at the earliest fetched row, so no
   * fetched row falls before it.
   */
  lemma DateRangeFacts(choice: TimePeriod, today: int, txns: seq<Txn>, cal: Calendar)
    requires txns != []
    requires WellFormed(cal)
    ensures var (start, end) := DateRange(choice, today, txns, cal);
      (choice != AllTime && !choice.CustomRange? ==> start <= end) &&
      (choice == AllTime ==> forall t :: t in txns ==> start <= t.date)
  {
    assert cal.newYear(cal.yearOf(today)) <= today;
  }

  /** Lines 62-63: keep the rows dated from `start` to `end`, both included, each as often as fetched. */
  function DateFilter(txns: seq<Txn>, start: int, end: int): (r: seq<Txn>)
    ensures forall t :: t in r <==> t in txns && start <= t.date <= end
    ensures forall t :: multiset(r)[t] == if start <= t.date <= end then multiset(txns)[t] else 0
    ensures IsSubsequence(r, txns)
  {
    WhereKeepsCopies(txns, Between(start, end));
    Where(txns, Between(start, end))
  }

  /** Over "All time", the date filter drops exactly the rows dated after today. */
  lemma AllTimeKeepsThePast(txns: seq<Txn>, today: int, cal: Calendar)
    requires txns != []
    ensures var (start, end) := DateRange(AllTime, today, txns, cal);
      forall t :: t in DateFilter(txns, start, end) <==> t in txns && t.date <= today
  {
  }

  /** The ids of the accounts whose name was selected. */
  function SelectedIds(accounts: seq<Account>, selected: seq<string>): (r: set<string>)
    ensures forall id :: id in r <==> exists a :: a in accounts && a.name in selected && a.id == id
  {
    set a | a in accounts && a.name in selected :: a.id
  }

  /** The account filter applies: there are accounts, something is selected and not "All Accounts". */
  predicate AccountFilterApplies(accounts: seq<Account>, selected: seq<string>) {
    accounts != [] && AllAccounts !in selected && selected != []
  }

  /** Lines 66-75: keep the rows of the accounts whose name was selected. */
  function AccountFilter(txns: seq<Txn>, accounts: seq<Account>, selected: seq<string>): (r: seq<Txn>)
    ensures !AccountFilterApplies(accounts, selected) ==> r == txns
    ensures AccountFilterApplies(accounts, selected) ==>
      forall t :: t in r <==> t in txns && t.accountId in SelectedIds(accounts, selected)
    ensures AccountFilterApplies(accounts, selected) ==>
      forall t :: multiset(r)[t] == if t.accountId in SelectedIds(accounts, selected) then multiset(txns)[t] else 0
    ensures IsSubsequence(r, txns)
  {
    if AccountFilterApplies(accounts, selected) then
      WhereKeepsCopies(txns, OfAccounts(SelectedIds(accounts, selected)));
      Where(txns, OfAccounts(SelectedIds(accounts, selected)))
    else
      SubsequenceOfItself(txns);
      txns
  }

  /** The three metrics and the net-flow delta, a percentage of income shown only when income > 0. */
  datatype Metrics = Metrics(totalIncome: real, totalExpense: real, netFlow: real, delta: Option<real>)

  /** Lines 78-88. */
  function SummaryMetrics(txns: seq<Txn>): (r: Metrics)
    ensures r.totalIncome == Income(txns) && r.totalExpense == Expenses(txns)
    ensures r.totalIncome >= 0.0 && r.totalExpense >= 0.0
    ensures r.netFlow == Total(txns)
    ensures r.delta.Some? <==> r.totalIncome > 0.0
    ensures r.delta.Some? ==> r.delta.value * r.totalIncome == r.netFlow * 100.0
  {
    var income := Income(txns);
    var expense := Expenses(txns);
    NetIsTotal(txns);
    var net := income - expense;
    Metrics(income, expense, net, if income > 0.0 then Some(net / income * 100.0) else None)
  }

  /** The monthly income/expense table and the expense breakdown by category. */
  datatype DashboardCharts = DashboardCharts(monthly: seq<ChartRow>, breakdown: seq<CategorySpend>)

  /**
   * What the page computes from the fetched rows. `charts` is None when building the
   * monthly table raised: the metrics are already shown, then "Error generating dashboard".
   */
  datatype View = View(
    start: int,
    end: int,
    filtered: seq<Txn>,
    metrics: Metrics,
    charts: Option<DashboardCharts>)

  /**
   * The dashboard: nothing when no transaction was fetched; otherwise the date filter, then
   * the account filter, and the metrics of what remains. The monthly table and the expense
   * breakdown follow when rows remain; grouping no rows by month gives a table without the
   * "Income" and "Expenses" columns, and reshaping it raises.
   */
  function Dashboard(
    fetched: seq<Txn>, accounts: seq<Account>, choice: TimePeriod, today: int,
    selected: seq<string>, cal: Calendar): (r: Option<View>)
    ensures r.None? <==> fetched == []
    ensures r.Some? ==> (r.value.start, r.value.end) == DateRange(choice, today, fetched, cal)
    ensures r.Some? ==>
      r.value.filtered == AccountFilter(DateFilter(fetched, r.value.start, r.value.end), accounts, selected)
    ensures r.Some? ==> r.value.metrics == SummaryMetrics(r.value.filtered)
    ensures r.Some? ==> (r.value.charts.None? <==> r.value.filtered == [])
    ensures r.Some? && r.value.charts.Some? ==>
      r.value.charts.value.monthly == Melt(Summarize(r.value.filtered, Monthly, cal)) &&
      r.value.charts.value.breakdown == ExpenseBreakdown(r.value.filtered)
  {
    if fetched == [] then None
    else
      var (start, end) := DateRange(choice, today, fetched, cal);
      var filtered := AccountFilter(DateFilter(fetched, start, end), accounts, selected);
      var charts := if filtered == [] then None
        else Some(DashboardCharts(Melt(Summarize(filtered, Monthly, cal)), ExpenseBreakdown(filtered)));
      Some(View(start, end, filtered, SummaryMetrics(filtered), charts))
  }

  /**
   * The filtered rows are a subsequence of the fetched ones, each dated within the range,
   * and, when the account filter applies, each belonging to a selected account.
   */
  lemma DashboardFilters(
    fetched: seq<Txn>, accounts: seq<Account>, choice: TimePeriod, today: int,
    selected: seq<string>, cal: Calendar)
    requires fetched != []
    ensures var v := Dashboard(fetched, accounts, choice, today, selected, cal).value;
      IsSubsequence(v.filtered, fetched) &&
      (forall t :: t in v.filtered ==> v.start <= t.date <= v.end) &&
      (AccountFilterApplies(accounts, selected) ==>
         forall t :: t in v.filtered ==> t.accountId in SelectedIds(accounts, selected))
  {
    var v := Dashboard(fetched, accounts, choice, today, selected, cal).value;
    var dated := DateFilter(fetched, v.start, v.end);
    SubsequenceTransitive(v.filtered, dated, fetched);
  }
}
