/**
 * `show_dashboard` of dashboard.py: on a non-empty frame it lower-cases the caller's column
 * names in place, totals the rows labelled exactly "Income" and "Expense", groups by month and
 * lists the rows newest first.
 */
module Dashboard {
  import opened Wrappers
  import opened Text
  import opened Ledger
  import opened Charts

  /** The caller's frame: its column names and, cell by cell, the rows they describe. */
  class TxnTable {
    var columns: seq<string>
    var txns: seq<Txn>

    constructor(columns: seq<string>, txns: seq<Txn>)
      ensures this.columns == columns && this.txns == txns
    {
      this.columns := columns;
      this.txns := txns;
    }
  }

  /** `data.empty`: no rows or no columns. */
  predicate EmptyTable(columns: seq<string>, txns: seq<Txn>) {
    txns == [] || columns == []
  }

  /** Line 12: every column name lower-cased, in place and in order. */
  function LowerColumns(columns: seq<string>): (r: seq<string>)
    ensures |r| == |columns| && forall i :: 0 <= i < |r| ==> r[i] == Lower(columns[i])
  {
    seq(|columns|, i requires 0 <= i < |columns| => Lower(columns[i]))
  }

  /** Lower-casing the columns a second time changes nothing. */
  lemma LowerColumnsIdempotent(columns: seq<string>)
    ensures LowerColumns(LowerColumns(columns)) == LowerColumns(columns)
  {
    forall i | 0 <= i < |columns| ensures LowerColumns(LowerColumns(columns))[i] == LowerColumns(columns)[i] {
      LowerIdempotent(columns[i]);
    }
  }

  /** The columns the database returns with a capital letter are found after lower-casing. */
  lemma CapitalisedColumnsFound(columns: seq<string>)
    requires "Type" in columns && "Amount" in columns && "Date" in columns
    ensures "type" in LowerColumns(columns) && "amount" in LowerColumns(columns) && "date" in LowerColumns(columns)
  {
    ColumnFound(columns, "Type");
    ColumnFound(columns, "Amount");
    ColumnFound(columns, "Date");
    LowerType();
    LowerAmount();
    LowerDate();
  }

  lemma ColumnFound(columns: seq<string>, name: string)
    requires name in columns
    ensures Lower(name) in LowerColumns(columns)
  {
    var i :| 0 <= i < |columns| && columns[i] == name;
    assert LowerColumns(columns)[i] == Lower(name);
  }

  // One lemma per literal: stated together in one proof, the three literals cost the solver
  // far more than apart.
  lemma LowerType() ensures Lower("Type") == "type" { LowerCapitalised("Type"); }
  lemma LowerAmount() ensures Lower("Amount") == "amount" { LowerCapitalised("Amount"); }
  lemma LowerDate() ensures Lower("Date") == "date" { LowerCapitalised("Date"); }

  /** Lines 14-15: the sum of the amounts of the rows whose type is exactly `name`. */
  function LabelTotal(txns: seq<Txn>, name: string): real {
    Total(Where(txns, OfKind(name)))
  }

  /** A name that no row carries exactly, such as "income" against "Income", totals zero. */
  lemma {:induction false} LabelCaseSensitive(txns: seq<Txn>, name: string)
    requires forall t :: t in txns ==> t.kind != name
    ensures LabelTotal(txns, name) == 0.0
  {
    if txns != [] {
      assert forall t :: t in txns[1..] ==> t in txns;
      LabelCaseSensitive(txns[1..], name);
    }
  }

  /** When every row is labelled with one of two labels, their totals add up to the total. */
  lemma {:induction false} LabelsSplitTotal(txns: seq<Txn>, a: string, b: string)
    requires a != b
    requires forall t :: t in txns ==> t.kind == a || t.kind == b
    ensures LabelTotal(txns, a) + LabelTotal(txns, b) == Total(txns)
  {
    if txns != [] {
      assert forall t :: t in txns[1..] ==> t in txns;
      LabelsSplitTotal(txns[1..], a, b);
    }
  }

  /** The three metrics. */
  datatype Totals = Totals(income: real, expense: real, balance: real)

  /** Lines 14-16: the balance adds the "Expense" sum, whose amounts are stored negative. */
  function Metrics(txns: seq<Txn>): (r: Totals)
    ensures r.income == LabelTotal(txns, "Income") && r.expense == LabelTotal(txns, "Expense")
    ensures r.balance == r.income + r.expense
  {
    var income := LabelTotal(txns, "Income");
    var expense := LabelTotal(txns, "Expense");
    Totals(income, expense, income + expense)
  }

  /** On rows labelled only "Income" or "Expense", the balance is the sum of all amounts. */
  lemma BalanceIsTotal(txns: seq<Txn>)
    requires forall t :: t in txns ==> t.kind == "Income" || t.kind == "Expense"
    ensures Metrics(txns).balance == Total(txns)
  {
    LabelsSplitTotal(txns, "Income", "Expense");
  }

  /** One row of the monthly summary. */
  datatype MonthRow = MonthRow(month: int, total: real, incomeCount: nat)

  function Months(rows: seq<MonthRow>): (r: seq<int>)
    ensures |r| == |rows| && forall i :: 0 <= i < |r| ==> r[i] == rows[i].month
  {
    seq(|rows|, i requires 0 <= i < |rows| => rows[i].month)
  }

  /**
   * Lines 24-28: one row per year-month, ascending, with the sum of that month's amounts and
   * the number of that month's rows typed exactly "Income".
   */
  function MonthlySummary(txns: seq<Txn>, cal: Calendar): (r: seq<MonthRow>)
    ensures forall i, j :: 0 <= i < j < |r| ==> r[i].month < r[j].month
    ensures forall k :: k in Months(r) <==> k in PeriodKeys(txns, Monthly, cal)
    ensures forall i :: 0 <= i < |r| ==>
      r[i].total == Total(Group(txns, Monthly, cal, r[i].month)) &&
      r[i].incomeCount == |Where(Group(txns, Monthly, cal, r[i].month), OfKind("Income"))|
  {
    var keys := SortedKeys(PeriodKeys(txns, Monthly, cal));
    var r := seq(|keys|, i requires 0 <= i < |keys| =>
      var g := Group(txns, Monthly, cal, keys[i]);
      MonthRow(keys[i], Total(g), |Where(g, OfKind("Income"))|));
    assert Months(r) == keys;
    r
  }

  /** The monthly totals add up to the sum of all amounts. */
  lemma MonthlyCoversTotal(txns: seq<Txn>, cal: Calendar)
    ensures SumOverKeys(txns, Monthly, cal, Months(MonthlySummary(txns, cal))) == Total(txns)
  {
    var keys := Months(MonthlySummary(txns, cal));
    forall t | t in txns ensures PeriodKey(Monthly, cal, t.date) in keys {
      var j :| 0 <= j < |txns| && txns[j] == t;
      assert PeriodKeys(txns, Monthly, cal)[j] == PeriodKey(Monthly, cal, t.date);
    }
    assert NoDuplicates(keys);
    GroupsCoverTotal(txns, Monthly, cal, keys);
  }

  /** A month's "Income Count" never exceeds its number of rows. */
  lemma IncomeCountBound(txns: seq<Txn>, cal: Calendar, i: int)
    requires 0 <= i < |MonthlySummary(txns, cal)|
    ensures MonthlySummary(txns, cal)[i].incomeCount <= |Group(txns, Monthly, cal, MonthlySummary(txns, cal)[i].month)|
  {
    var g := Group(txns, Monthly, cal, MonthlySummary(txns, cal)[i].month);
    SubsequenceLength(Where(g, OfKind("Income")), g);
  }

  lemma {:induction false} SubsequenceLength<T>(a: seq<T>, b: seq<T>)
    requires IsSubsequence(a, b)
    ensures |a| <= |b|
    decreases |b|
  {
    if a != [] {
      if a[0] == b[0] && IsSubsequence(a[1..], b[1..]) {
        SubsequenceLength(a[1..], b[1..]);
      } else {
        SubsequenceLength(a, b[1..]);
      }
    }
  }

  function DateKey(t: Txn): real {
    t.date as real
  }

  /** Line 34: the rows, newest first; the same rows, each as often as before. */
  function NewestFirst(txns: seq<Txn>): (r: seq<Txn>)
    ensures forall i, j :: 0 <= i < j < |r| ==> r[i].date >= r[j].date
    ensures multiset(r) == multiset(txns)
  {
    var r := SortDesc(txns, DateKey);
    assert forall i, j :: 0 <= i < j < |r| ==> DateKey(r[i]) >= DateKey(r[j]);
    r
  }

  /**
   * What the call shows: nothing for an empty frame, the KeyError of a missing column (after
   * the metrics when only "date" is missing), or the metrics, the monthly summary and history.
   */
  datatype Shown =
    | NoTransactions
    | MissingColumn(shownBefore: Option<Totals>)
    | Shown(totals: Totals, monthly: seq<MonthRow>, history: seq<Txn>)

  /** Lines 14-34 on the lower-cased columns. */
  function ShowLowered(columns: seq<string>, txns: seq<Txn>, cal: Calendar): (r: Shown)
    ensures r != NoTransactions
    ensures r.MissingColumn? <==> !("type" in columns && "amount" in columns && "date" in columns)
    ensures r.MissingColumn? ==> (r.shownBefore.Some? <==> "type" in columns && "amount" in columns)
    ensures r.MissingColumn? && r.shownBefore.Some? ==> r.shownBefore.value == Metrics(txns)
    ensures r.Shown? ==> r == Shown(Metrics(txns), MonthlySummary(txns, cal), NewestFirst(txns))
    ensures r.Shown? ==> r.totals.balance == r.totals.income + r.totals.expense
  {
    if !("type" in columns && "amount" in columns) then MissingColumn(None)
    else if "date" !in columns then MissingColumn(Some(Metrics(txns)))
    else Shown(Metrics(txns), MonthlySummary(txns, cal), NewestFirst(txns))
  }

  /** `show_dashboard`: the caller's column names are lower-cased unless the frame is empty. */
  method ShowDashboard(table: TxnTable, cal: Calendar) returns (r: Shown)
    modifies table
    ensures table.txns == old(table.txns)
    ensures EmptyTable(old(table.columns), old(table.txns)) ==>
      r == NoTransactions && table.columns == old(table.columns)
    ensures !EmptyTable(old(table.columns), old(table.txns)) ==>
      table.columns == LowerColumns(old(table.columns)) && r == ShowLowered(table.columns, table.txns, cal)
  {
    if EmptyTable(table.columns, table.txns) {
      return NoTransactions;
    }
    table.columns := LowerColumns(table.columns);
    r := ShowLowered(table.columns, table.txns, cal);
  }
}
