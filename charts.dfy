/**
 * The data preparation of components/charts.py: the per-period income/expense summary
 * and its melted form, spending by category, and the per-account running balances.
 * The Altair specifications built from these tables are not modelled.
 */
module Charts {
  import opened Wrappers
  import opened Ledger

  /** What a chart builder returns: None, a chart over the given data, or an exception. */
  datatype Outcome<T> = NoChart | Raised | Chart(data: T)

  /** One row of `summary`: a period and its income and expenses. */
  datatype PeriodSummary = PeriodSummary(period: int, income: real, expenses: real)

  /** One row of the melted `chart_data`: period, `Type` and `Amount`. */
  datatype ChartRow = ChartRow(period: int, series: string, amount: real)

  const IncomeSeries: string := "Income"
  const ExpensesSeries: string := "Expenses"

  /** The `period` argument: the three known names; any other leaves no `period` column. */
  function ParsePeriod(period: string): (r: Option<Period>)
    ensures r == Some(Monthly) <==> period == "monthly"
    ensures r == Some(Weekly) <==> period == "weekly"
    ensures r == Some(Daily) <==> period == "daily"
  {
    if period == "monthly" then Some(Monthly)
    else if period == "weekly" then Some(Weekly)
    else if period == "daily" then Some(Daily)
    else None
  }

  function PeriodKeys(txns: seq<Txn>, p: Period, cal: Calendar): (r: seq<int>)
    ensures |r| == |txns| && forall i :: 0 <= i < |txns| ==> r[i] == PeriodKey(p, cal, txns[i].date)
  {
    seq(|txns|, i requires 0 <= i < |txns| => PeriodKey(p, cal, txns[i].date))
  }

  /** The rows of one period. */
  function Group(txns: seq<Txn>, p: Period, cal: Calendar, key: int): seq<Txn> {
    Where(txns, InPeriod(p, cal, key))
  }

  /** `groupby('period')` then Income/Expenses per group: one row per period, ascending. */
  function Summarize(txns: seq<Txn>, p: Period, cal: Calendar): (r: seq<PeriodSummary>)
    ensures forall i, j :: 0 <= i < j < |r| ==> r[i].period < r[j].period
    ensures forall k :: k in SummaryPeriods(r) <==> k in PeriodKeys(txns, p, cal)
    ensures forall i :: 0 <= i < |r| ==>
      r[i].income == Income(Group(txns, p, cal, r[i].period)) &&
      r[i].expenses == Expenses(Group(txns, p, cal, r[i].period))
  {
    var keys := SortedKeys(PeriodKeys(txns, p, cal));
    var r := seq(|keys|, i requires 0 <= i < |keys| =>
      PeriodSummary(keys[i], Income(Group(txns, p, cal, keys[i])), Expenses(Group(txns, p, cal, keys[i]))));
    assert SummaryPeriods(r) == keys;
    r
  }

  /** The summary's periods, in order. */
  function SummaryPeriods(summary: seq<PeriodSummary>): (r: seq<int>)
    ensures |r| == |summary| && forall i :: 0 <= i < |r| ==> r[i] == summary[i].period
  {
    seq(|summary|, i requires 0 <= i < |summary| => summary[i].period)
  }

  /** Within every period, income less expenses is the period's net sum, both non-negative. */
  lemma PeriodNet(txns: seq<Txn>, p: Period, cal: Calendar, i: int)
    requires 0 <= i < |Summarize(txns, p, cal)|
    ensures var s := Summarize(txns, p, cal)[i];
      s.income >= 0.0 && s.expenses >= 0.0 &&
      s.income - s.expenses == Total(Group(txns, p, cal, s.period))
  {
    var s := Summarize(txns, p, cal)[i];
    NetIsTotal(Group(txns, p, cal, s.period));
  }

  /** Two dates fall in the same month period exactly when year and month agree. */
  lemma MonthlyKeyIff(cal: Calendar, d1: int, d2: int)
    requires 1 <= cal.monthOf(d1) <= 12 && 1 <= cal.monthOf(d2) <= 12
    ensures PeriodKey(Monthly, cal, d1) == PeriodKey(Monthly, cal, d2) <==>
            cal.yearOf(d1) == cal.yearOf(d2) && cal.monthOf(d1) == cal.monthOf(d2)
  {
  }

  /** `pd.melt(summary, value_vars=['Income', 'Expenses'])`: the Income rows, then the Expenses rows. */
  function Melt(summary: seq<PeriodSummary>): (r: seq<ChartRow>)
    ensures |r| == 2 * |summary|
  {
    var n := |summary|;
    seq(2 * n, j requires 0 <= j < 2 * n =>
      if j < n then ChartRow(summary[j].period, IncomeSeries, summary[j].income)
      else ChartRow(summary[j - n].period, ExpensesSeries, summary[j - n].expenses))
  }

  function IncomeRow(s: PeriodSummary): ChartRow {
    ChartRow(s.period, IncomeSeries, s.income)
  }

  function ExpensesRow(s: PeriodSummary): ChartRow {
    ChartRow(s.period, ExpensesSeries, s.expenses)
  }

  /** `row` is the Income or the Expenses row of one of the summary's rows. */
  predicate RowOfSummary(summary: seq<PeriodSummary>, row: ChartRow) {
    exists i :: 0 <= i < |summary| && (row == IncomeRow(summary[i]) || row == ExpensesRow(summary[i]))
  }

  /** Every melted row is the Income or the Expenses row of a summary row, and both are there. */
  lemma MeltRowsOfSummary(summary: seq<PeriodSummary>)
    ensures forall j :: 0 <= j < |Melt(summary)| ==> RowOfSummary(summary, Melt(summary)[j])
    ensures forall i :: 0 <= i < |summary| ==>
      IncomeRow(summary[i]) in Melt(summary) && ExpensesRow(summary[i]) in Melt(summary)
  {
    var n := |summary|;
    forall j | 0 <= j < |Melt(summary)| ensures RowOfSummary(summary, Melt(summary)[j]) {
      var i := if j < n then j else j - n;
      assert Melt(summary)[j] == IncomeRow(summary[i]) || Melt(summary)[j] == ExpensesRow(summary[i]);
    }
    forall i | 0 <= i < n
      ensures IncomeRow(summary[i]) in Melt(summary) && ExpensesRow(summary[i]) in Melt(summary)
    {
      assert Melt(summary)[i] == IncomeRow(summary[i]);
      assert Melt(summary)[n + i] == ExpensesRow(summary[i]);
    }
  }

  /** Over distinct periods, no two melted rows share both period and series. */
  lemma MeltRowsUnique(summary: seq<PeriodSummary>)
    requires forall i, j :: 0 <= i < j < |summary| ==> summary[i].period < summary[j].period
    ensures var r := Melt(summary);
      forall j, j' :: 0 <= j < j' < |r| ==> r[j].period != r[j'].period || r[j].series != r[j'].series
  {
    var r := Melt(summary);
    var n := |summary|;
    forall j, j' | 0 <= j < j' < |r|
      ensures r[j].period != r[j'].period || r[j].series != r[j'].series
    {
      if j < n && n <= j' {
        assert r[j].series == IncomeSeries && r[j'].series == ExpensesSeries;
      } else if j' < n {
        assert r[j].period == summary[j].period && r[j'].period == summary[j'].period;
      } else {
        assert r[j].period == summary[j - n].period && r[j'].period == summary[j' - n].period;
      }
    }
  }

  /** `income_vs_expense_chart(transactions_df, period)` up to the Altair specification. */
  function IncomeVsExpense(txns: seq<Txn>, period: string, cal: Calendar): (r: Outcome<seq<ChartRow>>)
    ensures r == NoChart <==> txns == []
    ensures r == Raised <==> txns != [] && ParsePeriod(period).None?
    ensures r.Chart? ==> r.data == Melt(Summarize(txns, ParsePeriod(period).value, cal))
  {
    if txns == [] then NoChart
    else match ParsePeriod(period)
      case None => Raised
      case Some(p) => Chart(Melt(Summarize(txns, p, cal)))
  }

  /** The per-period totals summed over a list of distinct period keys. */
  function SumOverKeys(txns: seq<Txn>, p: Period, cal: Calendar, keys: seq<int>): real {
    if keys == [] then 0.0
    else Total(Group(txns, p, cal, keys[0])) + SumOverKeys(txns, p, cal, keys[1..])
  }

  lemma {:induction false} SumOverKeysCons(t: Txn, rest: seq<Txn>, p: Period, cal: Calendar, keys: seq<int>)
    requires NoDuplicates(keys)
    ensures SumOverKeys([t] + rest, p, cal, keys) ==
            SumOverKeys(rest, p, cal, keys) + (if PeriodKey(p, cal, t.date) in keys then t.amount else 0.0)
  {
    if keys != [] {
      assert ([t] + rest)[1..] == rest;
      assert NoDuplicates(keys[1..]) by {
        forall i, j | 0 <= i < j < |keys[1..]| ensures keys[1..][i] != keys[1..][j] {
          assert keys[1..][i] == keys[i + 1] && keys[1..][j] == keys[j + 1];
        }
      }
      SumOverKeysCons(t, rest, p, cal, keys[1..]);
      if PeriodKey(p, cal, t.date) == keys[0] {
        assert keys[0] !in keys[1..];
      }
    }
  }

  /** Grouping by period loses no row: the period totals add up to the overall total. */
  lemma {:induction false} GroupsCoverTotal(txns: seq<Txn>, p: Period, cal: Calendar, keys: seq<int>)
    requires NoDuplicates(keys)
    requires forall t :: t in txns ==> PeriodKey(p, cal, t.date) in keys
    ensures SumOverKeys(txns, p, cal, keys) == Total(txns)
  {
    if txns == [] {
      ZeroOverKeys(p, cal, keys);
    } else {
      assert txns == [txns[0]] + txns[1..];
      SumOverKeysCons(txns[0], txns[1..], p, cal, keys);
      GroupsCoverTotal(txns[1..], p, cal, keys);
    }
  }

  lemma {:induction false} ZeroOverKeys(p: Period, cal: Calendar, keys: seq<int>)
    ensures SumOverKeys([], p, cal, keys) == 0.0
  {
    if keys != [] {
      ZeroOverKeys(p, cal, keys[1..]);
    }
  }

  /** The period totals of the summary add up to the net sum of all transactions. */
  lemma SummaryCoversTotal(txns: seq<Txn>, p: Period, cal: Calendar)
    ensures SumOverKeys(txns, p, cal, SummaryPeriods(Summarize(txns, p, cal))) == Total(txns)
  {
    var s := Summarize(txns, p, cal);
    var keys := SummaryPeriods(s);
    forall t | t in txns ensures PeriodKey(p, cal, t.date) in keys {
      var j :| 0 <= j < |txns| && txns[j] == t;
      assert PeriodKeys(txns, p, cal)[j] == PeriodKey(p, cal, t.date);
    }
    assert NoDuplicates(keys);
    GroupsCoverTotal(txns, p, cal, keys);
  }

  /** One row of `category_spending`: a `type` and the absolute sum of its negative amounts. */
  datatype CategorySpend = CategorySpend(kind: string, amount: real)

  function SpendAmount(c: CategorySpend): real {
    c.amount
  }

  /** `groupby('type')['amount'].sum().abs()` over the negative rows, one entry per type. */
  function CategoryTotals(debits: seq<Txn>, kinds: seq<string>): (r: seq<CategorySpend>)
    ensures |r| == |kinds|
    ensures forall i :: 0 <= i < |r| ==>
      r[i] == CategorySpend(kinds[i], Abs(Total(Where(debits, OfKind(kinds[i])))))
  {
    seq(|kinds|, i requires 0 <= i < |kinds| =>
      CategorySpend(kinds[i], Abs(Total(Where(debits, OfKind(kinds[i]))))))
  }

  /** The negative rows. */
  function Debits(txns: seq<Txn>): seq<Txn> {
    Where(txns, Debit)
  }

  /**
   * The types of the negative rows, each once. `groupby("type")` lists them in sorted key
   * order; here they are in order of first appearance, which only the sort afterwards sees.
   */
  function DebitKinds(txns: seq<Txn>): seq<string> {
    Distinct(Kinds(Debits(txns)))
  }

  /** The per-type spending before sorting. */
  function Spending(txns: seq<Txn>): seq<CategorySpend> {
    CategoryTotals(Debits(txns), DebitKinds(txns))
  }

  /** The expense breakdown: per-type spending of the negative rows, largest first. */
  function ExpenseBreakdown(txns: seq<Txn>): (r: seq<CategorySpend>)
    ensures SortedDesc(r, SpendAmount)
    ensures multiset(r) == multiset(Spending(txns))
  {
    SortDesc(Spending(txns), SpendAmount)
  }

  /** `spending_by_category_chart(transactions_df)` up to the Altair specification. */
  function SpendingByCategory(txns: seq<Txn>): (r: Option<seq<CategorySpend>>)
    ensures r.None? <==> forall t :: t in txns ==> t.amount >= 0.0
    ensures r.Some? ==> r.value == ExpenseBreakdown(txns)
  {
    if txns == [] then None
    else if Debits(txns) == [] then
      assert forall t :: t in txns ==> t.amount >= 0.0 by {
        forall t | t in txns ensures t.amount >= 0.0 {
          assert t !in Debits(txns);
        }
      }
      None
    else
      assert Debits(txns)[0] in txns;
      Some(ExpenseBreakdown(txns))
  }

  lemma {:induction false} NegativeTotal(xs: seq<Txn>)
    requires xs != []
    requires forall t :: t in xs ==> t.amount < 0.0
    ensures Total(xs) < 0.0
  {
    if |xs| > 1 {
      assert forall t :: t in xs[1..] ==> t in xs;
      NegativeTotal(xs[1..]);
    }
  }

  /** Each breakdown entry is the spending of one of the debit types. */
  lemma EntryOrigin(txns: seq<Txn>, i: int) returns (a: int)
    requires 0 <= i < |ExpenseBreakdown(txns)|
    ensures 0 <= a < |DebitKinds(txns)| && ExpenseBreakdown(txns)[i] == Spending(txns)[a]
  {
    var r := ExpenseBreakdown(txns);
    assert r[i] in multiset(r);
    assert r[i] in Spending(txns);
    a :| 0 <= a < |Spending(txns)| && r[i] == Spending(txns)[a];
  }

  /** No type appears twice in the breakdown. */
  lemma BreakdownDistinct(txns: seq<Txn>)
    ensures var r := ExpenseBreakdown(txns);
      forall i, j :: 0 <= i < j < |r| ==> r[i].kind != r[j].kind
  {
    var r := ExpenseBreakdown(txns);
    var totals := Spending(txns);
    var kinds := DebitKinds(txns);
    assert NoDuplicates(totals) by {
      forall i, j | 0 <= i < j < |totals| ensures totals[i] != totals[j] {
        assert totals[i].kind == kinds[i] && totals[j].kind == kinds[j];
      }
    }
    SortKeepsDistinct(totals, SpendAmount);
    forall i, j | 0 <= i < j < |r| ensures r[i].kind != r[j].kind {
      var a := EntryOrigin(txns, i);
      var b := EntryOrigin(txns, j);
      if a != b {
        assert kinds[a] != kinds[b];
      }
    }
  }

  /** Some row of `txns` has a negative amount and type `k`. */
  predicate HasDebitOfKind(txns: seq<Txn>, k: string) {
    exists t :: t in txns && t.amount < 0.0 && t.kind == k
  }

  /** Some entry of the breakdown is for type `k`. */
  predicate HasEntry(r: seq<CategorySpend>, k: string) {
    exists i :: 0 <= i < |r| && r[i].kind == k
  }

  /** The breakdown's types are exactly the types of the negative rows. */
  lemma BreakdownKinds(txns: seq<Txn>)
    ensures forall i :: 0 <= i < |ExpenseBreakdown(txns)| ==>
      HasDebitOfKind(txns, ExpenseBreakdown(txns)[i].kind)
    ensures forall t :: t in txns && t.amount < 0.0 ==> HasEntry(ExpenseBreakdown(txns), t.kind)
  {
    var r := ExpenseBreakdown(txns);
    forall i | 0 <= i < |r| ensures HasDebitOfKind(txns, r[i].kind) {
      EntryHasDebit(txns, i);
    }
    forall t | t in txns && t.amount < 0.0 ensures HasEntry(r, t.kind) {
      DebitHasEntry(txns, t);
    }
  }

  /** Entry `i` of the breakdown is for the type of some negative row. */
  lemma EntryHasDebit(txns: seq<Txn>, i: int)
    requires 0 <= i < |ExpenseBreakdown(txns)|
    ensures HasDebitOfKind(txns, ExpenseBreakdown(txns)[i].kind)
  {
    var debits := Debits(txns);
    var kinds := DebitKinds(txns);
    var a := EntryOrigin(txns, i);
    assert kinds[a] in Kinds(debits);
    var b :| 0 <= b < |debits| && Kinds(debits)[b] == kinds[a];
    assert debits[b] in debits;
  }

  /** A negative row's type has an entry in the breakdown. */
  lemma DebitHasEntry(txns: seq<Txn>, t: Txn)
    requires t in txns && t.amount < 0.0
    ensures HasEntry(ExpenseBreakdown(txns), t.kind)
  {
    var r := ExpenseBreakdown(txns);
    var debits := Debits(txns);
    var kinds := DebitKinds(txns);
    var totals := Spending(txns);
    assert t in debits;
    var b :| 0 <= b < |debits| && debits[b] == t;
    assert Kinds(debits)[b] == t.kind;
    assert t.kind in kinds;
    var a :| 0 <= a < |kinds| && kinds[a] == t.kind;
    assert totals[a] in multiset(totals);
    assert totals[a] in multiset(r);
    var i :| 0 <= i < |r| && r[i] == totals[a];
  }

  /** Each entry is the positive absolute sum of its type's negative amounts. */
  lemma BreakdownAmounts(txns: seq<Txn>)
    ensures var r := ExpenseBreakdown(txns);
      forall i :: 0 <= i < |r| ==>
        r[i].amount > 0.0 && r[i].amount == -Total(Where(Debits(txns), OfKind(r[i].kind)))
  {
    var r := ExpenseBreakdown(txns);
    forall i | 0 <= i < |r|
      ensures r[i].amount > 0.0 && r[i].amount == -Total(Where(Debits(txns), OfKind(r[i].kind)))
    {
      EntryAmount(txns, i);
    }
  }

  /** Entry `i` of the breakdown is the positive absolute sum of its type's negative amounts. */
  lemma EntryAmount(txns: seq<Txn>, i: int)
    requires 0 <= i < |ExpenseBreakdown(txns)|
    ensures var e := ExpenseBreakdown(txns)[i];
      e.amount > 0.0 && e.amount == -Total(Where(Debits(txns), OfKind(e.kind)))
  {
    var debits := Debits(txns);
    var kinds := DebitKinds(txns);
    var a := EntryOrigin(txns, i);
    var group := Where(debits, OfKind(kinds[a]));
    assert kinds[a] in Kinds(debits);
    var b :| 0 <= b < |debits| && Kinds(debits)[b] == kinds[a];
    assert debits[b] in group;
    NegativeTotal(group);
  }

  /** A row of `accounts_df`. */
  datatype Account = Account(id: string, name: string)

  /**
   * `account_map.get(account_id, account_id)`, where `account_map` is built by `to_dict`:
   * the name of the last account carrying the id, or the id itself when none does.
   */
  function Label(accounts: seq<Account>, id: string): (r: string)
    ensures LastWithId(accounts, id) < 0 ==> r == id
    ensures LastWithId(accounts, id) >= 0 ==> r == accounts[LastWithId(accounts, id)].name
  {
    var k := LastWithId(accounts, id);
    if k < 0 then id else accounts[k].name
  }

  /** The position of the last account with the id, or -1 when no account has it. */
  function LastWithId(accounts: seq<Account>, id: string): (k: int)
    ensures -1 <= k < |accounts|
    ensures k < 0 <==> forall i :: 0 <= i < |accounts| ==> accounts[i].id != id
    ensures k >= 0 ==> accounts[k].id == id && forall j :: k < j < |accounts| ==> accounts[j].id != id
  {
    if accounts == [] then -1
    else if accounts[|accounts| - 1].id == id then |accounts| - 1
    else LastWithId(accounts[..|accounts| - 1], id)
  }

  /** One row of `balance_df`: a date, the account name and the balance reached that day. */
  datatype BalancePoint = BalancePoint(date: int, account: string, balance: real)

  /** The balance of `acct` at the end of day `d`: every amount dated on or before `d`. */
  function BalanceAt(acct: seq<Txn>, d: int): real {
    Total(Where(acct, UpTo(d)))
  }

  /** One point per date of `dates`, each carrying the balance at that date. */
  function AccountHistory(acct: seq<Txn>, name: string, dates: seq<int>): (r: seq<BalancePoint>)
    ensures |r| == |dates|
    ensures forall i :: 0 <= i < |dates| ==> r[i] == BalancePoint(dates[i], name, BalanceAt(acct, dates[i]))
  {
    if dates == [] then []
    else
      var last := dates[|dates| - 1];
      AccountHistory(acct, name, dates[..|dates| - 1]) + [BalancePoint(last, name, BalanceAt(acct, last))]
  }

  /** The rows of one account and the distinct dates they fall on, ascending. */
  function AccountRows(txns: seq<Txn>, id: string): seq<Txn> {
    Where(txns, OfAccount(id))
  }

  function AccountDates(txns: seq<Txn>, id: string): seq<int> {
    SortedKeys(Dates(AccountRows(txns, id)))
  }

  function AccountPoints(txns: seq<Txn>, accounts: seq<Account>, id: string): seq<BalancePoint> {
    AccountHistory(AccountRows(txns, id), Label(accounts, id), AccountDates(txns, id))
  }

  /** The points of the accounts in `ids`, account after account. */
  function History(txns: seq<Txn>, accounts: seq<Account>, ids: seq<string>): seq<BalancePoint> {
    if ids == [] then []
    else History(txns, accounts, ids[..|ids| - 1]) + AccountPoints(txns, accounts, ids[|ids| - 1])
  }

  /** What `account_balance_history` charts: None for no transactions or no accounts. */
  function BalanceHistory(txns: seq<Txn>, accounts: seq<Account>): Option<seq<BalancePoint>> {
    if txns == [] || accounts == [] then None
    else Some(History(txns, accounts, Distinct(AccountIds(txns))))
  }

  /** No amount of `acct` is dated on or before `d`: the balance there is zero. */
  lemma {:induction false} NothingBefore(acct: seq<Txn>, d: int)
    requires forall t :: t in acct ==> t.date > d
    ensures BalanceAt(acct, d) == 0.0
  {
    if acct != [] {
      assert forall t :: t in acct[1..] ==> t in acct;
      NothingBefore(acct[1..], d);
    }
  }

  /** With no date of `acct` strictly between `d1` and `d2`, the balance moves by `d2`'s amounts. */
  lemma {:induction false} BalanceStep(acct: seq<Txn>, d1: int, d2: int)
    requires d1 < d2
    requires forall t :: t in acct ==> t.date <= d1 || t.date >= d2
    ensures BalanceAt(acct, d2) == BalanceAt(acct, d1) + Total(Where(acct, OnDate(d2)))
  {
    if acct != [] {
      assert forall t :: t in acct[1..] ==> t in acct;
      BalanceStep(acct[1..], d1, d2);
      TotalWhereCons(acct, UpTo(d1));
      TotalWhereCons(acct, UpTo(d2));
      TotalWhereCons(acct, OnDate(d2));
      var t := acct[0];
      assert t in acct;
      if t.date <= d1 {
        assert Holds(UpTo(d1), t) && Holds(UpTo(d2), t) && !Holds(OnDate(d2), t);
      } else if t.date == d2 {
        assert !Holds(UpTo(d1), t) && Holds(UpTo(d2), t) && Holds(OnDate(d2), t);
      } else {
        assert !Holds(UpTo(d1), t) && !Holds(UpTo(d2), t) && !Holds(OnDate(d2), t);
      }
    }
  }

  /** Every amount of `acct` dated on or before `d`: the balance is the account total. */
  lemma {:induction false} BalanceAtEnd(acct: seq<Txn>, d: int)
    requires forall t :: t in acct ==> t.date <= d
    ensures BalanceAt(acct, d) == Total(acct)
  {
    if acct != [] {
      assert forall t :: t in acct[1..] ==> t in acct;
      BalanceAtEnd(acct[1..], d);
    }
  }

  /** Every row of an account has its date among `AccountDates`. */
  lemma DateIndex(txns: seq<Txn>, id: string, t: Txn) returns (i: int)
    requires t in AccountRows(txns, id)
    ensures 0 <= i < |AccountDates(txns, id)| && AccountDates(txns, id)[i] == t.date
  {
    var acct := AccountRows(txns, id);
    var j :| 0 <= j < |acct| && acct[j] == t;
    assert Dates(acct)[j] == t.date;
    assert t.date in AccountDates(txns, id);
    i :| 0 <= i < |AccountDates(txns, id)| && AccountDates(txns, id)[i] == t.date;
  }

  /** Every date of `AccountDates` is the date of a row of the account. */
  lemma RowOfDate(txns: seq<Txn>, id: string, i: int) returns (t: Txn)
    requires 0 <= i < |AccountDates(txns, id)|
    ensures t in txns && t.accountId == id && t.date == AccountDates(txns, id)[i]
  {
    var acct := AccountRows(txns, id);
    var d := AccountDates(txns, id)[i];
    assert d in Dates(acct);
    var j :| 0 <= j < |acct| && Dates(acct)[j] == d;
    t := acct[j];
    assert t in acct;
  }

  /** Some row of account `id` is dated `d`. */
  predicate HasRowOn(txns: seq<Txn>, id: string, d: int) {
    exists t :: t in txns && t.accountId == id && t.date == d
  }

  /** Some point is dated `d`. */
  predicate HasPointOn(pts: seq<BalancePoint>, d: int) {
    exists i :: 0 <= i < |pts| && pts[i].date == d
  }

  /**
   * An account has one point per distinct date of its rows, in ascending date order, each
   * carrying the account's label.
   */
  lemma AccountPointDates(txns: seq<Txn>, accounts: seq<Account>, id: string)
    ensures var pts := AccountPoints(txns, accounts, id);
      (forall i, j :: 0 <= i < j < |pts| ==> pts[i].date < pts[j].date) &&
      (forall i :: 0 <= i < |pts| ==> pts[i].account == Label(accounts, id)) &&
      (forall i :: 0 <= i < |pts| ==> HasRowOn(txns, id, pts[i].date)) &&
      (forall t :: t in txns && t.accountId == id ==> HasPointOn(pts, t.date))
  {
    var pts := AccountPoints(txns, accounts, id);
    var dates := AccountDates(txns, id);
    forall i | 0 <= i < |pts| ensures HasRowOn(txns, id, pts[i].date) {
      var t := RowOfDate(txns, id, i);
    }
    forall t | t in txns && t.accountId == id ensures HasPointOn(pts, t.date) {
      assert t in AccountRows(txns, id);
      var i := DateIndex(txns, id, t);
      assert pts[i].date == t.date;
    }
  }

  /**
   * Each point carries the sum of the account's amounts dated on or before it, and the last
   * point the account's total; an account with rows has at least one point.
   */
  lemma AccountPointBalances(txns: seq<Txn>, accounts: seq<Account>, id: string)
    ensures var pts := AccountPoints(txns, accounts, id);
      (forall i :: 0 <= i < |pts| ==>
         pts[i].balance == Total(Where(Where(txns, OfAccount(id)), UpTo(pts[i].date)))) &&
      (pts != [] <==> exists t :: t in txns && t.accountId == id) &&
      (pts != [] ==> pts[|pts| - 1].balance == Total(Where(txns, OfAccount(id))))
  {
    var pts := AccountPoints(txns, accounts, id);
    var dates := AccountDates(txns, id);
    var acct := AccountRows(txns, id);
    if exists t :: t in txns && t.accountId == id {
      var t :| t in txns && t.accountId == id;
      assert t in acct;
      var i := DateIndex(txns, id, t);
    }
    if pts != [] {
      var last := dates[|dates| - 1];
      forall t | t in acct ensures t.date <= last {
        var i := DateIndex(txns, id, t);
        assert i == |dates| - 1 || dates[i] < last;
      }
      BalanceAtEnd(acct, last);
      var t := RowOfDate(txns, id, |dates| - 1);
    }
  }

  /** The balance at an account's `m`-th date is the one at the previous date plus that day's sum. */
  lemma RunningStep(txns: seq<Txn>, id: string, m: int)
    requires 0 <= m < |AccountDates(txns, id)|
    ensures var dates := AccountDates(txns, id);
      var acct := AccountRows(txns, id);
      BalanceAt(acct, dates[m]) ==
        (if m == 0 then 0.0 else BalanceAt(acct, dates[m - 1])) + Total(Where(acct, OnDate(dates[m])))
  {
    var dates := AccountDates(txns, id);
    var acct := AccountRows(txns, id);
    if m == 0 {
      forall t | t in acct ensures t.date > dates[0] - 1 {
        var i := DateIndex(txns, id, t);
        assert i == 0 || dates[0] < dates[i];
      }
      NothingBefore(acct, dates[0] - 1);
      BalanceStep(acct, dates[0] - 1, dates[0]);
    } else {
      forall t | t in acct ensures t.date <= dates[m - 1] || t.date >= dates[m] {
        var i := DateIndex(txns, id, t);
        if i < m {
          assert i == m - 1 || dates[i] < dates[m - 1];
        } else {
          assert i == m || dates[m] < dates[i];
        }
      }
      BalanceStep(acct, dates[m - 1], dates[m]);
    }
  }

  /**
   * The inner loop of `account_balance_history` for one account: the per-date sums of its
   * rows, accumulated, one point per date.
   */
  method RunningBalances(txns: seq<Txn>, id: string, name: string) returns (pts: seq<BalancePoint>)
    ensures pts == AccountHistory(AccountRows(txns, id), name, AccountDates(txns, id))
  {
    var acct := AccountRows(txns, id);
    var dates := AccountDates(txns, id);
    pts := [];
    var running := 0.0;
    var m := 0;
    while m < |dates|
      invariant 0 <= m <= |dates|
      invariant pts == AccountHistory(acct, name, dates[..m])
      invariant running == if m == 0 then 0.0 else BalanceAt(acct, dates[m - 1])
    {
      var dayTotal := Total(Where(acct, OnDate(dates[m])));
      assert running + dayTotal == BalanceAt(acct, dates[m]) by {
        RunningStep(txns, id, m);
      }
      running := running + dayTotal;
      HistoryExtends(acct, name, dates, m);
      pts := pts + [BalancePoint(dates[m], name, running)];
      m := m + 1;
    }
    assert dates[..m] == dates;
  }

  /** The history up to the `m`-th date is the history before it and one more point. */
  lemma HistoryExtends(acct: seq<Txn>, name: string, dates: seq<int>, m: int)
    requires 0 <= m < |dates|
    ensures AccountHistory(acct, name, dates[..m + 1]) ==
      AccountHistory(acct, name, dates[..m]) + [BalancePoint(dates[m], name, BalanceAt(acct, dates[m]))]
  {
    assert dates[..m + 1][..m] == dates[..m];
  }

  /**
   * `account_balance_history(transactions_df, accounts_df)`: for each account in order of
   * first appearance, its running balances, labelled with the account's name.
   */
  method AccountBalanceHistory(txns: seq<Txn>, accounts: seq<Account>) returns (r: Option<seq<BalancePoint>>)
    ensures r == BalanceHistory(txns, accounts)
  {
    if txns == [] || accounts == [] {
      return None;
    }
    var ids := Distinct(AccountIds(txns));
    var points: seq<BalancePoint> := [];
    var k := 0;
    while k < |ids|
      invariant 0 <= k <= |ids|
      invariant points == History(txns, accounts, ids[..k])
    {
      var accountPoints := RunningBalances(txns, ids[k], Label(accounts, ids[k]));
      AccountsExtend(txns, accounts, ids, k);
      points := points + accountPoints;
      k := k + 1;
    }
    assert ids[..k] == ids;
    return Some(points);
  }

  /** The history of the first `k + 1` accounts is that of the first `k` and the points of one more. */
  lemma AccountsExtend(txns: seq<Txn>, accounts: seq<Account>, ids: seq<string>, k: int)
    requires 0 <= k < |ids|
    ensures History(txns, accounts, ids[..k + 1]) == History(txns, accounts, ids[..k]) + AccountPoints(txns, accounts, ids[k])
  {
    assert ids[..k + 1][..k] == ids[..k];
  }
}
