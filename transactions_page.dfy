/**
 * The rules of pages/2_transactions.py: the sign given to an entered amount, the guard in
 * front of the insert, the record it inserts, and the account and type filters of the
 * transaction list.
 */
module TransactionsPage {
  import opened Wrappers
  import opened Ledger
  import opened Charts

  /** The "Transaction Type" radio. */
  datatype EntryType = IncomeEntry | ExpenseEntry

  /** The "Category" choices, stored as the transaction's `type`. */
  const CategoryOptions: seq<string> :=
    ["Salary", "Food", "Transport", "Housing", "Entertainment", "Shopping", "Health", "Education", "Other"]

  /** Lines 35-37: a positive amount entered as an Expense is negated. */
  function SignedAmount(entry: EntryType, amount: real): (r: real)
    ensures entry == ExpenseEntry ==> r <= 0.0 && Abs(r) == Abs(amount)
    ensures entry == IncomeEntry ==> r == amount
    ensures amount <= 0.0 ==> r == amount
  {
    if entry == ExpenseEntry && amount > 0.0 then -amount else amount
  }

  /** Signing twice is signing once. */
  lemma SignIdempotent(entry: EntryType, amount: real)
    ensures SignedAmount(entry, SignedAmount(entry, amount)) == SignedAmount(entry, amount)
  {
  }

  /** The form's values as submitted. `account` is None when the user has no account. */
  datatype Form = Form(
    submitted: bool,
    account: Option<string>,
    date: int,
    amount: real,
    entry: EntryType,
    category: string,
    description: string)

  /** The arguments of `insert_transaction`; `date` is the `%Y-%m-%d` text. */
  datatype InsertRequest = InsertRequest(
    userId: string,
    accountId: string,
    date: string,
    amount: real,
    kind: string,
    description: string)

  /**
   * Line 47: submitted, an account chosen, a non-zero amount and a non-empty description, the
   * amount taken after the sign is applied: an expense that passes is negative.
   */
  predicate SubmitGuard(form: Form)
    ensures SubmitGuard(form) ==> form.account.Some? && form.account.value != "" && form.description != ""
    ensures SubmitGuard(form) && form.entry == ExpenseEntry ==> SignedAmount(form.entry, form.amount) < 0.0
    ensures SubmitGuard(form) && form.entry == IncomeEntry ==> form.amount != 0.0
  {
    form.submitted && form.account.Some? && form.account.value != "" &&
    SignedAmount(form.entry, form.amount) != 0.0 && form.description != ""
  }

  /**
   * Lines 35-55: the insert the form leads to, if any. `isoDate` is the `strftime("%Y-%m-%d")`
   * formatting, left abstract.
   */
  function NewTransaction(userId: string, form: Form, isoDate: int -> string): (r: Option<InsertRequest>)
    ensures r.Some? <==> SubmitGuard(form)
    ensures r.Some? ==>
      r.value.accountId == form.account.value && r.value.kind == form.category &&
      r.value.amount == SignedAmount(form.entry, form.amount) && r.value.date == isoDate(form.date) &&
      r.value.description == form.description && r.value.userId == userId
  {
    if SubmitGuard(form) then
      Some(InsertRequest(userId, form.account.value, isoDate(form.date),
                         SignedAmount(form.entry, form.amount), form.category, form.description))
    else None
  }

  /** No insert carries a positive amount for an expense, nor a zero amount. */
  lemma InsertedAmountSign(userId: string, form: Form, isoDate: int -> string)
    requires NewTransaction(userId, form, isoDate).Some?
    ensures var a := NewTransaction(userId, form, isoDate).value.amount;
      a != 0.0 && (form.entry == ExpenseEntry ==> a < 0.0) && (form.entry == IncomeEntry ==> a == form.amount)
  {
  }

  /** The "Filter by Type" choices. */
  datatype TypeChoice = AllTypes | IncomeType | ExpenseType

  /** A row shown under the type choice: any row, a positive amount, or a negative amount. */
  predicate OfType(choice: TypeChoice, t: Txn) {
    match choice
    case AllTypes => true
    case IncomeType => t.amount > 0.0
    case ExpenseType => t.amount < 0.0
  }

  /** Lines 98-102: the rows of the chosen type, in order, each as often as before. */
  function TypeFilter(txns: seq<Txn>, choice: TypeChoice): (r: seq<Txn>)
    ensures choice == AllTypes ==> r == txns
    ensures forall t :: t in r <==> t in txns && OfType(choice, t)
    ensures forall t :: multiset(r)[t] == if OfType(choice, t) then multiset(txns)[t] else 0
    ensures IsSubsequence(r, txns)
  {
    match choice
    case AllTypes =>
      SubsequenceOfItself(txns);
      txns
    case IncomeType =>
      WhereKeepsCopies(txns, Credit);
      Where(txns, Credit)
    case ExpenseType =>
      WhereKeepsCopies(txns, Debit);
      Where(txns, Debit)
  }

  /** A zero amount is listed only under "All Types". */
  lemma ZeroOnlyUnderAllTypes(txns: seq<Txn>, choice: TypeChoice, t: Txn)
    requires t in txns && t.amount == 0.0
    ensures t in TypeFilter(txns, choice) <==> choice == AllTypes
  {
  }

  /** `accounts_df[accounts_df["name"] == name]["id"].values[0]`: None is the IndexError. */
  function FirstIdNamed(accounts: seq<Account>, name: string): (r: Option<string>)
    ensures r.None? <==> forall i :: 0 <= i < |accounts| ==> accounts[i].name != name
    ensures r.Some? ==>
      exists i :: 0 <= i < |accounts| && accounts[i].name == name && accounts[i].id == r.value &&
        (forall j :: 0 <= j < i ==> accounts[j].name != name)
  {
    if accounts == [] then None
    else if accounts[0].name == name then Some(accounts[0].id)
    else
      var r := FirstIdNamed(accounts[1..], name);
      assert forall i :: 1 <= i < |accounts| ==> accounts[i] == accounts[1..][i - 1];
      if r.Some? then
        var i :| 0 <= i < |accounts[1..]| && accounts[1..][i].name == name && accounts[1..][i].id == r.value &&
          (forall j :: 0 <= j < i ==> accounts[1..][j].name != name);
        assert accounts[i + 1].name == name;
        r
      else r
  }

  /** The account filter applies: a name other than "All Accounts" with accounts to look it up in. */
  predicate AccountChosen(accounts: seq<Account>, choice: string) {
    choice != AllAccounts && accounts != []
  }

  /** A row shown under the account choice: any row, or one of the first account with that name. */
  predicate OfChosenAccount(accounts: seq<Account>, choice: string, t: Txn) {
    !AccountChosen(accounts, choice) ||
    (FirstIdNamed(accounts, choice).Some? && t.accountId == FirstIdNamed(accounts, choice).value)
  }

  /**
   * Lines 94-96: "All Accounts" or no accounts keep every row; otherwise the rows of the first
   * account with the chosen name, each as often as before. None stands for the IndexError of
   * a name no account has.
   */
  function AccountChoiceFilter(txns: seq<Txn>, accounts: seq<Account>, choice: string): (r: Option<seq<Txn>>)
    ensures !AccountChosen(accounts, choice) ==> r == Some(txns)
    ensures r.None? <==> AccountChosen(accounts, choice) && FirstIdNamed(accounts, choice).None?
    ensures r.Some? ==> forall t :: t in r.value <==> t in txns && OfChosenAccount(accounts, choice, t)
    ensures r.Some? ==>
      forall t :: multiset(r.value)[t] == if OfChosenAccount(accounts, choice, t) then multiset(txns)[t] else 0
    ensures r.Some? ==> IsSubsequence(r.value, txns)
  {
    if !AccountChosen(accounts, choice) then
      SubsequenceOfItself(txns);
      Some(txns)
    else match FirstIdNamed(accounts, choice)
      case None => None
      case Some(id) =>
        WhereKeepsCopies(txns, OfAccount(id));
        Some(Where(txns, OfAccount(id)))
  }

  /**
   * Lines 87-128, the listing: no rows fetched lists nothing and looks nothing up; otherwise
   * the account filter, then the type filter. None is the error the page shows instead of
   * rows: the lookup of an unknown account name raises, and without accounts the
   * `account_name` column is never added, so selecting it at line 111 raises. A row is listed, as often as it was fetched, exactly
   * when it has the chosen account and type.
   */
  function RecentTransactions(txns: seq<Txn>, accounts: seq<Account>, account: string, kind: TypeChoice): (r: Option<seq<Txn>>)
    ensures txns == [] ==> r == Some([])
    ensures r.None? <==>
      txns != [] &&
      ((AccountChosen(accounts, account) && FirstIdNamed(accounts, account).None?) || accounts == [])
    ensures r.Some? ==> forall t :: t in r.value <==>
      t in txns && OfChosenAccount(accounts, account, t) && OfType(kind, t)
    ensures r.Some? ==> forall t ::
      multiset(r.value)[t] == if OfChosenAccount(accounts, account, t) && OfType(kind, t) then multiset(txns)[t] else 0
    ensures r.Some? ==> IsSubsequence(r.value, txns)
  {
    if txns == [] then Some([])
    else if accounts == [] then None
    else match AccountChoiceFilter(txns, accounts, account)
    case None => None
    case Some(byAccount) =>
      var r := TypeFilter(byAccount, kind);
      SubsequenceTransitive(r, byAccount, txns);
      Some(r)
  }
}
