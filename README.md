# financial-planner core, modelled in Dafny

This project models the computational core of financial-planner, a Streamlit personal-finance
app. It covers five parts of the app:

- **Categorisation** (`utils.py`): a description is lower-cased and matched against a fixed
  keyword table. The first keyword found decides the keyword label and the category.
- **Extraction** (`extractor.py`): statement text is wrapped in a prompt for a language model.
  The reply is stripped and freed of a Markdown code fence, parsed as JSON and turned into a
  table of transactions. Any failure gives an empty table.
- **Aggregation** (`components/charts.py`, `pages/4_dashboard.py`, `dashboard.py`):
  - income and expenses per period;
  - spending per category, largest first;
  - running balances per account;
  - the dashboard's date and account filters and its summary metrics;
  - `show_dashboard`'s label-based totals, monthly summary and newest-first history.
- **Manual entry** (`pages/2_transactions.py`): the sign given to an entered amount, the guard
  in front of the insert, and the filters of the transaction list.
- **Statement import** (`pages/3_statements.py`): the two loops that insert every extracted row
  for the selected account. A failing row is reported and skipped. Only inserts that return
  are counted.

Modules, one per source file, plus shared ones:

- `Wrappers` holds `Option`.
- `Text` holds Python's `str.lower`, `strip`, `title` and substring test.
- `Frames` holds JSON values and the frame pandas builds from a list of objects.
- `Ledger` holds the transaction record, filters, sums, the order-preserving "unique" and the
  descending sort.
- `Utils`, `Extractor`, `Charts`, `DashboardPage`, `TransactionsPage`, `StatementsPage` and
  `Dashboard` each follow their source file.

The modelling choices:

- Amounts are `real`s.
- Dates are day numbers. The calendar (year, month, day, week number, New Year's day) is a
  parameter.
- Period keys are integers ordered like the `%Y-%m`, `%Y-%U` and `%Y-%m-%d` strings.
- The language model, the PDF text extraction, `json.loads` and `float()` are function
  parameters.
- The transactions table is a class whose `Insert` may fail before or after storing the row.
- `show_dashboard` mutates its caller's frame, so that frame is a class. Its column names are
  replaced in place.
- `account_balance_history` is a method whose loops build the balance points, proved equal to
  their specification.

## Model

| member | source | states |
|---|---|---|
| Text.Strip | extractor.py:37 | the result has no leading or trailing Python whitespace and is no longer than the input |
| Text.StripIsMiddle | extractor.py:37 | the stripped text is a contiguous slice of the input with only whitespace removed around it |
| Text.StripIdempotent | extractor.py:44 | stripping a second time changes nothing |
| Text.StripAround | extractor.py:37 | whitespace added on either side of a trimmed text is removed again by strip |
| Text.ContainsAt | utils.py:14 | `k in d` holds exactly when `k` occurs at some position of `d` |
| Text.ContainsInfix | utils.py:14 | a text occurring inside a longer text is found by `in` |
| Text.LowerAppend | utils.py:2 | lower-casing distributes over concatenation |
| Text.LowerIdempotent | utils.py:2 | lower-casing a lower-cased text changes nothing |
| Text.LowerTitle | utils.py:15 | `title()` changes only letter case: lower-casing its result gives the lower-cased input |
| Text.TitleOfLowerWord | utils.py:15 | a lower-case ASCII word title-cases to its first letter upper-cased and the rest unchanged |
| Text.LowerOfLowerFixed | utils.py:2 | a text of characters that lower-casing leaves alone is its own lower-case form |
| Text.LowerCapitalised | dashboard.py:12 | a capitalised ASCII word lower-cases to its first letter made small and the rest kept |
| Utils.ScanKeywords | utils.py:13-15 | the inner loop returns the first keyword of the category, from the given one on, that occurs; None means none occurs |
| Utils.ScanTable | utils.py:12-15 | the nested scan returns the first (category, keyword) position in table order whose keyword occurs; None means no keyword occurs |
| Utils.CategorizeTransaction | utils.py:1-17 | the category is one of the table's five or "Other"; it is "Other" exactly when no keyword occurs in the lower-cased description, and then the label is "Other" too |
| Utils.FirstMatchWins | utils.py:12-15 | when keyword (i, j) occurs and no earlier keyword in table order does, the result is that keyword title-cased with its category |
| Utils.CaseInsensitive | utils.py:2 | categorising a description and its lower-cased form give the same result |
| Utils.KeywordsAreLowerAscii | utils.py:4-10 | every keyword of the table is lower-case ASCII, so it can match the lower-cased description |
| Utils.ReturnedKeywordOccurs | utils.py:14-15 | a label other than "Other" is a title-cased keyword whose lower-cased form occurs in the lower-cased description |
| Utils.SalaryBeforeRestaurant | utils.py:12-15 | "salary at restaurant" is ("Salary", "Income"): categories are tried in table order |
| Utils.GroceryStore | utils.py:6 | "grocery store" is ("Grocery", "Food") |
| Utils.ParentIsHousing | utils.py:8 | "parent" is ("Rent", "Housing"): a keyword matches inside a longer word |
| Utils.CharMissing | utils.py:14 | a keyword with a character the description lacks is not found by `in` |
| Utils.CategoryAbsent | utils.py:13-14 | no keyword of a category is found when each has a character the description lacks |
| Frames.AsRecords | extractor.py:50 | a list of JSON values gives records exactly when every item is an object; the records are the objects' fields, in order |
| Frames.KeysOf | extractor.py:50 | the frame's columns are exactly the keys found in at least one record |
| Frames.FromJson | extractor.py:50 | a frame is built exactly from a list of objects; one row per object, in order, the columns being the union of the objects' keys |
| Frames.Get | pages/3_statements.py:56-59 | `row.get(key, default)`: the record's cell when the frame has the column, NaN when the record lacks it, the default when the frame lacks the column |
| Frames.Index | pages/3_statements.py:98-104 | `row[key]`: a KeyError exactly when the frame lacks the column, otherwise the record's cell |
| Extractor.Prompt | extractor.py:26-33 | the prompt is the fixed header, the statement text unchanged, and the fixed trailer |
| Extractor.PromptInjective | extractor.py:26-33 | different statement texts give different prompts |
| Extractor.LetterRun | extractor.py:42 | the greedy `[a-zA-Z]*` match: a run of ASCII letters that stops at the end or at a non-letter |
| Extractor.RemoveOpeningFence | extractor.py:42 | a leading fence, the letters after it and at most one newline are removed; text without a leading fence is unchanged |
| Extractor.RemoveClosingFence | extractor.py:43 | a trailing fence and at most one newline before it are removed; a fence followed only by a final newline is removed with that newline kept; anything else is unchanged |
| Extractor.CleanResponse | extractor.py:37-44 | the cleaned reply has no surrounding whitespace; without a leading fence it is just the stripped reply |
| Extractor.OpeningFenceRemoved | extractor.py:42 | a fence, a letter tag and a newline in front of a text are removed and nothing of the text is |
| Extractor.ClosingFenceRemoved | extractor.py:43 | a newline and fence after a text are removed and nothing of the text is |
| Extractor.FenceRoundTrip | extractor.py:37-44 | a trimmed JSON body wrapped in a tagged fence and surrounding whitespace cleans back to the body, and an unwrapped body cleans to itself |
| Extractor.BareFenceIsEmpty | extractor.py:41-48 | a reply of only a fence, or an empty fenced block, cleans to the empty text |
| Extractor.ExtractTransactionsWithLlm | extractor.py:35-53 | the empty frame when the model call raises, when the cleaned reply is empty, when `json.loads` raises and when `pd.DataFrame` rejects the parsed value; otherwise the frame built from the parsed cleaned reply |
| Extractor.EmptyReplySkipsParser | extractor.py:46-48 | an empty cleaned reply gives the empty frame whatever the JSON parser would do |
| Extractor.RowsFollowObjects | extractor.py:49-50 | a reply parsing to a list of objects gives one row per object, in order, each row that object's fields |
| Extractor.ObjectRows | extractor.py:50 | a list of objects always makes a frame, one row per object in order |
| Extractor.FencedReplySameAsPlain | extractor.py:37-50 | a fenced reply and the same JSON sent bare give the same frame |
| Extractor.ParsePdf | extractor.py:55-57 | `parse_pdf` fails exactly when text extraction fails; otherwise it is the extraction of that text |
| Ledger.Where | components/charts.py:27-28 | a boolean-mask filter keeps exactly the rows meeting the criterion, in their original order |
| Ledger.WhereKeepsCopies | components/charts.py:27-28 | each row meeting the criterion is kept as many times as it occurs, every other row not at all |
| Ledger.SubsequenceTransitive | pages/4_dashboard.py:62-75 | filters applied one after another still only remove rows |
| Ledger.TotalAppend | components/charts.py:27-28 | the sum of two concatenated row lists is the sum of their sums |
| Ledger.CreditTotalNonNegative | pages/4_dashboard.py:78 | the rows with amount > 0 sum to at least zero |
| Ledger.DebitTotalNonPositive | pages/4_dashboard.py:79 | the rows with amount < 0 sum to at most zero |
| Ledger.Income | pages/4_dashboard.py:78 | total income is never negative |
| Ledger.Expenses | pages/4_dashboard.py:79 | total expenses are never negative and are minus the sum of the negative amounts |
| Ledger.CreditsPlusDebits | pages/4_dashboard.py:78-80 | the positive sum plus the negative sum is the sum of all amounts, zero amounts adding nothing |
| Ledger.NetIsTotal | pages/4_dashboard.py:80 | income minus expenses is the sum of all amounts |
| Ledger.WhereWhere | pages/4_dashboard.py:62-75 | a filter of a filter is a subsequence of the original rows |
| Ledger.Distinct | components/charts.py:109 | `unique()`: each value once, exactly the values of the input, ordered by where each first appears |
| Ledger.FirstIndex | components/charts.py:109 | the position of a value's first occurrence: the value is there and nowhere before |
| Ledger.FirstIndexOfPrefix | components/charts.py:109 | a value occurring in a prefix has the same first occurrence in the prefix and in the whole list |
| Ledger.InsertKey | components/charts.py:25 | adding a key to strictly increasing keys keeps them strictly increasing and adds exactly that key |
| Ledger.SortedKeys | components/charts.py:25 | `groupby` keys: strictly increasing, exactly the keys present |
| Ledger.InsertDesc | components/charts.py:69 | inserting into a non-increasing list keeps it non-increasing and adds exactly that element |
| Ledger.SortDesc | components/charts.py:69 | `sort_values(ascending=False)`: non-increasing and a permutation of the input |
| Ledger.SortKeepsDistinct | components/charts.py:68-69 | sorting a duplicate-free list keeps it duplicate-free |
| Charts.ParsePeriod | components/charts.py:17-22 | "monthly", "weekly" and "daily" are the only recognised periods |
| Charts.PeriodKeys | components/charts.py:17-22 | one period key per row, the key of that row's date |
| Charts.Summarize | components/charts.py:25-30 | one summary row per period present, ascending; each row carries the income and the expenses of that period's rows |
| Charts.PeriodNet | components/charts.py:27-28 | a period's income and expenses are non-negative and their difference is the period's net sum |
| Charts.MonthlyKeyIff | components/charts.py:18 | two dates share a monthly key exactly when they share year and month |
| Charts.Melt | components/charts.py:33-39 | melting gives two chart rows per summary row |
| Charts.MeltRowsOfSummary | components/charts.py:33-39 | every melted row is the Income or the Expenses row of a summary row, and both rows of every summary row are there |
| Charts.MeltRowsUnique | components/charts.py:33-39 | no (period, series) pair occurs twice in the melted data |
| Charts.IncomeVsExpense | components/charts.py:6-55 | no chart for no rows; an unknown period raises on a non-empty frame; otherwise the chart data is the melted per-period summary of the rows |
| Charts.GroupsCoverTotal | components/charts.py:25 | grouping by period loses no row: the period sums add up to the sum of all amounts |
| Charts.SummaryCoversTotal | components/charts.py:25-30 | the summary's periods together account for every amount |
| Charts.CategoryTotals | components/charts.py:68 | one entry per category, its amount the absolute sum of that category's negative amounts |
| Charts.ExpenseBreakdown | components/charts.py:63-69 | the per-category totals, largest first, a permutation of the unsorted totals |
| Charts.SpendingByCategory | components/charts.py:57-69 | no chart exactly when no amount is negative; otherwise the sorted per-category spending |
| Charts.NegativeTotal | components/charts.py:68 | a non-empty list of negative amounts sums to less than zero |
| Charts.BreakdownDistinct | components/charts.py:68 | each category appears once in the breakdown |
| Charts.BreakdownKinds | components/charts.py:63-68 | the breakdown's categories are exactly the types of the negative rows |
| Charts.BreakdownAmounts | components/charts.py:63-68 | each breakdown amount is positive and is minus the sum of that category's negative amounts |
| Charts.Label | components/charts.py:94 | `to_dict` keeps the name of the last account with the id; an unknown id is shown as itself |
| Charts.LastWithId | components/charts.py:94 | the index of the last account carrying the id, so no later account has it; -1 exactly when no account has it |
| Charts.AccountHistory | components/charts.py:113-120 | one balance point per date, carrying the balance on that date |
| Charts.NothingBefore | components/charts.py:113 | with no row on or before a date, the balance there is zero |
| Charts.BalanceStep | components/charts.py:113 | the cumulative sum: the balance on one date is the balance on the previous date plus that date's amounts |
| Charts.BalanceAtEnd | components/charts.py:113 | the balance on the last date is the sum of all the account's amounts |
| Charts.AccountPointDates | components/charts.py:110-120 | an account's points have strictly increasing dates, its display name, and exactly the dates on which it has rows |
| Charts.AccountPointBalances | components/charts.py:113-120 | each point's balance is the account's sum up to that date; the last point's is the account's total |
| Charts.RunningStep | components/charts.py:113 | the running balance at the m-th date is the one at the previous date plus the m-th date's amounts |
| Charts.RunningBalances | components/charts.py:110-120 | the inner loop's running sum builds exactly the specified balance points |
| Charts.AccountBalanceHistory | components/charts.py:88-125 | the loop over the unique account ids builds exactly the specified history, None when there are no transactions or no accounts |
| DashboardPage.EarliestDate | pages/4_dashboard.py:53 | `date.min()` is a date of some row and no row is earlier |
| DashboardPage.DateRange | pages/4_dashboard.py:37-54 | the custom range is the dates entered; every other option ends today, the windows start 30, 90 and 180 days back, year to date on New Year's day and "All time" on the earliest row |
| DashboardPage.DateRangeFacts | pages/4_dashboard.py:37-54 | every option but the custom range gives a range that is not empty when the start is not after today; "All time" starts no later than any row |
| DashboardPage.DateFilter | pages/4_dashboard.py:62-63 | keeps exactly the rows dated from start to end, both included, each as often as it occurs, in order |
| DashboardPage.AllTimeKeepsThePast | pages/4_dashboard.py:52-63 | under "All time" the filter keeps exactly the rows dated up to today |
| DashboardPage.SelectedIds | pages/4_dashboard.py:74 | the ids of exactly the accounts whose name was selected |
| DashboardPage.AccountFilter | pages/4_dashboard.py:66-75 | with "All Accounts", nothing selected or no accounts, all rows stay; otherwise exactly the rows of the selected accounts, each as often as it occurs, in order |
| DashboardPage.SummaryMetrics | pages/4_dashboard.py:78-88 | income is the sum of the positive amounts and expenses minus the sum of the negative ones, both non-negative; net flow is the sum of all amounts; the delta exists exactly when income > 0 and is net flow as a percentage of income |
| DashboardPage.Dashboard | pages/4_dashboard.py:17-130 | nothing exactly when no transaction was fetched; otherwise the date range of the option, the rows kept by the date then the account filter, their metrics, and, when rows remain, the melted monthly summary and the expense breakdown of those rows |
| DashboardPage.DashboardFilters | pages/4_dashboard.py:62-75 | the filtered rows are a subsequence of the fetched ones, inside the date range, and of selected accounts when the account filter applies |
| TransactionsPage.SignedAmount | pages/2_transactions.py:35-37 | an expense is never positive and keeps its magnitude; income and non-positive amounts are unchanged |
| TransactionsPage.SignIdempotent | pages/2_transactions.py:35-37 | signing a signed amount changes nothing |
| TransactionsPage.SubmitGuard | pages/2_transactions.py:35-47 | a form that passes has an account, a description and a non-zero amount, which is negative for an expense |
| TransactionsPage.NewTransaction | pages/2_transactions.py:47-56 | an insert happens exactly when the guard holds; it carries the chosen account, the date text, the signed amount, the category as type and the description |
| TransactionsPage.InsertedAmountSign | pages/2_transactions.py:35-47 | an inserted amount is non-zero, negative for an expense and as entered for income |
| TransactionsPage.TypeFilter | pages/2_transactions.py:98-102 | "All Types" keeps every row; "Income" keeps exactly the positive rows and "Expense" the negative ones, each as often as it occurs, in order |
| TransactionsPage.ZeroOnlyUnderAllTypes | pages/2_transactions.py:98-102 | a zero amount is listed exactly under "All Types" |
| TransactionsPage.FirstIdNamed | pages/2_transactions.py:95 | the id of the first account with the name; None (an IndexError) exactly when no account has it |
| TransactionsPage.AccountChoiceFilter | pages/2_transactions.py:94-96 | "All Accounts" or no accounts keep all rows; a known name keeps exactly the rows of the first account with it, each as often as it occurs, in order; an unknown name raises |
| TransactionsPage.RecentTransactions | pages/2_transactions.py:87-128 | no fetched rows list nothing and never fail; with rows fetched, it fails exactly when an unknown account name is chosen or there are no accounts (the `account_name` column selected at line 111 is missing); otherwise exactly the fetched rows of the chosen account and type, each as often as it occurs, in order |
| StatementsPage.AccountOptions | pages/3_statements.py:19-30 | the page stops exactly when there is no account; otherwise each account id is offered once |
| StatementsPage.TransactionStore.Insert | database.py:12-24 | a failing insert stores nothing; an insert that returns, or whose balance update then fails, appends exactly the row |
| StatementsPage.PdfRow | pages/3_statements.py:56-59 | each field comes from its capitalised column when the frame has it, else from the lower-case one; the row raises exactly when `float()` of the amount raises |
| StatementsPage.TextRow | pages/3_statements.py:98-104 | each field comes from its capitalised column; the row raises exactly when one of the four columns is missing |
| StatementsPage.PdfRequests | pages/3_statements.py:53-59 | one insert request per extracted row, in order |
| StatementsPage.TextRequests | pages/3_statements.py:96-104 | one insert request per extracted row, in order |
| StatementsPage.ImportRows | pages/3_statements.py:51-71 | every row is tried in turn; unreadable rows are skipped; the count is the number of inserts that returned; the table gains exactly the rows whose insert went through |
| StatementsPage.ImportPdfStatement | pages/3_statements.py:38-75 | an empty extraction imports nothing and leaves the table unchanged; otherwise every extracted row is tried |
| StatementsPage.ImportTextStatement | pages/3_statements.py:87-112 | an empty extraction imports nothing and leaves the table unchanged; otherwise every extracted row is tried |
| StatementsPage.CountBounds | pages/3_statements.py:69 | the count never exceeds the number of rows stored, which never exceeds the number of rows |
| StatementsPage.CountMatchesStored | database.py:23-24 | the count equals the rows stored exactly when no balance update failed after its insert |
| StatementsPage.StoredToAccount | pages/3_statements.py:61-68 | every stored row goes to the signed-in user and the selected account |
| StatementsPage.PdfRowsToAccount | pages/3_statements.py:61-68 | the PDF path stores rows only under the signed-in user and the selected account |
| StatementsPage.CapitalisedKeyWins | pages/3_statements.py:56-59 | the lower-case column is read only when the capitalised column is missing |
| StatementsPage.TextPathNeedsCapitalisedKeys | pages/3_statements.py:98-106 | a frame missing one of the capitalised columns imports nothing on the text path |
| Dashboard.LowerColumns | dashboard.py:12 | each column name is replaced by its lower-case form, in place and in order |
| Dashboard.LowerColumnsIdempotent | dashboard.py:12 | lower-casing the columns again changes nothing |
| Dashboard.ColumnFound | dashboard.py:12 | a column present before lower-casing is present in lower-cased form after it |
| Dashboard.CapitalisedColumnsFound | dashboard.py:12-24 | "Type", "Amount" and "Date" are found as "type", "amount" and "date" after lower-casing |
| Dashboard.LabelCaseSensitive | dashboard.py:14-15 | a label no row carries exactly, such as "Income" against rows typed "income", totals zero |
| Dashboard.LabelsSplitTotal | dashboard.py:14-16 | when every row carries one of two labels, their totals add up to the sum of all amounts |
| Dashboard.Metrics | dashboard.py:14-16 | income and expense are the sums of the rows typed exactly "Income" and "Expense"; the balance is their sum |
| Dashboard.BalanceIsTotal | dashboard.py:16 | on rows typed only "Income" or "Expense" the balance is the sum of all amounts |
| Dashboard.MonthlySummary | dashboard.py:24-28 | one row per month present, ascending, with that month's sum and its number of rows typed exactly "Income" |
| Dashboard.MonthlyCoversTotal | dashboard.py:25-28 | the monthly totals add up to the sum of all amounts |
| Dashboard.IncomeCountBound | dashboard.py:27 | a month's Income Count never exceeds its number of rows |
| Dashboard.NewestFirst | dashboard.py:34 | the history is ordered by date, non-increasing, and holds exactly the rows of the frame |
| Dashboard.ShowLowered | dashboard.py:14-34 | a missing "type" or "amount" column raises before anything is shown; a missing "date" column raises after the label metrics of the rows are shown; otherwise it shows the label metrics, the monthly summary and the rows newest first, the balance being income plus expense |
| Dashboard.ShowDashboard | dashboard.py:4-34 | an empty frame shows nothing and is left as it was; otherwise the caller's column names are lower-cased and what is shown is computed from them |

## Left out

- Python's full Unicode case mapping is not modelled. `Text.Lower` maps ASCII letters, U+0130 and U+212A (the only characters whose lower case contains an ASCII letter, the only ones that can create a keyword match). Every other character is kept, and `title()` is exact on ASCII only.
- Floating point is not modelled: amounts are exact reals, so rounding, NaN amounts and the `$,.2f` formatting are left out.
- StatementsPage.PdfRow: a JSON `null` amount and the NaN pandas fills in for an object without the key are the same `Null` value. `float(None)` raises and skips the row, while `float(nan)` succeeds and an insert is attempted, but one `toFloat` parameter answers both alike.
- Dates are day numbers, so `pd.to_datetime` parsing and NaT are left out. This includes the in-place conversion of the caller's date column at dashboard.py:24.
- `strftime`, the `%U` week number and `datetime.date(year, 1, 1)` come from a calendar parameter. Period keys assume four-digit years, so their order matches the strings' order.
- Frames.FromJson: only a JSON list of objects becomes a frame. `pd.DataFrame` also accepts other shapes (a dict of lists, a list of scalars), which the model treats as failures, giving the empty frame.
- Ledger.SortDesc: equal keys come out in the reverse of their input order. `sort_values` uses an unstable sort by default and promises no order for ties, so no tie order is claimed.
- PDF text extraction (extractor.py:18-23), the Gemini call, `json.loads` and `float()` are function parameters. The debug `print`s are left out.
- `extract_transactions_with_llm` catches every exception, including a failing model call, and returns an empty frame.
- Streamlit rendering, reruns and session state are left out: Altair specifications, `display_chart`, `st.metric`, the sidebar and the `'filter_account' in st.session_state` checks. Also left out is the text-import button nested inside another button (pages/3_statements.py:83-93), which a rerun makes unreachable. The import itself is modelled as if that button were pressed.
- The unused `all_dates` range (components/charts.py:101-104) is left out, and so are the values of the `account_name` column added for display (pages/4_dashboard.py:26-28, pages/2_transactions.py:104-107). Only its absence is modelled: without accounts, the transaction list fails at pages/2_transactions.py:111.
- DashboardPage.Dashboard: when the filters leave no row, the monthly `groupby(...).apply` on the empty frame yields no `Income` column and `pd.melt` raises, so no chart is computed. This follows pandas' behaviour on empty groups and is modelled as the absence of charts; the page's own error message is not modelled.
- Account ids and the selected account are strings. Python truthiness of `account_id` is modelled as non-empty.
- `StatementsPage.StoredRow` models the arguments of `insert_transaction`. What Supabase does with them (type coercion, constraints, the SQL of `update_account_balance`) is not part of this model. Whether an insert succeeds is left to the database.
- database.py's fetch functions, auth.py, app.py, components/auth_widgets.py, components/sidebar.py and pages/1_accounts.py are not part of this model. They hold network calls, authentication and widget plumbing.
