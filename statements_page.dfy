/**
 * The two import loops of pages/3_statements.py: every row of an extracted frame is read,
 * handed to `insert_transaction` for the selected account, and counted when the insert
 * returns; a row that raises is reported and the loop goes on.
 */
module StatementsPage {
  import opened Wrappers
  import opened Frames
  import opened Ledger
  import opened Charts

  /**
   * Lines 19-30: no account stops the page; otherwise the account ids offered for selection,
   * each once, in order of first appearance (the keys of `account_options`).
   */
  function AccountOptions(accounts: seq<Account>): (r: Option<seq<string>>)
    ensures r.None? <==> accounts == []
    ensures r.Some? ==> NoDuplicates(r.value)
    ensures r.Some? ==> forall id :: id in r.value <==> exists a :: a in accounts && a.id == id
  {
    if accounts == [] then None
    else
      var ids := seq(|accounts|, i requires 0 <= i < |accounts| => accounts[i].id);
      assert forall id :: id in ids <==> exists a :: a in accounts && a.id == id by {
        forall id | id in ids ensures exists a :: a in accounts && a.id == id {
          var i :| 0 <= i < |ids| && ids[i] == id;
          assert accounts[i] in accounts;
        }
        forall id | exists a :: a in accounts && a.id == id ensures id in ids {
          var a :| a in accounts && a.id == id;
          var i :| 0 <= i < |accounts| && accounts[i] == a;
          assert ids[i] == id;
        }
      }
      Some(Distinct(ids))
  }

  /** The arguments of one `insert_transaction` call, as the `transactions` table stores them. */
  datatype StoredRow = StoredRow(
    userId: string,
    accountId: string,
    date: Value,
    amount: Value,
    kind: Value,
    description: Value)

  /**
   * How a call of `insert_transaction` ends: it returns, its insert raises, or the insert goes
   * through and the balance update after it raises.
   */
  datatype InsertOutcome = Done | FailedBeforeStore | FailedAfterStore

  /** The `transactions` table behind `insert_transaction`. */
  class TransactionStore {
    var rows: seq<StoredRow>

    constructor()
      ensures rows == []
    {
      rows := [];
    }

    /** `insert_transaction`: whether it succeeds is up to the database, not the caller. */
    method Insert(row: StoredRow) returns (outcome: InsertOutcome)
      modifies this
      ensures outcome == FailedBeforeStore ==> rows == old(rows)
      ensures outcome != FailedBeforeStore ==> rows == old(rows) + [row]
    {
      outcome :| true;
      if outcome != FailedBeforeStore {
        rows := rows + [row];
      }
    }
  }

  /**
   * Lines 56-59: `row.get("Date", row.get("date"))` and so on, the amount through `float()`
   * (`toFloat`, None where it raises). None means the row raised before any insert.
   */
  function PdfRow(f: Frame, row: Record, userId: string, accountId: string, toFloat: Value -> Option<real>): (r: Option<StoredRow>)
    ensures r.None? <==> toFloat(Get(f, row, "Amount", Get(f, row, "amount", Null))).None?
    ensures r.Some? ==> r.value.userId == userId && r.value.accountId == accountId
    ensures r.Some? ==> r.value.amount == Num(toFloat(Get(f, row, "Amount", Get(f, row, "amount", Null))).value)
    ensures r.Some? && "Date" in f.columns ==> r.value.date == Cell(row, "Date")
    ensures r.Some? && "Date" !in f.columns ==> r.value.date == Get(f, row, "date", Null)
    ensures r.Some? && "Type" in f.columns ==> r.value.kind == Cell(row, "Type")
    ensures r.Some? && "Type" !in f.columns ==> r.value.kind == Get(f, row, "type", Null)
    ensures r.Some? && "Description" in f.columns ==> r.value.description == Cell(row, "Description")
    ensures r.Some? && "Description" !in f.columns ==> r.value.description == Get(f, row, "description", Null)
  {
    var date := Get(f, row, "Date", Get(f, row, "date", Null));
    match toFloat(Get(f, row, "Amount", Get(f, row, "amount", Null)))
    case None => None
    case Some(amount) =>
      var kind := Get(f, row, "Type", Get(f, row, "type", Null));
      var description := Get(f, row, "Description", Get(f, row, "description", Null));
      Some(StoredRow(userId, accountId, date, Num(amount), kind, description))
  }

  /** Lines 98-104: `row["Date"]` and so on; None is the KeyError of a missing column. */
  function TextRow(f: Frame, row: Record, userId: string, accountId: string): (r: Option<StoredRow>)
    ensures r.None? <==> !("Date" in f.columns && "Amount" in f.columns && "Type" in f.columns && "Description" in f.columns)
    ensures r.Some? ==> r == Some(StoredRow(userId, accountId, Cell(row, "Date"), Cell(row, "Amount"),
                                            Cell(row, "Type"), Cell(row, "Description")))
  {
    match (Index(f, row, "Date"), Index(f, row, "Amount"), Index(f, row, "Type"), Index(f, row, "Description"))
    case (Some(date), Some(amount), Some(kind), Some(description)) =>
      Some(StoredRow(userId, accountId, date, amount, kind, description))
    case _ => None
  }

  /** The insert each row of the frame leads to, row by row, on the PDF path. */
  function PdfRequests(f: Frame, userId: string, accountId: string, toFloat: Value -> Option<real>): (r: seq<Option<StoredRow>>)
    ensures |r| == |f.rows|
    ensures forall i :: 0 <= i < |r| ==> r[i] == PdfRow(f, f.rows[i], userId, accountId, toFloat)
  {
    seq(|f.rows|, i requires 0 <= i < |f.rows| => PdfRow(f, f.rows[i], userId, accountId, toFloat))
  }

  /** The insert each row of the frame leads to, row by row, on the pasted-text path. */
  function TextRequests(f: Frame, userId: string, accountId: string): (r: seq<Option<StoredRow>>)
    ensures |r| == |f.rows|
    ensures forall i :: 0 <= i < |r| ==> r[i] == TextRow(f, f.rows[i], userId, accountId)
  {
    seq(|f.rows|, i requires 0 <= i < |f.rows| => TextRow(f, f.rows[i], userId, accountId))
  }

  /** What became of one row: it raised before the insert, or the insert ended as given. */
  datatype RowResult = Unreadable | Attempted(outcome: InsertOutcome)

  /** `imported_count`: the rows whose insert returned. */
  function ImportedCount(results: seq<RowResult>): nat {
    if results == [] then 0
    else ImportedCount(results[..|results| - 1]) + (if results[|results| - 1] == Attempted(Done) then 1 else 0)
  }

  /** The rows the table gained: those whose insert went through, whether or not it then raised. */
  function StoredBy(requests: seq<Option<StoredRow>>, results: seq<RowResult>): seq<StoredRow>
    requires |requests| == |results|
    requires forall i :: 0 <= i < |results| ==> (results[i] == Unreadable <==> requests[i].None?)
  {
    if results == [] then []
    else
      var n := |results| - 1;
      var before := StoredBy(requests[..n], results[..n]);
      if results[n].Attempted? && results[n].outcome != FailedBeforeStore then before + [requests[n].value]
      else before
  }

  /** The results fit the requests: a row is unreadable exactly when its request is None. */
  predicate Fits(requests: seq<Option<StoredRow>>, results: seq<RowResult>) {
    |requests| == |results| &&
    forall i :: 0 <= i < |results| ==> (results[i] == Unreadable <==> requests[i].None?)
  }

  /**
   * The body of both import loops: every row is tried in turn whatever happened to the rows
   * before it; `count` is the number of inserts that returned.
   */
  method ImportRows(store: TransactionStore, requests: seq<Option<StoredRow>>) returns (count: nat, results: seq<RowResult>)
    modifies store
    ensures Fits(requests, results)
    ensures count == ImportedCount(results)
    ensures store.rows == old(store.rows) + StoredBy(requests, results)
  {
    count := 0;
    results := [];
    var k := 0;
    while k < |requests|
      invariant 0 <= k <= |requests|
      invariant Fits(requests[..k], results)
      invariant count == ImportedCount(results)
      invariant store.rows == old(store.rows) + StoredBy(requests[..k], results)
    {
      var result: RowResult;
      if requests[k].None? {
        result := Unreadable;
      } else {
        var outcome := store.Insert(requests[k].value);
        if outcome == Done {
          count := count + 1;
        }
        result := Attempted(outcome);
      }
      assert requests[..k + 1][..k] == requests[..k];
      assert (results + [result])[..k] == results;
      results := results + [result];
      k := k + 1;
    }
    assert requests[..k] == requests;
  }

  /** An import: nothing was extracted, or the rows were tried with these results. */
  datatype ImportResult = NothingExtracted | Imported(count: nat, results: seq<RowResult>)

  /** Lines 38-75: the PDF path, from the frame `parse_pdf` returned. */
  method ImportPdfStatement(
    store: TransactionStore, userId: string, accountId: string, f: Frame, toFloat: Value -> Option<real>)
    returns (r: ImportResult)
    modifies store
    ensures IsEmpty(f) <==> r == NothingExtracted
    ensures r == NothingExtracted ==> store.rows == old(store.rows)
    ensures r.Imported? ==>
      Fits(PdfRequests(f, userId, accountId, toFloat), r.results) &&
      r.count == ImportedCount(r.results) &&
      store.rows == old(store.rows) + StoredBy(PdfRequests(f, userId, accountId, toFloat), r.results)
  {
    if IsEmpty(f) {
      return NothingExtracted;
    }
    var count, results := ImportRows(store, PdfRequests(f, userId, accountId, toFloat));
    return Imported(count, results);
  }

  /** Lines 87-112: the pasted-text path, from the frame `extract_transactions_with_llm` returned. */
  method ImportTextStatement(store: TransactionStore, userId: string, accountId: string, f: Frame)
    returns (r: ImportResult)
    modifies store
    ensures IsEmpty(f) <==> r == NothingExtracted
    ensures r == NothingExtracted ==> store.rows == old(store.rows)
    ensures r.Imported? ==>
      Fits(TextRequests(f, userId, accountId), r.results) &&
      r.count == ImportedCount(r.results) &&
      store.rows == old(store.rows) + StoredBy(TextRequests(f, userId, accountId), r.results)
  {
    if IsEmpty(f) {
      return NothingExtracted;
    }
    var count, results := ImportRows(store, TextRequests(f, userId, accountId));
    return Imported(count, results);
  }

  /** `imported_count` never exceeds the number of rows, nor the number of rows stored. */
  lemma {:induction false} CountBounds(requests: seq<Option<StoredRow>>, results: seq<RowResult>)
    requires Fits(requests, results)
    ensures ImportedCount(results) <= |StoredBy(requests, results)| <= |results|
  {
    if results != [] {
      var n := |results| - 1;
      CountBounds(requests[..n], results[..n]);
    }
  }

  /**
   * `imported_count` equals the number of rows stored exactly when no insert stored its row and
   * then raised in the balance update; each such row is stored but not counted.
   */
  lemma {:induction false} CountMatchesStored(requests: seq<Option<StoredRow>>, results: seq<RowResult>)
    requires Fits(requests, results)
    ensures ImportedCount(results) == |StoredBy(requests, results)| <==>
      forall i :: 0 <= i < |results| ==> results[i] != Attempted(FailedAfterStore)
  {
    if results != [] {
      var n := |results| - 1;
      CountMatchesStored(requests[..n], results[..n]);
      CountBounds(requests[..n], results[..n]);
      assert forall i :: 0 <= i < n ==> results[..n][i] == results[i];
    }
  }

  /** Every row one import stores goes to the signed-in user and the single selected account. */
  lemma {:induction false} StoredToAccount(requests: seq<Option<StoredRow>>, results: seq<RowResult>, userId: string, accountId: string)
    requires Fits(requests, results)
    requires forall i :: 0 <= i < |requests| && requests[i].Some? ==>
      requests[i].value.userId == userId && requests[i].value.accountId == accountId
    ensures forall row :: row in StoredBy(requests, results) ==> row.userId == userId && row.accountId == accountId
  {
    if results != [] {
      var n := |results| - 1;
      StoredToAccount(requests[..n], results[..n], userId, accountId);
    }
  }

  /** The PDF path stores its rows under the signed-in user and the selected account. */
  lemma PdfRowsToAccount(f: Frame, userId: string, accountId: string, toFloat: Value -> Option<real>, results: seq<RowResult>)
    requires Fits(PdfRequests(f, userId, accountId, toFloat), results)
    ensures forall row :: row in StoredBy(PdfRequests(f, userId, accountId, toFloat), results) ==>
      row.accountId == accountId && row.userId == userId
  {
    StoredToAccount(PdfRequests(f, userId, accountId, toFloat), results, userId, accountId);
  }

  /** A lower-case key is read only when the capitalised column is absent from the frame. */
  lemma CapitalisedKeyWins(f: Frame, row: Record, key: string, lower: string)
    requires key in f.columns
    ensures Get(f, row, key, Get(f, row, lower, Null)) == Cell(row, key)
  {
  }

  /**
   * On the pasted-text path a frame without one of the capitalised columns imports nothing:
   * every row raises, nothing is counted and nothing is stored.
   */
  lemma {:induction false} TextPathNeedsCapitalisedKeys(f: Frame, userId: string, accountId: string, results: seq<RowResult>)
    requires !("Date" in f.columns && "Amount" in f.columns && "Type" in f.columns && "Description" in f.columns)
    requires Fits(TextRequests(f, userId, accountId), results)
    ensures ImportedCount(results) == 0
    ensures StoredBy(TextRequests(f, userId, accountId), results) == []
  {
    var requests := TextRequests(f, userId, accountId);
    NothingReadable(requests, results);
  }

  lemma {:induction false} NothingReadable(requests: seq<Option<StoredRow>>, results: seq<RowResult>)
    requires Fits(requests, results)
    requires forall i :: 0 <= i < |requests| ==> requests[i].None?
    ensures ImportedCount(results) == 0
    ensures StoredBy(requests, results) == []
  {
    if results != [] {
      var n := |results| - 1;
      NothingReadable(requests[..n], results[..n]);
    }
  }
}
