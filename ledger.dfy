/**
 * The transactions frame the charts and dashboards read, and the pandas operations they
 * share: boolean-mask filters, column sums, `unique()`, `groupby` keys and `sort_values`.
 */
module Ledger {
  /** The option both pages put first in their account selectors. */
  const AllAccounts: string := "All Accounts"

  /** One row of the `transactions` table. `kind` is the `type` column (a category). */
  datatype Txn = Txn(date: int, accountId: string, amount: real, kind: string, description: string)

  /**
   * Calendar projections of a day ordinal, left abstract: `yearOf`, `monthOf` (1-12),
   * `dayOf` (1-31), `weekOf` (the `%U` week number, 0-53) and `newYear`, the ordinal of
   * January 1 of a year.
   */
  datatype Calendar = Calendar(
    yearOf: int -> int,
    monthOf: int -> int,
    dayOf: int -> int,
    weekOf: int -> int,
    newYear: int -> int)

  /** The ranges of the projections, and January 1 of a day's year is on or before it. */
  ghost predicate WellFormed(cal: Calendar) {
    forall d ::
      1 <= cal.monthOf(d) <= 12 && 1 <= cal.dayOf(d) <= 31 && 0 <= cal.weekOf(d) <= 53 &&
      cal.newYear(cal.yearOf(d)) <= d
  }

  /** The three `period` arguments the income/expense chart knows. */
  datatype Period = Monthly | Weekly | Daily

  /**
   * The period label of a date as an integer whose order is that of the strftime text:
   * `%Y-%m` as y*100+m, `%Y-%U` as y*100+w, `%Y-%m-%d` as y*10000+m*100+d.
   */
  function PeriodKey(p: Period, cal: Calendar, d: int): int {
    match p
    case Monthly => cal.yearOf(d) * 100 + cal.monthOf(d)
    case Weekly => cal.yearOf(d) * 100 + cal.weekOf(d)
    case Daily => cal.yearOf(d) * 10000 + cal.monthOf(d) * 100 + cal.dayOf(d)
  }

  /** The boolean masks applied to a transactions frame. */
  datatype Criterion =
    | Credit                                   // amount > 0
    | Debit                                    // amount < 0
    | OfAccount(id: string)                    // account_id == id
    | OfAccounts(ids: set<string>)             // account_id.isin(ids)
    | OfKind(name: string)                     // type == name
    | OnDate(day: int)                         // date == day
    | UpTo(day: int)                           // date <= day
    | Between(lo: int, hi: int)                // lo <= date <= hi
    | InPeriod(p: Period, cal: Calendar, key: int)

  predicate Holds(c: Criterion, t: Txn) {
    match c
    case Credit => t.amount > 0.0
    case Debit => t.amount < 0.0
    case OfAccount(id) => t.accountId == id
    case OfAccounts(ids) => t.accountId in ids
    case OfKind(name) => t.kind == name
    case OnDate(day) => t.date == day
    case UpTo(day) => t.date <= day
    case Between(lo, hi) => lo <= t.date <= hi
    case InPeriod(p, cal, key) => PeriodKey(p, cal, t.date) == key
  }

  /** `a` is `b` with some elements removed, the rest kept in order. */
  predicate IsSubsequence<T(==)>(a: seq<T>, b: seq<T>)
    decreases |b|
  {
    if a == [] then true
    else if b == [] then false
    else (a[0] == b[0] && IsSubsequence(a[1..], b[1..])) || IsSubsequence(a, b[1..])
  }

  lemma {:induction false} SubsequenceTransitive<T>(a: seq<T>, b: seq<T>, c: seq<T>)
    requires IsSubsequence(a, b) && IsSubsequence(b, c)
    ensures IsSubsequence(a, c)
    decreases |c|
  {
    if a != [] {
      if b[0] == c[0] && IsSubsequence(b[1..], c[1..]) {
        if a[0] == b[0] && IsSubsequence(a[1..], b[1..]) {
          SubsequenceTransitive(a[1..], b[1..], c[1..]);
        } else {
          SubsequenceTransitive(a, b[1..], c[1..]);
        }
      } else {
        SubsequenceTransitive(a, b, c[1..]);
      }
    }
  }

  lemma {:induction false} SubsequenceOfItself<T>(s: seq<T>)
    ensures IsSubsequence(s, s)
  {
    if s != [] {
      SubsequenceOfItself(s[1..]);
    }
  }

  /** `df[mask]`: the rows meeting `c`, in their order. */
  function Where(txns: seq<Txn>, c: Criterion): (r: seq<Txn>)
    ensures forall t :: t in r <==> t in txns && Holds(c, t)
    ensures IsSubsequence(r, txns)
  {
    if txns == [] then []
    else
      var rest := Where(txns[1..], c);
      if Holds(c, txns[0]) then
        assert ([txns[0]] + rest)[1..] == rest;
        [txns[0]] + rest
      else rest
  }

  /**
   * A mask keeps every copy of a row it selects: two equal rows are two rows of the frame,
   * and the filter has each selected row as often as `txns` has it and no other row.
   */
  lemma {:induction false} WhereKeepsCopies(txns: seq<Txn>, c: Criterion)
    ensures forall t :: multiset(Where(txns, c))[t] == if Holds(c, t) then multiset(txns)[t] else 0
  {
    if txns != [] {
      WhereKeepsCopies(txns[1..], c);
      assert txns == [txns[0]] + txns[1..];
      if Holds(c, txns[0]) {
        assert Where(txns, c) == [txns[0]] + Where(txns[1..], c);
      }
    }
  }

  /** `df["amount"].sum()`. */
  function Total(txns: seq<Txn>): real {
    if txns == [] then 0.0 else txns[0].amount + Total(txns[1..])
  }

  function Abs(x: real): real {
    if x < 0.0 then -x else x
  }

  lemma {:induction false} TotalAppend(a: seq<Txn>, b: seq<Txn>)
    ensures Total(a + b) == Total(a) + Total(b)
  {
    if a == [] {
      assert a + b == b;
    } else {
      assert (a + b)[1..] == a[1..] + b;
      TotalAppend(a[1..], b);
    }
  }

  /** The sum of a filter, the first row aside. */
  lemma TotalWhereCons(txns: seq<Txn>, c: Criterion)
    requires txns != []
    ensures Total(Where(txns, c)) == (if Holds(c, txns[0]) then txns[0].amount else 0.0) + Total(Where(txns[1..], c))
  {
    var rest := Where(txns[1..], c);
    if Holds(c, txns[0]) {
      assert ([txns[0]] + rest)[1..] == rest;
    }
  }

  lemma {:induction false} CreditTotalNonNegative(txns: seq<Txn>)
    ensures Total(Where(txns, Credit)) >= 0.0
  {
    if txns != [] {
      CreditTotalNonNegative(txns[1..]);
    }
  }

  lemma {:induction false} DebitTotalNonPositive(txns: seq<Txn>)
    ensures Total(Where(txns, Debit)) <= 0.0
  {
    if txns != [] {
      DebitTotalNonPositive(txns[1..]);
    }
  }

  /** `df[df["amount"] > 0]["amount"].sum()`. */
  function Income(txns: seq<Txn>): (r: real)
    ensures r >= 0.0
  {
    CreditTotalNonNegative(txns);
    Total(Where(txns, Credit))
  }

  /** `abs(df[df["amount"] < 0]["amount"].sum())`: the negated sum of the negative amounts. */
  function Expenses(txns: seq<Txn>): (r: real)
    ensures r >= 0.0
    ensures r == -Total(Where(txns, Debit))
  {
    DebitTotalNonPositive(txns);
    Abs(Total(Where(txns, Debit)))
  }

  /** The positive and the negative amounts together are all of the amounts. */
  lemma {:induction false} CreditsPlusDebits(txns: seq<Txn>)
    ensures Total(Where(txns, Credit)) + Total(Where(txns, Debit)) == Total(txns)
  {
    if txns != [] {
      CreditsPlusDebits(txns[1..]);
    }
  }

  /** Income less expenses is the net sum of the amounts. */
  lemma NetIsTotal(txns: seq<Txn>)
    ensures Income(txns) - Expenses(txns) == Total(txns)
  {
    CreditsPlusDebits(txns);
  }

  /** Filtering twice keeps what both masks keep, in order. */
  lemma {:induction false} WhereWhere(txns: seq<Txn>, c1: Criterion, c2: Criterion)
    ensures IsSubsequence(Where(Where(txns, c1), c2), txns)
  {
    SubsequenceTransitive(Where(Where(txns, c1), c2), Where(txns, c1), txns);
  }

  predicate NoDuplicates<T(==)>(xs: seq<T>) {
    forall i, j :: 0 <= i < j < |xs| ==> xs[i] != xs[j]
  }

  /** The position of the first occurrence of `x` in `xs`. */
  function FirstIndex<T(==)>(xs: seq<T>, x: T): (k: nat)
    requires x in xs
    ensures k < |xs| && xs[k] == x
    ensures forall j :: 0 <= j < k ==> xs[j] != x
  {
    if xs[0] == x then 0 else 1 + FirstIndex(xs[1..], x)
  }

  /** A value of a prefix first occurs where it first occurs in the prefix. */
  lemma FirstIndexOfPrefix<T>(xs: seq<T>, n: nat, x: T)
    requires n <= |xs| && x in xs[..n]
    ensures FirstIndex(xs, x) == FirstIndex(xs[..n], x)
  {
    var k := FirstIndex(xs[..n], x);
    assert xs[k] == x;
    forall j | 0 <= j < k ensures xs[j] != x {
      assert xs[..n][j] == xs[j];
    }
  }

  /** The values of `r` come in the order of their first occurrence in `xs`. */
  predicate FirstSeenOrder<T(==)>(xs: seq<T>, r: seq<T>) {
    && (forall k :: 0 <= k < |r| ==> r[k] in xs)
    && forall i, j :: 0 <= i < j < |r| ==> FirstIndex(xs, r[i]) < FirstIndex(xs, r[j])
  }

  /** `Series.unique()`: each value once, in order of first appearance. */
  function Distinct<T(==,!new)>(xs: seq<T>): (r: seq<T>)
    ensures NoDuplicates(r)
    ensures forall x :: x in r <==> x in xs
    ensures FirstSeenOrder(xs, r)
  {
    if xs == [] then []
    else
      var n := |xs| - 1;
      var init := Distinct(xs[..n]);
      assert xs == xs[..n] + [xs[n]];
      DistinctOrderKept(xs, init, n);
      if xs[n] in init then init
      else
        DistinctOrderExtended(xs, init, n);
        init + [xs[n]]
  }

  /** The first occurrences of the values of a prefix keep their order in the whole. */
  lemma DistinctOrderKept<T>(xs: seq<T>, init: seq<T>, n: nat)
    requires n <= |xs| && FirstSeenOrder(xs[..n], init)
    ensures FirstSeenOrder(xs, init)
  {
    forall k | 0 <= k < |init| ensures init[k] in xs {
      assert init[k] in xs[..n];
    }
    forall i, j | 0 <= i < j < |init| ensures FirstIndex(xs, init[i]) < FirstIndex(xs, init[j]) {
      FirstIndexOfPrefix(xs, n, init[i]);
      FirstIndexOfPrefix(xs, n, init[j]);
    }
  }

  /** A value new at position `n` first occurs after every value of the prefix. */
  lemma DistinctOrderExtended<T>(xs: seq<T>, init: seq<T>, n: nat)
    requires n < |xs| && forall x :: x in init ==> x in xs[..n]
    requires xs[n] !in xs[..n]
    requires FirstSeenOrder(xs, init)
    ensures FirstSeenOrder(xs, init + [xs[n]])
  {
    var r := init + [xs[n]];
    assert FirstIndex(xs, xs[n]) == n by {
      forall j | 0 <= j < n ensures xs[j] != xs[n] {
        assert xs[..n][j] == xs[j];
      }
    }
    forall i | 0 <= i < |init| ensures init[i] in xs && FirstIndex(xs, init[i]) < n {
      FirstIndexOfPrefix(xs, n, init[i]);
    }
    forall i, j | 0 <= i < j < |r| ensures FirstIndex(xs, r[i]) < FirstIndex(xs, r[j]) {
      assert r[i] == init[i];
      if j < |init| {
        assert r[j] == init[j];
      }
    }
  }

  predicate StrictlyIncreasing(xs: seq<int>) {
    forall i, j :: 0 <= i < j < |xs| ==> xs[i] < xs[j]
  }

  /** `x` added to the strictly increasing keys `s`, unless it is there already. */
  function InsertKey(x: int, s: seq<int>): (r: seq<int>)
    requires StrictlyIncreasing(s)
    ensures StrictlyIncreasing(r)
    ensures forall y :: y in r <==> y == x || y in s
  {
    if s == [] then [x]
    else if x < s[0] then
      IncreasingCons(x, s);
      [x] + s
    else if x == s[0] then s
    else
      IncreasingTail(s);
      var rest := InsertKey(x, s[1..]);
      IncreasingCons(s[0], rest);
      [s[0]] + rest
  }

  lemma IncreasingTail(s: seq<int>)
    requires s != [] && StrictlyIncreasing(s)
    ensures StrictlyIncreasing(s[1..]) && forall y :: y in s[1..] ==> s[0] < y
  {
    forall i, j | 0 <= i < j < |s[1..]| ensures s[1..][i] < s[1..][j] {
      assert s[1..][i] == s[i + 1] && s[1..][j] == s[j + 1];
    }
    forall y | y in s[1..] ensures s[0] < y {
      var k :| 0 <= k < |s[1..]| && s[1..][k] == y;
      assert s[k + 1] == y;
    }
  }

  lemma IncreasingCons(a: int, s: seq<int>)
    requires StrictlyIncreasing(s) && forall y :: y in s ==> a < y
    ensures StrictlyIncreasing([a] + s)
  {
    var r := [a] + s;
    forall i, j | 0 <= i < j < |r| ensures r[i] < r[j] {
      assert r[j] == s[j - 1];
      if i == 0 {
        assert s[j - 1] in s;
      } else {
        assert r[i] == s[i - 1];
      }
    }
  }

  /** The keys a `groupby` produces: each key once, in ascending order. */
  function SortedKeys(xs: seq<int>): (r: seq<int>)
    ensures StrictlyIncreasing(r)
    ensures forall y :: y in r <==> y in xs
  {
    if xs == [] then [] else InsertKey(xs[0], SortedKeys(xs[1..]))
  }

  function Dates(txns: seq<Txn>): (r: seq<int>)
    ensures |r| == |txns| && forall i :: 0 <= i < |txns| ==> r[i] == txns[i].date
  {
    seq(|txns|, i requires 0 <= i < |txns| => txns[i].date)
  }

  function AccountIds(txns: seq<Txn>): (r: seq<string>)
    ensures |r| == |txns| && forall i :: 0 <= i < |txns| ==> r[i] == txns[i].accountId
  {
    seq(|txns|, i requires 0 <= i < |txns| => txns[i].accountId)
  }

  function Kinds(txns: seq<Txn>): (r: seq<string>)
    ensures |r| == |txns| && forall i :: 0 <= i < |txns| ==> r[i] == txns[i].kind
  {
    seq(|txns|, i requires 0 <= i < |txns| => txns[i].kind)
  }

  predicate SortedDesc<T>(s: seq<T>, key: T -> real) {
    forall i, j :: 0 <= i < j < |s| ==> key(s[i]) >= key(s[j])
  }

  /** `x` placed into the non-increasing `s` after every element whose key is at least its own. */
  function InsertDesc<T(==,!new)>(x: T, s: seq<T>, key: T -> real): (r: seq<T>)
    requires SortedDesc(s, key)
    ensures SortedDesc(r, key)
    ensures multiset(r) == multiset(s) + multiset{x}
  {
    if s == [] then [x]
    else if key(x) > key(s[0]) then
      DescTail(s, key);
      DescCons(x, s, key);
      [x] + s
    else
      DescTail(s, key);
      var rest := InsertDesc(x, s[1..], key);
      InsertDescStep(x, s, rest, key);
      [s[0]] + rest
  }

  /** Putting the head back in front of the insertion into the tail. */
  lemma InsertDescStep<T>(x: T, s: seq<T>, rest: seq<T>, key: T -> real)
    requires s != [] && key(x) <= key(s[0])
    requires forall y :: y in s[1..] ==> key(s[0]) >= key(y)
    requires SortedDesc(rest, key) && multiset(rest) == multiset(s[1..]) + multiset{x}
    ensures SortedDesc([s[0]] + rest, key)
    ensures multiset([s[0]] + rest) == multiset(s) + multiset{x}
  {
    forall y | y in rest ensures key(s[0]) >= key(y) {
      assert y in multiset(rest);
      assert y == x || y in multiset(s[1..]);
    }
    DescCons(s[0], rest, key);
    assert s == [s[0]] + s[1..];
  }

  lemma DescTail<T>(s: seq<T>, key: T -> real)
    requires s != [] && SortedDesc(s, key)
    ensures SortedDesc(s[1..], key) && forall y :: y in s[1..] ==> key(s[0]) >= key(y)
  {
    forall i, j | 0 <= i < j < |s[1..]| ensures key(s[1..][i]) >= key(s[1..][j]) {
      assert s[1..][i] == s[i + 1] && s[1..][j] == s[j + 1];
    }
    forall y | y in s[1..] ensures key(s[0]) >= key(y) {
      var k :| 0 <= k < |s[1..]| && s[1..][k] == y;
      assert s[k + 1] == y;
    }
  }

  lemma DescCons<T>(a: T, s: seq<T>, key: T -> real)
    requires SortedDesc(s, key) && forall y :: y in s ==> key(a) >= key(y)
    ensures SortedDesc([a] + s, key)
  {
    var r := [a] + s;
    forall i, j | 0 <= i < j < |r| ensures key(r[i]) >= key(r[j]) {
      assert r[j] == s[j - 1];
      if i == 0 {
        assert s[j - 1] in s;
      } else {
        assert r[i] == s[i - 1];
      }
    }
  }

  /** `sort_values(key, ascending=False)`: a non-increasing permutation. */
  function SortDesc<T(==,!new)>(s: seq<T>, key: T -> real): (r: seq<T>)
    ensures SortedDesc(r, key)
    ensures multiset(r) == multiset(s)
  {
    if s == [] then []
    else
      assert s == [s[0]] + s[1..];
      InsertDesc(s[0], SortDesc(s[1..], key), key)
  }

  lemma {:induction false} SortKeepsDistinct<T(!new)>(s: seq<T>, key: T -> real)
    requires NoDuplicates(s)
    ensures NoDuplicates(SortDesc(s, key))
  {
    var r := SortDesc(s, key);
    forall i, j | 0 <= i < j < |r| ensures r[i] != r[j] {
      if r[i] == r[j] {
        MultisetHasTwo(r, i, j);
        assert multiset(s)[r[i]] >= 2;
        DistinctCountsOne(s, r[i]);
        assert false;
      }
    }
  }

  lemma MultisetHasTwo<T>(s: seq<T>, i: int, j: int)
    requires 0 <= i < j < |s| && s[i] == s[j]
    ensures multiset(s)[s[i]] >= 2
  {
    assert s == s[..i] + [s[i]] + s[i + 1..j] + [s[j]] + s[j + 1..];
  }

  lemma {:induction false} DistinctCountsOne<T>(s: seq<T>, x: T)
    requires NoDuplicates(s)
    ensures multiset(s)[x] <= 1
  {
    if s != [] {
      DistinctCountsOne(s[1..], x);
      assert s == [s[0]] + s[1..];
      if s[0] == x {
        assert x !in s[1..];
      }
    }
  }
}
