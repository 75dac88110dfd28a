/** The keyword categoriser of utils.py: `categorize_transaction`. */
module Utils {
  import opened Wrappers
  import opened Text

  const Other: string := "Other"

  /** The ordered `keyword_map`: categories in table order, keywords in list order. */
  const KeywordMap: seq<(string, seq<string>)> := [
    ("Income", ["salary", "payroll", "deposit", "bonus"]),
    ("Food", ["grocery", "supermarket", "food", "restaurant"]),
    ("Transport", ["uber", "lyft", "transport", "bus", "subway"]),
    ("Housing", ["rent", "mortgage", "housing"]),
    ("Entertainment", ["netflix", "spotify", "entertainment", "movie"])
  ]

  /** Every category the categoriser can return. */
  const Categories: set<string> := {"Income", "Food", "Transport", "Housing", "Entertainment", Other}

  /** Position `(i, j)` names keyword `j` of category `i` of the table. */
  predicate IsPosition(i: int, j: int) {
    0 <= i < |KeywordMap| && 0 <= j < |KeywordMap[i].1|
  }

  function Keyword(i: int, j: int): string
    requires IsPosition(i, j)
  {
    KeywordMap[i].1[j]
  }

  /** `(i', j')` comes before `(i, j)` in the scan: table order first, then keyword order. */
  predicate Before(i': int, j': int, i: int, j: int) {
    i' < i || (i' == i && j' < j)
  }

  /** Keyword `(i, j)` occurs in the (already lower-cased) description `d`. */
  predicate Hit(d: string, i: int, j: int) {
    IsPosition(i, j) && Contains(d, Keyword(i, j))
  }

  ghost predicate NoHitBefore(d: string, i: int, j: int) {
    forall i', j' :: Before(i', j', i, j) && IsPosition(i', j') ==> !Hit(d, i', j')
  }

  ghost predicate NoHit(d: string) {
    forall i, j :: IsPosition(i, j) ==> !Hit(d, i, j)
  }

  /** The inner loop: the first keyword of category `i`, from keyword `j` on, that occurs in `d`. */
  function ScanKeywords(d: string, i: nat, j: nat): (r: Option<nat>)
    requires i < |KeywordMap| && j <= |KeywordMap[i].1|
    ensures r.Some? ==> j <= r.value && Hit(d, i, r.value)
    ensures r.Some? ==> forall j' :: j <= j' < r.value ==> !Hit(d, i, j')
    ensures r.None? ==> forall j' :: j <= j' < |KeywordMap[i].1| ==> !Hit(d, i, j')
    decreases |KeywordMap[i].1| - j
  {
    if j == |KeywordMap[i].1| then None
    else if Contains(d, Keyword(i, j)) then Some(j)
    else ScanKeywords(d, i, j + 1)
  }

  /** The outer loop: the first position, from category `i` on, whose keyword occurs in `d`. */
  function ScanTable(d: string, i: nat): (r: Option<(nat, nat)>)
    requires i <= |KeywordMap|
    ensures r.Some? ==> i <= r.value.0 && Hit(d, r.value.0, r.value.1)
    ensures r.Some? ==> forall i', j' :: i <= i' && Before(i', j', r.value.0, r.value.1) && IsPosition(i', j') ==> !Hit(d, i', j')
    ensures r.None? ==> forall i', j' :: i <= i' && IsPosition(i', j') ==> !Hit(d, i', j')
    decreases |KeywordMap| - i
  {
    if i == |KeywordMap| then None
    else match ScanKeywords(d, i, 0)
      case Some(j) => Some((i, j))
      case None => ScanTable(d, i + 1)
  }

  /** `categorize_transaction(description)`: (title-cased keyword, category) or ("Other", "Other"). */
  function CategorizeTransaction(description: string): (r: (string, string))
    ensures r.1 in Categories
    ensures r.1 == Other <==> NoHit(Lower(description))
    ensures r.1 == Other ==> r.0 == Other
  {
    match ScanTable(Lower(description), 0)
    case Some((i, j)) => (Title(Keyword(i, j)), KeywordMap[i].0)
    case None => (Other, Other)
  }

  /** First match wins: the first (category, keyword) pair in scan order that occurs decides the result. */
  lemma FirstMatchWins(description: string, i: nat, j: nat)
    requires Hit(Lower(description), i, j) && NoHitBefore(Lower(description), i, j)
    ensures CategorizeTransaction(description) == (Title(Keyword(i, j)), KeywordMap[i].0)
  {
    var d := Lower(description);
    var r := ScanTable(d, 0);
    assert r.Some?;
    var (i1, j1) := r.value;
    assert !Before(i1, j1, i, j);
    assert !Before(i, j, i1, j1);
  }

  /** Matching ignores case: a description and its lower-cased form are categorised alike. */
  lemma CaseInsensitive(description: string)
    ensures CategorizeTransaction(description) == CategorizeTransaction(Lower(description))
  {
    LowerIdempotent(description);
  }

  /** Every keyword in the table consists of small ASCII letters. */
  lemma KeywordsAreLowerAscii(i: nat, j: nat)
    requires IsPosition(i, j)
    ensures forall k :: 0 <= k < |Keyword(i, j)| ==> IsLowerAscii(Keyword(i, j)[k])
  {
  }

  /**
   * A returned keyword is the matched table keyword with its first letter capitalised;
   * lower-cased again it is a substring of the lower-cased description.
   */
  lemma ReturnedKeywordOccurs(description: string)
    ensures var r := CategorizeTransaction(description);
      r.1 != Other ==>
        exists i, j :: Hit(Lower(description), i, j) && r.0 == Title(Keyword(i, j))
          && Lower(r.0) == Keyword(i, j) && Contains(Lower(description), Lower(r.0))
  {
    var d := Lower(description);
    match ScanTable(d, 0)
    case Some((i, j)) =>
      KeywordsAreLowerAscii(i, j);
      LowerTitle(Keyword(i, j));
      LowerOfLowerFixed(Keyword(i, j));
      assert Hit(d, i, j) && Lower(Title(Keyword(i, j))) == Keyword(i, j);
    case None =>
  }

  /** The example of a description with keywords of two categories: table order decides. */
  lemma SalaryBeforeRestaurant(d: string)
    requires d == "salary at restaurant"
    ensures CategorizeTransaction(d) == ("Salary", "Income")
  {
    SalaryLower();
    SalaryHit();
    SalaryTitle();
    FirstMatchWins(d, 0, 0);
  }

  lemma SalaryLower() ensures Lower("salary at restaurant") == "salary at restaurant" {
    LowerOfLowerFixed("salary at restaurant");
  }

  lemma SalaryHit() ensures Hit("salary at restaurant", 0, 0) {
    assert Keyword(0, 0) == "salary";
    assert Contains("salary at restaurant", "salary");
  }

  lemma SalaryTitle() ensures Title("salary") == "Salary" {
    TitleOfLowerWord("salary");
  }

  /** Matching is by substring and the keyword comes back capitalised: "grocery store" is Food. */
  lemma GroceryStore(d: string)
    requires d == "grocery store"
    ensures CategorizeTransaction(d) == ("Grocery", "Food")
  {
    GroceryLower();
    GroceryHit();
    GroceryNoIncome();
    GroceryTitle();
    FirstMatchWins(d, 1, 0);
  }

  lemma GroceryLower() ensures Lower("grocery store") == "grocery store" {
    LowerOfLowerFixed("grocery store");
  }

  lemma GroceryHit() ensures Hit("grocery store", 1, 0) {
    assert Keyword(1, 0) == "grocery";
    assert Contains("grocery store", "grocery");
  }

  lemma GroceryNoIncome() ensures forall j :: 0 <= j < |KeywordMap[0].1| ==> !Hit("grocery store", 0, j) {
    CategoryAbsent("grocery store", 0, "apdb");
  }

  lemma GroceryTitle() ensures Title("grocery") == "Grocery" {
    TitleOfLowerWord("grocery");
  }

  /** Matching is not by word: "parent" contains "rent" and is Housing. */
  lemma ParentIsHousing(d: string)
    requires d == "parent"
    ensures CategorizeTransaction(d) == ("Rent", "Housing")
  {
    ParentLower();
    ParentHit();
    ParentNoEarlierKeyword();
    ParentTitle();
    FirstMatchWins(d, 3, 0);
  }

  lemma ParentLower() ensures Lower("parent") == "parent" {
    LowerOfLowerFixed("parent");
  }

  lemma ParentHit() ensures Hit("parent", 3, 0) {
    assert Keyword(3, 0) == "rent";
    assert Contains("parent", "rent");
  }

  lemma ParentNoEarlierKeyword() ensures NoHitBefore("parent", 3, 0) {
    CategoryAbsent("parent", 0, "sydb");
    CategoryAbsent("parent", 1, "gsfs");
    CategoryAbsent("parent", 2, "ulsbs");
  }

  lemma ParentTitle() ensures Title("rent") == "Rent" {
    TitleOfLowerWord("rent");
  }

  /**
   * No keyword of category `i` occurs in `d` when each keyword has a character, listed in
   * `cs` in keyword order, that `d` lacks.
   */
  lemma CategoryAbsent(d: string, i: nat, cs: string)
    requires i < |KeywordMap| && |cs| == |KeywordMap[i].1|
    requires forall j :: 0 <= j < |cs| ==> cs[j] in KeywordMap[i].1[j] && cs[j] !in d
    ensures forall j :: 0 <= j < |KeywordMap[i].1| ==> !Hit(d, i, j)
  {
    forall j | 0 <= j < |cs| ensures !Hit(d, i, j) {
      CharMissing(d, Keyword(i, j), cs[j]);
    }
  }

  /** A string with a character that `d` lacks does not occur in `d`. */
  lemma CharMissing(d: string, k: string, c: char)
    requires c in k && c !in d
    ensures !Contains(d, k)
  {
    ContainsAt(d, k);
    forall i | 0 <= i <= |d| - |k| ensures !OccursAt(d, k, i) {
      var x :| 0 <= x < |k| && k[x] == c;
      assert d[i..i + |k|][x] == d[i + x];
      assert d[i + x] in d;
    }
  }
}
