/**
 * The Python string operations the core relies on: `str.lower()`, `str.strip()`,
 * `str.title()`, `str.startswith()` and the substring test `k in s`.
 */
module Text {

  /** Python's `str.isspace()` on one character (the characters `str.strip()` removes). */
  predicate IsSpace(c: char) {
    || c == ' '
    || '\t' <= c <= '\r'
    || '\U{1C}' <= c <= '\U{1F}'
    || c == '\U{85}' || c == '\U{A0}' || c == '\U{1680}'
    || '\U{2000}' <= c <= '\U{200A}'
    || c == '\U{2028}' || c == '\U{2029}' || c == '\U{202F}' || c == '\U{205F}' || c == '\U{3000}'
  }

  predicate AllSpace(s: string) {
    forall i :: 0 <= i < |s| ==> IsSpace(s[i])
  }

  /** Neither the first nor the last character is white space. */
  predicate Trimmed(s: string) {
    s == [] || (!IsSpace(s[0]) && !IsSpace(s[|s| - 1]))
  }

  /** `s.lstrip()`: the longest suffix of `s` that does not start with white space. */
  function TrimLeft(s: string): (r: string)
    ensures |r| <= |s| && r == s[|s| - |r|..]
    ensures AllSpace(s[..|s| - |r|])
    ensures r == [] || !IsSpace(r[0])
  {
    if s != [] && IsSpace(s[0]) then TrimLeft(s[1..]) else s
  }

  /** `s.rstrip()`: the longest prefix of `s` that does not end with white space. */
  function TrimRight(s: string): (r: string)
    ensures |r| <= |s| && r == s[..|r|]
    ensures AllSpace(s[|r|..])
    ensures r == [] || !IsSpace(r[|r| - 1])
  {
    if s != [] && IsSpace(s[|s| - 1]) then TrimRight(s[..|s| - 1]) else s
  }

  /** `s.strip()`: `s` without its leading and trailing white space. */
  function Strip(s: string): (r: string)
    ensures Trimmed(r) && |r| <= |s|
  {
    var l := TrimLeft(s);
    var r := TrimRight(l);
    assert r != [] ==> r[0] == l[0];
    r
  }

  /** Strip removes a white-space prefix and a white-space suffix and keeps the middle as it is. */
  lemma StripIsMiddle(s: string)
    ensures var r := Strip(s);
      exists i :: 0 <= i <= |s| - |r| && r == s[i..i + |r|] && AllSpace(s[..i]) && AllSpace(s[i + |r|..])
  {
    var l := TrimLeft(s);
    var r := TrimRight(l);
    var i := |s| - |l|;
    assert Strip(s) == r;
    assert r == s[i..i + |r|] by {
      assert l == s[i..];
      assert r == l[..|r|];
    }
    assert AllSpace(s[..i]);
    assert AllSpace(s[i + |r|..]) by {
      assert s[i + |r|..] == l[|r|..];
    }
  }

  /** Stripping a string without surrounding white space changes nothing; hence Strip is idempotent. */
  lemma StripTrimmed(s: string)
    requires Trimmed(s)
    ensures Strip(s) == s
  {
  }

  lemma StripIdempotent(s: string)
    ensures Strip(Strip(s)) == Strip(s)
  {
    StripTrimmed(Strip(s));
  }

  /** Left-stripping removes exactly a white-space prefix in front of a non-space character. */
  lemma {:induction false} TrimLeftAfterSpace(a: string, y: string)
    requires AllSpace(a) && (y == [] || !IsSpace(y[0]))
    ensures TrimLeft(a + y) == y
  {
    if a == [] {
      assert a + y == y;
    } else {
      assert (a + y)[1..] == a[1..] + y;
      TrimLeftAfterSpace(a[1..], y);
    }
  }

  /** Right-stripping removes exactly a white-space suffix behind a non-space character. */
  lemma {:induction false} TrimRightBeforeSpace(y: string, b: string)
    requires AllSpace(b) && (y == [] || !IsSpace(y[|y| - 1]))
    ensures TrimRight(y + b) == y
  {
    if b == [] {
      assert y + b == y;
    } else {
      assert (y + b)[..|y + b| - 1] == y + b[..|b| - 1];
      TrimRightBeforeSpace(y, b[..|b| - 1]);
    }
  }

  /** Stripping a trimmed string with white space around it gives back the string. */
  lemma StripAround(a: string, x: string, b: string)
    requires AllSpace(a) && AllSpace(b) && Trimmed(x)
    ensures Strip(a + x + b) == x
  {
    if x == [] {
      assert a + x + b == (a + b) + [];
      TrimLeftAfterSpace(a + b, []);
    } else {
      assert a + x + b == a + (x + b);
      TrimLeftAfterSpace(a, x + b);
      TrimRightBeforeSpace(x, b);
    }
  }

  /** `s.startswith(p)`. */
  predicate StartsWith(s: string, p: string) {
    p <= s
  }

  /** `k in s` on strings: `k` occurs as a contiguous substring of `s`. */
  predicate Contains(s: string, k: string) {
    k <= s || (s != [] && Contains(s[1..], k))
  }

  /** `k` occurs in `s` starting at position `i`. */
  predicate OccursAt(s: string, k: string, i: int) {
    0 <= i <= |s| - |k| && s[i..i + |k|] == k
  }

  /** Contains agrees with the positional definition of a substring. */
  lemma {:induction false} ContainsAt(s: string, k: string)
    ensures Contains(s, k) <==> exists i :: OccursAt(s, k, i)
  {
    if k <= s {
      assert OccursAt(s, k, 0);
    } else if s != [] {
      ContainsAt(s[1..], k);
      if Contains(s[1..], k) {
        var i :| OccursAt(s[1..], k, i);
        assert s[i + 1..i + 1 + |k|] == s[1..][i..i + |k|];
        assert OccursAt(s, k, i + 1);
      }
      if exists i :: OccursAt(s, k, i) {
        var i :| OccursAt(s, k, i);
        assert i != 0;
        assert s[1..][i - 1..i - 1 + |k|] == s[i..i + |k|];
        assert OccursAt(s[1..], k, i - 1);
      }
    } else {
      assert forall i :: !OccursAt(s, k, i);
    }
  }

  /** A string occurs in any string that has it as a prefix, suffix or middle part. */
  lemma {:induction false} ContainsInfix(a: string, k: string, b: string)
    ensures Contains(a + k + b, k)
  {
    if a == [] {
      assert k <= a + k + b;
    } else {
      assert (a + k + b)[1..] == a[1..] + k + b;
      ContainsInfix(a[1..], k, b);
    }
  }

  predicate IsUpperAscii(c: char) { 'A' <= c <= 'Z' }
  predicate IsLowerAscii(c: char) { 'a' <= c <= 'z' }
  /** ASCII letters are the cased characters `str.title()` looks at. */
  predicate IsCased(c: char) { IsUpperAscii(c) || IsLowerAscii(c) }

  /**
   * `str.lower()` on one character. ASCII capitals map to their small letters; the two
   * characters outside ASCII whose lower-case form contains ASCII letters (U+0130 and
   * the Kelvin sign U+212A) map as in Python; every other character is kept.
   */
  function LowerChar(c: char): (r: string)
    ensures forall i :: 0 <= i < |r| ==> !IsUpperAscii(r[i])
  {
    if IsUpperAscii(c) then [(c as int + 32) as char]
    else if c == '\U{130}' then "i\U{307}"
    else if c == '\U{212A}' then "k"
    else [c]
  }

  function UpperChar(c: char): char {
    if IsLowerAscii(c) then (c as int - 32) as char else c
  }

  /** `s.lower()`. */
  function Lower(s: string): (r: string)
  {
    if s == [] then [] else LowerChar(s[0]) + Lower(s[1..])
  }

  lemma {:induction false} LowerAppend(a: string, b: string)
    ensures Lower(a + b) == Lower(a) + Lower(b)
  {
    if a != [] {
      assert (a + b)[0] == a[0];
      assert (a + b)[1..] == a[1..] + b;
      LowerAppend(a[1..], b);
      calc {
        Lower(a + b);
        LowerChar(a[0]) + Lower(a[1..] + b);
        LowerChar(a[0]) + (Lower(a[1..]) + Lower(b));
        (LowerChar(a[0]) + Lower(a[1..])) + Lower(b);
        Lower(a) + Lower(b);
      }
    } else {
      assert a + b == b;
    }
  }

  /** Lower-casing one character twice is lower-casing it once. */
  lemma LowerCharIdempotent(c: char)
    ensures Lower(LowerChar(c)) == LowerChar(c)
  {
    var l := LowerChar(c);
    if |l| == 2 {
      assert Lower(l) == LowerChar(l[0]) + Lower(l[1..]);
      assert Lower(l[1..]) == LowerChar(l[1]) + Lower([]);
    } else {
      assert Lower(l) == LowerChar(l[0]) + Lower([]);
    }
  }

  lemma {:induction false} LowerIdempotent(s: string)
    ensures Lower(Lower(s)) == Lower(s)
  {
    if s != [] {
      LowerAppend(LowerChar(s[0]), Lower(s[1..]));
      LowerCharIdempotent(s[0]);
      LowerIdempotent(s[1..]);
    }
  }

  /**
   * `s.title()` from a position whose previous character was (`afterCased`) or was not
   * cased: a cased character after a cased one is lowered, one after anything else raised.
   */
  function TitleFrom(s: string, afterCased: bool): (r: string)
    ensures |r| == |s|
  {
    if s == [] then []
    else
      var c := s[0];
      var t := if !IsCased(c) then c else if afterCased then LowerChar(c)[0] else UpperChar(c);
      [t] + TitleFrom(s[1..], IsCased(c))
  }

  /** `s.title()`. */
  function Title(s: string): string {
    TitleFrom(s, false)
  }

  /** Title changes only the case of letters: lower-casing undoes it. */
  lemma {:induction false} LowerTitleFrom(s: string, afterCased: bool)
    ensures Lower(TitleFrom(s, afterCased)) == Lower(s)
  {
    if s != [] {
      var t := TitleFrom(s, afterCased);
      assert t == [t[0]] + TitleFrom(s[1..], IsCased(s[0]));
      LowerAppend([t[0]], TitleFrom(s[1..], IsCased(s[0])));
      LowerAppend([s[0]], s[1..]);
      assert [s[0]] + s[1..] == s;
      assert Lower([t[0]]) == LowerChar(t[0]);
      assert Lower([s[0]]) == LowerChar(s[0]);
      LowerTitleFrom(s[1..], IsCased(s[0]));
    }
  }

  lemma LowerTitle(s: string)
    ensures Lower(Title(s)) == Lower(s)
  {
    LowerTitleFrom(s, false);
  }

  /** After a letter, title-casing keeps small letters as they are. */
  lemma {:induction false} TitleFromLowerWord(s: string)
    requires forall i :: 0 <= i < |s| ==> IsLowerAscii(s[i])
    ensures TitleFrom(s, true) == s
  {
    if s != [] {
      TitleFromLowerWord(s[1..]);
    }
  }

  /** `s.title()` of one word of small letters capitalises its first letter only. */
  lemma TitleOfLowerWord(s: string)
    requires s != [] && forall i :: 0 <= i < |s| ==> IsLowerAscii(s[i])
    ensures Title(s) == [UpperChar(s[0])] + s[1..]
  {
    TitleFromLowerWord(s[1..]);
  }

  /** A character that `str.lower()` leaves as it is. */
  predicate LowerFixed(c: char) {
    !IsUpperAscii(c) && c != '\U{130}' && c != '\U{212A}'
  }

  /** A string of characters that lower-casing keeps is its own lower-case form. */
  lemma {:induction false} LowerOfLowerFixed(s: string)
    requires forall i :: 0 <= i < |s| ==> LowerFixed(s[i])
    ensures Lower(s) == s
  {
    if s != [] {
      LowerOfLowerFixed(s[1..]);
    }
  }

  /** A capitalised ASCII word lower-cases to its first letter made small and the rest kept. */
  lemma LowerCapitalised(w: string)
    requires w != [] && IsUpperAscii(w[0]) && forall i :: 1 <= i < |w| ==> IsLowerAscii(w[i])
    ensures Lower(w) == [(w[0] as int + 32) as char] + w[1..]
  {
    LowerOfLowerFixed(w[1..]);
  }
}
