/**
 * String helpers the dashboard relies on: JavaScript's `trim`, `includes`,
 * ASCII case mapping and the global literal `replace` used for placeholders.
 * Strings are sequences of characters; whitespace is the ASCII whitespace set.
 */
module Text {
  import opened Wrappers

  /** The whitespace characters `trim` and the `\s` class remove (ASCII subset). */
  predicate IsSpace(c: char) {
    c == ' ' || c == '\t' || c == '\n' || c == '\r' || c == '\U{000B}' || c == '\U{000C}'
  }

  predicate AllSpace(s: string) {
    forall i :: 0 <= i < |s| ==> IsSpace(s[i])
  }

  /** `s.trimStart()`: the longest suffix of `s` that does not start with whitespace. */
  function TrimStart(s: string): (r: string)
    ensures |r| <= |s| && r == s[|s| - |r|..]
    ensures r == [] || !IsSpace(r[0])
    ensures AllSpace(s[..|s| - |r|])
  {
    if |s| > 0 && IsSpace(s[0]) then
      var r := TrimStart(s[1..]);
      assert s[1..][..|s[1..]| - |r|] == s[1..|s| - |r|];
      r
    else s
  }

  /** `s.trimEnd()`: the longest prefix of `s` that does not end with whitespace. */
  function TrimEnd(s: string): (r: string)
    ensures |r| <= |s| && r == s[..|r|]
    ensures r == [] || !IsSpace(r[|r| - 1])
    ensures AllSpace(s[|r|..])
  {
    if |s| > 0 && IsSpace(s[|s| - 1]) then
      var r := TrimEnd(s[..|s| - 1]);
      assert s[..|s| - 1][..|r|] == s[..|r|];
      r
    else s
  }

  /** `s.trim()`: the text between the leading and the trailing whitespace runs. */
  function Trim(s: string): (r: string)
    ensures |r| <= |s|
    ensures r == [] || (!IsSpace(r[0]) && !IsSpace(r[|r| - 1]))
    ensures r == [] <==> AllSpace(s)
  {
    var a := TrimStart(s);
    TrimStartEmpty(s);
    TrimEndEmpty(a);
    TrimEnd(a)
  }

  /** Nothing survives `trimStart` exactly when the text is all whitespace. */
  lemma TrimStartEmpty(s: string)
    ensures TrimStart(s) == [] <==> AllSpace(s)
  {
    var a := TrimStart(s);
    if a == [] {
      assert s[..|s|] == s;
    } else {
      assert a[0] == s[|s| - |a|];
    }
  }

  /** `trimEnd` keeps the first character of a text that does not start with whitespace. */
  lemma TrimEndEmpty(a: string)
    requires a == [] || !IsSpace(a[0])
    ensures TrimEnd(a) == [] <==> a == []
    ensures TrimEnd(a) != [] ==> TrimEnd(a)[0] == a[0]
  {
    if a != [] {
      assert a[0..] == a;
    }
  }

  /** JavaScript falsiness of `s.trim()`: true exactly for blank strings. */
  predicate IsBlank(s: string) {
    Trim(s) == []
  }

  /** A text that does not start with whitespace is its own `trimStart`. */
  lemma TrimStartFixed(r: string)
    requires r == [] || !IsSpace(r[0])
    ensures TrimStart(r) == r
  {
  }

  /** A text that does not end with whitespace is its own `trimEnd`. */
  lemma TrimEndFixed(r: string)
    requires r == [] || !IsSpace(r[|r| - 1])
    ensures TrimEnd(r) == r
  {
  }

  /** A text with no whitespace at either end is its own `trim`. */
  lemma TrimFixed(r: string)
    requires r == [] || (!IsSpace(r[0]) && !IsSpace(r[|r| - 1]))
    ensures Trim(r) == r
  {
    TrimStartFixed(r);
    TrimEndFixed(r);
  }

  /** Trimming twice is the same as trimming once. */
  lemma TrimIdempotent(s: string)
    ensures Trim(Trim(s)) == Trim(s)
  {
    TrimFixed(Trim(s));
  }

  /** `p` occurs in `s` starting at index `i`. */
  predicate OccursAt(s: string, p: string, i: int) {
    0 <= i && i + |p| <= |s| && s[i..i + |p|] == p
  }

  /** `s.includes(p)`: `p` occurs in `s` at some position. */
  predicate Contains(s: string, p: string) {
    exists i | 0 <= i <= |s| - |p| :: OccursAt(s, p, i)
  }

  lemma EmptyContained(s: string)
    ensures Contains(s, [])
  {
    assert OccursAt(s, [], 0);
  }

  /** A character outside the Basic Multilingual Plane; UTF-16 stores it as a surrogate pair. */
  predicate IsAstral(c: char) { c as int > 0xFFFF }

  /**
   * JavaScript's `s.length`, which is also what zod's `length` and `min`
   * measure: the number of UTF-16 code units, two for an astral character
   * and one for any other.
   */
  function Utf16Length(s: string): (n: nat)
    ensures |s| <= n <= 2 * |s|
    ensures n == 0 <==> s == []
  {
    if s == [] then 0 else (if IsAstral(s[0]) then 2 else 1) + Utf16Length(s[1..])
  }

  /** The code units of a concatenation are those of its parts. */
  lemma {:induction false} Utf16LengthAppend(a: string, b: string)
    ensures Utf16Length(a + b) == Utf16Length(a) + Utf16Length(b)
  {
    if a != [] {
      assert (a + b)[1..] == a[1..] + b;
      Utf16LengthAppend(a[1..], b);
    } else {
      assert a + b == b;
    }
  }

  /** Code units and characters agree exactly when no character is astral. */
  lemma {:induction false} Utf16LengthBmp(s: string)
    ensures Utf16Length(s) == |s| <==> forall i :: 0 <= i < |s| ==> !IsAstral(s[i])
  {
    if s != [] {
      Utf16LengthBmp(s[1..]);
      assert forall i :: 1 <= i < |s| ==> s[i] == s[1..][i - 1];
      if forall i :: 0 <= i < |s| ==> !IsAstral(s[i]) {
        assert forall i :: 0 <= i < |s| - 1 ==> !IsAstral(s[1..][i]) by {
          forall i | 0 <= i < |s| - 1 ensures !IsAstral(s[1..][i]) {
            assert s[1..][i] == s[i + 1];
          }
        }
      } else {
        var j :| 0 <= j < |s| && IsAstral(s[j]);
        if j > 0 {
          assert IsAstral(s[1..][j - 1]);
        }
      }
    }
  }

  predicate IsUpperAscii(c: char) { 'A' <= c <= 'Z' }
  predicate IsLowerAscii(c: char) { 'a' <= c <= 'z' }

  function LowerChar(c: char): char {
    if IsUpperAscii(c) then (c as int + 32) as char else c
  }

  function UpperChar(c: char): char {
    if IsLowerAscii(c) then (c as int - 32) as char else c
  }

  /** `s.toLowerCase()`, restricted to the ASCII letters. */
  function Lower(s: string): (r: string)
    ensures |r| == |s|
    ensures forall i :: 0 <= i < |s| ==> r[i] == LowerChar(s[i])
  {
    seq(|s|, i requires 0 <= i < |s| => LowerChar(s[i]))
  }

  /** `s.toUpperCase()`, restricted to the ASCII letters. */
  function Upper(s: string): (r: string)
    ensures |r| == |s|
    ensures forall i :: 0 <= i < |s| ==> r[i] == UpperChar(s[i])
  {
    seq(|s|, i requires 0 <= i < |s| => UpperChar(s[i]))
  }

  /** Lower-casing twice is lower-casing once. */
  lemma LowerIdempotent(s: string)
    ensures Lower(Lower(s)) == Lower(s)
  {
  }

  /** `s.toLowerCase().includes(term.toLowerCase())`: a case-insensitive substring test. */
  predicate ContainsIgnoreCase(s: string, term: string) {
    Contains(Lower(s), Lower(term))
  }

  /** The empty search term matches every text. */
  lemma EmptyTermMatches(s: string)
    ensures ContainsIgnoreCase(s, "")
  {
    assert Lower("") == [];
    EmptyContained(Lower(s));
  }

  /** A string equals its upper-case form exactly when it has no lower-case ASCII letter. */
  lemma UpperFixedIffNoLower(s: string)
    ensures Upper(s) == s <==> forall i :: 0 <= i < |s| ==> !IsLowerAscii(s[i])
  {
    if Upper(s) == s {
      forall i | 0 <= i < |s| ensures !IsLowerAscii(s[i]) {
        assert Upper(s)[i] == UpperChar(s[i]);
      }
    }
  }

  /**
   * `s.replace(/pat/g, rep)` for a literal pattern: every leftmost,
   * non-overlapping occurrence of `pat` is replaced by `rep`.
   */
  function ReplaceAll(s: string, pat: string, rep: string): string
    requires |pat| > 0
    decreases |s|
  {
    if |s| < |pat| then s
    else if s[..|pat|] == pat then rep + ReplaceAll(s[|pat|..], pat, rep)
    else [s[0]] + ReplaceAll(s[1..], pat, rep)
  }

  /** A text in which the pattern does not occur is returned unchanged. */
  lemma {:induction false} ReplaceAllAbsent(s: string, pat: string, rep: string)
    requires |pat| > 0
    requires !Contains(s, pat)
    ensures ReplaceAll(s, pat, rep) == s
    decreases |s|
  {
    if |s| >= |pat| {
      assert !OccursAt(s, pat, 0);
      assert !Contains(s[1..], pat) by {
        forall i | OccursAt(s[1..], pat, i) ensures OccursAt(s, pat, i + 1) {
          assert s[1..][i..i + |pat|] == s[i + 1..i + 1 + |pat|];
        }
      }
      ReplaceAllAbsent(s[1..], pat, rep);
      assert [s[0]] + s[1..] == s;
    }
  }

  /** Replacing a pattern by itself changes nothing. */
  lemma {:induction false} ReplaceAllSelf(s: string, pat: string)
    requires |pat| > 0
    ensures ReplaceAll(s, pat, pat) == s
    decreases |s|
  {
    if |s| >= |pat| {
      if s[..|pat|] == pat {
        ReplaceAllSelf(s[|pat|..], pat);
        assert pat + s[|pat|..] == s;
      } else {
        ReplaceAllSelf(s[1..], pat);
        assert [s[0]] + s[1..] == s;
      }
    }
  }

  /** One step of the replacement at a position where the pattern matches. */
  lemma ReplaceAllMatchStep(s: string, pat: string, rep: string)
    requires 0 < |pat| <= |s| && s[..|pat|] == pat
    ensures ReplaceAll(s, pat, rep) == rep + ReplaceAll(s[|pat|..], pat, rep)
  {
  }

  /** One step of the replacement at a position where the pattern does not match. */
  lemma ReplaceAllSkipStep(s: string, pat: string, rep: string)
    requires 0 < |pat| && |s| > 0 && (|s| < |pat| || s[..|pat|] != pat)
    ensures ReplaceAll(s, pat, rep) == [s[0]] + ReplaceAll(s[1..], pat, rep)
  {
    if |s| < |pat| {
      assert ReplaceAll(s[1..], pat, rep) == s[1..];
      assert [s[0]] + s[1..] == s;
    }
  }

  /**
   * A placeholder such as `{customer_name}`: it opens with `{`, closes with
   * `}`, and neither brace occurs anywhere else in it. Two different
   * placeholders can therefore neither overlap nor contain each other.
   */
  predicate IsBraced(p: string) {
    |p| >= 2 && p[0] == '{' && p[|p| - 1] == '}' && '{' !in p[1..] && '}' !in p[..|p| - 1]
  }

  /** A text is a placeholder when it is braced at both ends and holds no brace in between. */
  lemma BracedChars(p: string)
    requires |p| >= 2 && p[0] == '{' && p[|p| - 1] == '}'
    requires forall k :: 0 < k < |p| - 1 ==> p[k] != '{' && p[k] != '}'
    ensures IsBraced(p)
  {
    assert forall k :: 0 <= k < |p| - 1 ==> p[1..][k] == p[k + 1];
    assert forall k :: 0 <= k < |p| - 1 ==> p[..|p| - 1][k] == p[k];
  }

  /** No match can start inside a text free of `{`, so such a prefix is copied unchanged. */
  lemma {:induction false} ReplaceAllOpenFreePrefix(x: string, b: string, pat: string, rep: string)
    requires IsBraced(pat) && '{' !in x
    ensures ReplaceAll(x + b, pat, rep) == x + ReplaceAll(b, pat, rep)
    decreases |x|
  {
    if |x| == 0 {
      assert x + b == b;
    } else {
      var s := x + b;
      assert s[0] == x[0];
      assert |s| >= |pat| ==> s[..|pat|][0] != pat[0];
      ReplaceAllSkipStep(s, pat, rep);
      assert s[1..] == x[1..] + b;
      ReplaceAllOpenFreePrefix(x[1..], b, pat, rep);
      assert [x[0]] + x[1..] == x;
    }
  }

  /** A different placeholder at the start of the text is not a match. */
  lemma BracedWindowMismatch(q: string, b: string, pat: string)
    requires IsBraced(q) && IsBraced(pat) && q != pat && |pat| <= |q + b|
    ensures (q + b)[..|pat|] != pat
  {
    var s := q + b;
    if |pat| == |q| {
      assert s[..|pat|] == q;
    } else if |pat| < |q| {
      assert s[..|pat|][|pat| - 1] == q[|pat| - 1] == q[..|q| - 1][|pat| - 1];
    } else {
      assert s[..|pat|][|q| - 1] == q[|q| - 1];
      assert pat[|q| - 1] == pat[..|pat| - 1][|q| - 1];
    }
  }

  /** A window that starts in `a` and reaches the `{` opening `q` cannot hold a placeholder. */
  lemma NoEarlyMatch(a: string, q: string, b: string, pat: string)
    requires IsBraced(pat) && |q| > 0 && q[0] == '{' && 0 < |a| < |pat| <= |a + q + b|
    ensures (a + q + b)[..|pat|] != pat
  {
    var s := a + q + b;
    assert s[|a|] == '{';
    assert s[..|pat|][|a|] == '{';
    assert pat[|a|] == pat[1..][|a| - 1];
  }

  /** The replacement of a lone placeholder `q`: the replacement text if it is the pattern, else `q` itself. */
  function ReplacedToken(q: string, pat: string, rep: string): string {
    if q == pat then rep else q
  }

  lemma AroundEmptyPrefix(q: string, b: string, pat: string, rep: string)
    requires IsBraced(q) && IsBraced(pat)
    ensures ReplaceAll(q + b, pat, rep) == ReplacedToken(q, pat, rep) + ReplaceAll(b, pat, rep)
  {
    var s := q + b;
    if q == pat {
      assert s[..|pat|] == pat;
      assert s[|pat|..] == b;
      ReplaceAllMatchStep(s, pat, rep);
    } else {
      if |pat| <= |s| {
        BracedWindowMismatch(q, b, pat);
      }
      ReplaceAllSkipStep(s, pat, rep);
      assert s[1..] == q[1..] + b;
      ReplaceAllOpenFreePrefix(q[1..], b, pat, rep);
      assert [q[0]] + q[1..] == q;
    }
  }

  /** The base case of the placeholder distribution: nothing before the placeholder. */
  lemma AroundBase(a: string, q: string, b: string, pat: string, rep: string)
    requires a == [] && IsBraced(q) && IsBraced(pat)
    ensures ReplaceAll(a + q + b, pat, rep) == ReplaceAll(a, pat, rep) + ReplacedToken(q, pat, rep) + ReplaceAll(b, pat, rep)
  {
    AroundEmptyPrefix(q, b, pat, rep);
    assert a + q + b == q + b;
  }

  lemma AroundSkip(a: string, q: string, b: string, pat: string, rep: string, m: string)
    requires |pat| > 0 && |a| > 0 && (|a| < |pat| || a[..|pat|] != pat)
    requires |a + q + b| < |pat| || (a + q + b)[..|pat|] != pat
    requires ReplaceAll(a[1..] + q + b, pat, rep) == ReplaceAll(a[1..], pat, rep) + m + ReplaceAll(b, pat, rep)
    ensures ReplaceAll(a + q + b, pat, rep) == ReplaceAll(a, pat, rep) + m + ReplaceAll(b, pat, rep)
  {
    var s := a + q + b;
    assert s[0] == a[0];
    assert s[1..] == a[1..] + q + b;
    var x, y := ReplaceAll(a[1..], pat, rep), ReplaceAll(b, pat, rep);
    assert ReplaceAll(s[1..], pat, rep) == x + m + y;
    ReplaceAllSkipStep(s, pat, rep);
    assert ReplaceAll(s, pat, rep) == [a[0]] + (x + m + y);
    ReplaceAllSkipStep(a, pat, rep);
    assert ReplaceAll(a, pat, rep) == [a[0]] + x;
    assert [a[0]] + (x + m + y) == ([a[0]] + x) + m + y;
  }

  /** When the pattern does not match at the start of `a`, it does not match at the start of `a + q + b`. */
  lemma SkipCarriesOver(a: string, q: string, b: string, pat: string)
    requires |q| > 0 && q[0] == '{' && IsBraced(pat) && |a| > 0 && (|a| < |pat| || a[..|pat|] != pat)
    ensures |a + q + b| < |pat| || (a + q + b)[..|pat|] != pat
  {
    var s := a + q + b;
    if |a| < |pat| {
      if |pat| <= |s| {
        NoEarlyMatch(a, q, b, pat);
      }
    } else {
      assert s[..|pat|] == a[..|pat|];
    }
  }

  /** The skip step when a placeholder follows `a`. */
  lemma AroundSkipBraced(a: string, q: string, b: string, pat: string, rep: string, m: string)
    requires IsBraced(q) && IsBraced(pat) && |a| > 0 && (|a| < |pat| || a[..|pat|] != pat)
    requires ReplaceAll(a[1..] + q + b, pat, rep) == ReplaceAll(a[1..], pat, rep) + m + ReplaceAll(b, pat, rep)
    ensures ReplaceAll(a + q + b, pat, rep) == ReplaceAll(a, pat, rep) + m + ReplaceAll(b, pat, rep)
  {
    SkipCarriesOver(a, q, b, pat);
    AroundSkip(a, q, b, pat, rep, m);
  }

  lemma AroundMatch(a: string, q: string, b: string, pat: string, rep: string, m: string)
    requires |pat| > 0 && |pat| <= |a| && a[..|pat|] == pat
    requires ReplaceAll(a[|pat|..] + q + b, pat, rep) == ReplaceAll(a[|pat|..], pat, rep) + m + ReplaceAll(b, pat, rep)
    ensures ReplaceAll(a + q + b, pat, rep) == ReplaceAll(a, pat, rep) + m + ReplaceAll(b, pat, rep)
  {
    var s := a + q + b;
    assert s[..|pat|] == a[..|pat|];
    assert s[|pat|..] == a[|pat|..] + q + b;
    ReplaceAllMatchStep(s, pat, rep);
    ReplaceAllMatchStep(a, pat, rep);
  }

  /**
   * Replacement distributes over a placeholder standing anywhere in a text:
   * the parts before and after are replaced independently, and the
   * placeholder itself becomes the replacement if it is the pattern and is
   * kept verbatim otherwise. In particular every occurrence of the pattern
   * is replaced, and other placeholders are never touched.
   */
  lemma {:induction false} ReplaceAllAround(a: string, q: string, b: string, pat: string, rep: string)
    requires IsBraced(q) && IsBraced(pat)
    ensures ReplaceAll(a + q + b, pat, rep)
            == ReplaceAll(a, pat, rep) + ReplacedToken(q, pat, rep) + ReplaceAll(b, pat, rep)
    decreases |a|
  {
    if |a| == 0 {
      AroundBase(a, q, b, pat, rep);
    } else if |a| < |pat| || a[..|pat|] != pat {
      ReplaceAllAround(a[1..], q, b, pat, rep);
      AroundSkipBraced(a, q, b, pat, rep, ReplacedToken(q, pat, rep));
    } else {
      ReplaceAllAround(a[|pat|..], q, b, pat, rep);
      AroundMatch(a, q, b, pat, rep, ReplacedToken(q, pat, rep));
    }
  }

  /** `s.startsWith(p)`. */
  predicate StartsWith(s: string, p: string) {
    |p| <= |s| && s[..|p|] == p
  }

  /** A shared head does not change whether one text starts with another. */
  lemma StartsWithCommonHead(a: string, b: string, c: string)
    ensures StartsWith(a + b, a + c) <==> StartsWith(b, c)
  {
    if |c| <= |b| {
      assert (a + b)[..|a + c|] == a + b[..|c|];
      if (a + b)[..|a + c|] == a + c {
        assert b[..|c|] == (a + b[..|c|])[|a|..] == (a + c)[|a|..] == c;
      }
    }
  }

  /** `s.endsWith(p)`. */
  predicate EndsWith(s: string, p: string) {
    |p| <= |s| && s[|s| - |p|..] == p
  }

  /** Splits `s` at the first occurrence of `c`: the text before it and the text after it. */
  function SplitFirst(s: string, c: char): (r: Option<(string, string)>)
    ensures r.None? <==> c !in s
    ensures r.Some? ==> s == r.value.0 + [c] + r.value.1 && c !in r.value.0
  {
    if |s| == 0 then None
    else if s[0] == c then Some(([], s[1..]))
    else
      match SplitFirst(s[1..], c)
      case None => None
      case Some((a, b)) => Some(([s[0]] + a, b))
  }

  /** Splitting a text built around a first `c` recovers its two parts. */
  lemma {:induction false} SplitFirstConcat(a: string, c: char, b: string)
    requires c !in a
    ensures SplitFirst(a + [c] + b, c) == Some((a, b))
  {
    if |a| > 0 {
      assert (a + [c] + b)[1..] == a[1..] + [c] + b;
      SplitFirstConcat(a[1..], c, b);
      assert [a[0]] + a[1..] == a;
    }
  }

  /** Splits `s` at the last occurrence of `c`: the text before it and the text after it. */
  function SplitLast(s: string, c: char): (r: Option<(string, string)>)
    ensures r.None? <==> c !in s
    ensures r.Some? ==> s == r.value.0 + [c] + r.value.1 && c !in r.value.1
  {
    if |s| == 0 then None
    else if s[|s| - 1] == c then Some((s[..|s| - 1], []))
    else
      match SplitLast(s[..|s| - 1], c)
      case None => None
      case Some((a, b)) => Some((a, b + [s[|s| - 1]]))
  }

  /** Splitting a text built around a last `c` recovers its two parts. */
  lemma {:induction false} SplitLastConcat(a: string, c: char, b: string)
    requires c !in b
    ensures SplitLast(a + [c] + b, c) == Some((a, b))
  {
    var s := a + [c] + b;
    if |b| > 0 {
      assert s[..|s| - 1] == a + [c] + b[..|b| - 1];
      SplitLastConcat(a, c, b[..|b| - 1]);
      assert b[..|b| - 1] + [b[|b| - 1]] == b;
    } else {
      assert s[..|s| - 1] == a;
    }
  }

  predicate IsDigit(c: char) { '0' <= c <= '9' }

  function DigitChar(d: nat): (c: char)
    requires d < 10
    ensures IsDigit(c) && (c as int) - ('0' as int) == d
  {
    (('0' as int) + d) as char
  }

  /** `String(n)` for a natural number: its decimal digits, most significant first, no leading zero. */
  function Decimal(n: nat): (r: string)
    ensures |r| >= 1 && forall i :: 0 <= i < |r| ==> IsDigit(r[i])
    ensures |r| > 1 ==> r[0] != '0'
  {
    if n < 10 then [DigitChar(n)] else Decimal(n / 10) + [DigitChar(n % 10)]
  }

  /** The value of a string of decimal digits. */
  function DecimalValue(s: string): (n: nat)
    requires forall i :: 0 <= i < |s| ==> IsDigit(s[i])
  {
    if |s| == 0 then 0
    else
      assert IsDigit(s[|s| - 1]);
      DecimalValue(s[..|s| - 1]) * 10 + ((s[|s| - 1] as int) - ('0' as int))
  }

  /** Reading the digits back gives the number. */
  lemma {:induction false} DecimalRoundTrip(n: nat)
    ensures DecimalValue(Decimal(n)) == n
  {
    if n >= 10 {
      var r := Decimal(n);
      assert r[..|r| - 1] == Decimal(n / 10);
      DecimalRoundTrip(n / 10);
    }
  }

  /** `String(n)` for an integer: a minus sign before the digits of a negative number. */
  function IntString(n: int): (r: string)
    ensures n >= 0 ==> r == Decimal(n)
    ensures n < 0 ==> r == "-" + Decimal(-n)
  {
    if n >= 0 then Decimal(n) else "-" + Decimal(-n)
  }
}
