/**
 * The parts of JavaScript string semantics the dashboard relies on: `trim()`,
 * `.length` (UTF-16 code units), the regular-expression class `\d`, and the
 * ordering that both JavaScript `<` and SQLite's BINARY collation give to the
 * ISO dates used as season bounds.
 *
 * A Dafny `char` is a Unicode scalar value; a JavaScript string is a sequence of
 * UTF-16 code units, so a character outside the Basic Multilingual Plane counts
 * twice in `.length`.
 */
module JsStrings {

  /** JavaScript WhiteSpace and LineTerminator code points, the set `trim()` removes. */
  predicate IsWhitespace(c: char) {
    var n := c as int;
    || n == 0x0009 || n == 0x000B || n == 0x000C || n == 0x0020   // TAB VT FF SP
    || n == 0x00A0 || n == 0xFEFF                                 // NBSP, BOM
    || n == 0x1680 || 0x2000 <= n <= 0x200A || n == 0x202F        // other Zs
    || n == 0x205F || n == 0x3000
    || n == 0x000A || n == 0x000D || n == 0x2028 || n == 0x2029   // line terminators
  }

  /** The regular-expression class `\d` (without the `u` flag): ASCII digits only. */
  predicate IsDigit(c: char) {
    '0' <= c <= '9'
  }

  predicate AllDigits(s: string) {
    forall i :: 0 <= i < |s| ==> IsDigit(s[i])
  }

  /** The first index at or after `i` that is not whitespace (or `|s|`). */
  function SkipLeading(s: string, i: nat): (k: nat)
    requires i <= |s|
    ensures i <= k <= |s|
    ensures forall j :: i <= j < k ==> IsWhitespace(s[j])
    ensures k < |s| ==> !IsWhitespace(s[k])
    decreases |s| - i
  {
    if i < |s| && IsWhitespace(s[i]) then SkipLeading(s, i + 1) else i
  }

  /** The end of `s[lo..hi]` once trailing whitespace is removed. */
  function SkipTrailing(s: string, lo: nat, hi: nat): (k: nat)
    requires lo <= hi <= |s|
    ensures lo <= k <= hi
    ensures forall j :: k <= j < hi ==> IsWhitespace(s[j])
    ensures lo < k ==> !IsWhitespace(s[k - 1])
    decreases hi - lo
  {
    if lo < hi && IsWhitespace(s[hi - 1]) then SkipTrailing(s, lo, hi - 1) else hi
  }

  function TrimLo(s: string): nat
    ensures TrimLo(s) <= |s|
  {
    SkipLeading(s, 0)
  }

  function TrimHi(s: string): (hi: nat)
    ensures TrimLo(s) <= hi <= |s|
  {
    SkipTrailing(s, TrimLo(s), |s|)
  }

  /**
   * `String.prototype.trim`: the slice of `s` that remains once leading and
   * trailing whitespace is removed; what is removed is all whitespace, and what
   * remains neither starts nor ends with whitespace.
   */
  function Trim(s: string): (t: string)
    ensures t == s[TrimLo(s)..TrimHi(s)]
    ensures forall j :: 0 <= j < TrimLo(s) ==> IsWhitespace(s[j])
    ensures forall j :: TrimHi(s) <= j < |s| ==> IsWhitespace(s[j])
    ensures |t| > 0 ==> !IsWhitespace(t[0]) && !IsWhitespace(t[|t| - 1])
  {
    var lo := SkipLeading(s, 0);
    var hi := SkipTrailing(s, lo, |s|);
    assert lo == TrimLo(s) && hi == TrimHi(s);
    assert lo < hi ==> s[lo..hi][0] == s[lo] && s[lo..hi][hi - lo - 1] == s[hi - 1];
    s[lo..hi]
  }

  /** Every character of `s` that is not whitespace survives `trim()`. */
  lemma NonWhitespaceKept(s: string, i: nat)
    requires i < |s| && !IsWhitespace(s[i])
    ensures TrimLo(s) <= i < TrimHi(s)
    ensures Trim(s)[i - TrimLo(s)] == s[i]
  {
  }

  /** A string with no surrounding whitespace is its own trim. */
  lemma TrimOfTrimmed(s: string)
    requires |s| > 0 ==> !IsWhitespace(s[0]) && !IsWhitespace(s[|s| - 1])
    ensures Trim(s) == s
  {
    if |s| > 0 {
      NonWhitespaceKept(s, 0);
      NonWhitespaceKept(s, |s| - 1);
    }
  }

  /** `trim()` is idempotent. */
  lemma TrimIdempotent(s: string)
    ensures Trim(Trim(s)) == Trim(s)
  {
    TrimOfTrimmed(Trim(s));
  }

  /** JavaScript `.length`: the number of UTF-16 code units of `s`. */
  function Utf16Length(s: string): (n: nat)
    ensures |s| <= n <= 2 * |s|
  {
    if s == [] then 0
    else (if s[0] as int > 0xFFFF then 2 else 1) + Utf16Length(s[1..])
  }

  /** On ASCII digits, `.length` is the number of characters. */
  lemma {:induction false} Utf16LengthOfDigits(s: string)
    requires AllDigits(s)
    ensures Utf16Length(s) == |s|
  {
    if s != [] {
      assert AllDigits(s[1..]) by {
        forall i | 0 <= i < |s[1..]| ensures IsDigit(s[1..][i]) {
          assert s[1..][i] == s[i + 1];
        }
      }
      Utf16LengthOfDigits(s[1..]);
    }
  }

  /** The number of occurrences of `c` in `s`. */
  function Occurrences(s: string, c: char): (n: nat)
    ensures n <= |s|
  {
    if s == [] then 0 else (if s[0] == c then 1 else 0) + Occurrences(s[1..], c)
  }

  lemma {:induction false} NoOccurrences(s: string, c: char)
    requires forall i :: 0 <= i < |s| ==> s[i] != c
    ensures Occurrences(s, c) == 0
  {
    if s != [] {
      NoOccurrences(s[1..], c);
    }
  }

  lemma {:induction false} OccurrencesAppend(a: string, b: string, c: char)
    ensures Occurrences(a + b, c) == Occurrences(a, c) + Occurrences(b, c)
  {
    if a == [] {
      assert a + b == b;
    } else {
      assert (a + b)[1..] == a[1..] + b;
      OccurrencesAppend(a[1..], b, c);
    }
  }

  /**
   * Strict string order by code point, lexicographic with a proper prefix first.
   * This is JavaScript `<` on text without surrogate pairs and SQLite's BINARY
   * collation on UTF-8, which sorts the same way as code points.
   */
  predicate Below(a: string, b: string) {
    if a == [] then b != []
    else if b == [] then false
    else if a[0] != b[0] then a[0] < b[0]
    else Below(a[1..], b[1..])
  }

  predicate AtMost(a: string, b: string) {
    a == b || Below(a, b)
  }

  lemma {:induction false} BelowIrreflexive(a: string)
    ensures !Below(a, a)
  {
    if a != [] {
      BelowIrreflexive(a[1..]);
    }
  }

  lemma {:induction false} BelowTransitive(a: string, b: string, c: string)
    requires Below(a, b) && Below(b, c)
    ensures Below(a, c)
  {
    if a != [] && a[0] == b[0] && b[0] == c[0] {
      BelowTransitive(a[1..], b[1..], c[1..]);
    }
  }

  /** Any two distinct strings are ordered one way or the other. */
  lemma {:induction false} BelowTotal(a: string, b: string)
    requires a != b
    ensures Below(a, b) || Below(b, a)
  {
    if a != [] && b != [] && a[0] == b[0] {
      assert a == [a[0]] + a[1..] && b == [b[0]] + b[1..];
      BelowTotal(a[1..], b[1..]);
    }
  }

  lemma AtMostBelowTransitive(a: string, b: string, c: string)
    requires AtMost(a, b) && Below(b, c)
    ensures Below(a, c)
  {
    if a != b {
      BelowTransitive(a, b, c);
    }
  }

  lemma BelowAtMostTransitive(a: string, b: string, c: string)
    requires Below(a, b) && AtMost(b, c)
    ensures Below(a, c)
  {
    if b != c {
      BelowTransitive(a, b, c);
    }
  }

  /** Strings that agree up to index `k` and differ there are ordered by the character at `k`. */
  lemma {:induction false} BelowAtFirstDifference(a: string, b: string, k: nat)
    requires k < |a| && k < |b| && a[..k] == b[..k] && a[k] < b[k]
    ensures Below(a, b)
  {
    if k > 0 {
      assert a[0] == a[..k][0] == b[..k][0] == b[0];
      assert a[1..][..k - 1] == a[1..k] == a[..k][1..];
      assert b[1..][..k - 1] == b[1..k] == b[..k][1..];
      BelowAtFirstDifference(a[1..], b[1..], k - 1);
    }
  }

  /** `AtMost` is the complement of `Below` the other way round. */
  lemma AtMostIffNotBelow(a: string, b: string)
    ensures AtMost(a, b) <==> !Below(b, a)
  {
    if a == b {
      BelowIrreflexive(a);
    } else {
      BelowTotal(a, b);
      if Below(a, b) && Below(b, a) {
        BelowTransitive(a, b, a);
        BelowIrreflexive(a);
      }
    }
  }
}
