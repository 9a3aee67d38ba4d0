/**
 * String operations the core relies on: prefix and substring tests,
 * Rust's `str::replace`, and the code-point ordering that Rust's `String`
 * and Python's `str` both sort by.
 */
module Text {

  /** `p` is a prefix of `s`. */
  predicate IsPrefix<T(==)>(p: seq<T>, s: seq<T>)
  {
    |p| <= |s| && s[..|p|] == p
  }

  /** `sub` occurs somewhere in `s` (Python's `sub in s`); the empty string occurs everywhere. */
  predicate Contains(s: string, sub: string)
    decreases |s|
  {
    IsPrefix(sub, s) || (|s| > 0 && Contains(s[1..], sub))
  }

  /** An occurrence at position `k` is an occurrence. */
  lemma {:induction false} ContainsAt(s: string, sub: string, k: nat)
    requires k <= |s| && IsPrefix(sub, s[k..])
    ensures Contains(s, sub)
    decreases k
  {
    if k > 0 {
      assert s[1..][k - 1..] == s[k..];
      ContainsAt(s[1..], sub, k - 1);
    }
  }

  /** A string occurs in any text it is part of. */
  lemma ContainsMiddle(a: string, sub: string, b: string)
    ensures Contains(a + sub + b, sub)
  {
    var s := a + sub + b;
    assert s[|a|..][..|sub|] == sub;
    ContainsAt(s, sub, |a|);
  }

  /**
   * Rust's `s.replace(pat, rep)` for a non-empty pattern: scanning from the
   * left, every occurrence of `pat` that does not overlap an earlier replaced
   * one is replaced by `rep`; everything else is copied.
   */
  function Replace(s: string, pat: string, rep: string): (r: string)
    requires |pat| > 0
    ensures pat[0] !in s ==> r == s
    decreases |s|
  {
    if |s| < |pat| then s
    else if s[..|pat|] == pat then rep + Replace(s[|pat|..], pat, rep)
    else [s[0]] + Replace(s[1..], pat, rep)
  }

  /**
   * Text before the first occurrence of a pattern is kept, that occurrence
   * is replaced, and the scan carries on after it.
   */
  lemma {:induction false} ReplaceFirstOccurrence(prefix: string, pat: string, suffix: string, rep: string)
    requires |pat| > 0
    requires pat[0] !in prefix
    ensures Replace(prefix + pat + suffix, pat, rep) == prefix + rep + Replace(suffix, pat, rep)
  {
    var s := prefix + pat + suffix;
    if prefix == [] {
      assert s == pat + suffix;
      assert s[..|pat|] == pat;
      assert s[|pat|..] == suffix;
    } else {
      assert s[0] == prefix[0] != pat[0];
      assert s[..|pat|][0] == s[0];
      assert s[1..] == prefix[1..] + pat + suffix;
      var tail := Replace(suffix, pat, rep);
      calc {
        Replace(s, pat, rep);
        [s[0]] + Replace(prefix[1..] + pat + suffix, pat, rep);
        { ReplaceFirstOccurrence(prefix[1..], pat, suffix, rep); }
        [prefix[0]] + (prefix[1..] + rep + tail);
        { assert [prefix[0]] + prefix[1..] == prefix; }
        prefix + rep + tail;
      }
    }
  }

  /** Strict lexicographic order by code point. */
  predicate Less(a: string, b: string)
    decreases |a|
  {
    |b| > 0 && (|a| == 0 || a[0] < b[0] || (a[0] == b[0] && Less(a[1..], b[1..])))
  }

  lemma {:induction false} LessIrreflexive(a: string)
    ensures !Less(a, a)
    decreases |a|
  {
    if |a| > 0 {
      LessIrreflexive(a[1..]);
    }
  }

  lemma {:induction false} LessTransitive(a: string, b: string, c: string)
    requires Less(a, b) && Less(b, c)
    ensures Less(a, c)
    decreases |a|
  {
    if |a| > 0 && a[0] == b[0] && b[0] == c[0] {
      LessTransitive(a[1..], b[1..], c[1..]);
    }
  }

  /** Any two different strings are ordered one way or the other. */
  lemma {:induction false} LessTotal(a: string, b: string)
    requires a != b
    ensures Less(a, b) || Less(b, a)
    decreases |a|
  {
    if |a| > 0 && |b| > 0 && a[0] == b[0] {
      assert a == [a[0]] + a[1..] && b == [b[0]] + b[1..];
      LessTotal(a[1..], b[1..]);
    }
  }

  lemma LessAsymmetric(a: string, b: string)
    requires Less(a, b)
    ensures !Less(b, a)
  {
    if Less(b, a) {
      LessTransitive(a, b, a);
      LessIrreflexive(a);
    }
  }

  /** The decimal digits of `n`, most significant first, as Rust's `format!("{n}")` writes them. */
  function Decimal(n: nat): (r: string)
    ensures |r| > 0 && (forall i :: 0 <= i < |r| ==> '0' <= r[i] <= '9')
    ensures |r| > 1 ==> r[0] != '0'
    decreases n
  {
    if n < 10 then [Digit(n)] else Decimal(n / 10) + [Digit(n % 10)]
  }

  function Digit(d: nat): (c: char)
    requires d < 10
    ensures '0' <= c <= '9'
  {
    ['0', '1', '2', '3', '4', '5', '6', '7', '8', '9'][d]
  }

  /** The value of a string of decimal digits. */
  function ParseDecimal(s: string): nat
    requires forall i :: 0 <= i < |s| ==> '0' <= s[i] <= '9'
    decreases |s|
  {
    if s == [] then 0 else ParseDecimal(s[..|s| - 1]) * 10 + (s[|s| - 1] as int - '0' as int)
  }

  /** Formatting a number in decimal loses nothing: parsing the digits gives the number back. */
  lemma {:induction false} DecimalRoundTrip(n: nat)
    ensures ParseDecimal(Decimal(n)) == n
    decreases n
  {
    if n >= 10 {
      var r := Decimal(n);
      assert r[..|r| - 1] == Decimal(n / 10);
      DecimalRoundTrip(n / 10);
    }
  }
}
