/**
 * The JavaScript string operations the handlers rely on (`includes`, `indexOf`, `split(sep)[0]`,
 * `split(sep)[1]`, `startsWith`, `trim`, decimal rendering of numbers), each characterised
 * by what it returns rather than by how it searches.
 */
module JsStrings {

  /** `pat` occurs in `s` starting at index `i`. */
  predicate OccursAt(s: string, pat: string, i: nat)
  {
    i + |pat| <= |s| && s[i..i + |pat|] == pat
  }

  /** `s.includes(pat)`: the empty pattern is always included, a longer one never. */
  predicate Contains(s: string, pat: string)
    ensures pat == [] ==> Contains(s, pat)
    ensures |pat| > |s| ==> !Contains(s, pat)
  {
    assert pat == [] ==> OccursAt(s, pat, 0);
    exists i | 0 <= i <= |s| :: OccursAt(s, pat, i)
  }

  /** `s.startsWith(p)`: `p` is a prefix of `s`. */
  predicate StartsWith(s: string, p: string)
  {
    |p| <= |s| && s[..|p|] == p
  }

  function IndexFrom(s: string, pat: string, from: nat): (r: int)
    requires from <= |s|
    decreases |s| - from
    ensures r == -1 || (from <= r <= |s| && OccursAt(s, pat, r))
    ensures r == -1 ==> forall k :: from <= k <= |s| ==> !OccursAt(s, pat, k)
    ensures r != -1 ==> forall k :: from <= k < r ==> !OccursAt(s, pat, k)
  {
    if OccursAt(s, pat, from) then from
    else if from == |s| then -1
    else IndexFrom(s, pat, from + 1)
  }

  /** `s.indexOf(pat)`: the first index at which `pat` occurs, or -1. */
  function IndexOf(s: string, pat: string): (r: int)
    ensures r == -1 || (0 <= r <= |s| - |pat| && OccursAt(s, pat, r))
    ensures r != -1 ==> forall k :: 0 <= k < r ==> !OccursAt(s, pat, k)
    ensures r == -1 <==> !Contains(s, pat)
  {
    IndexFrom(s, pat, 0)
  }

  /** The first occurrence of `pat` is the one `indexOf` reports. */
  lemma {:induction false} IndexOfIsFirst(s: string, pat: string, p: nat)
    requires OccursAt(s, pat, p)
    requires forall k :: 0 <= k < p ==> !OccursAt(s, pat, k)
    ensures IndexOf(s, pat) == p
  {
    assert Contains(s, pat);
  }

  /** `startsWith` agrees with `indexOf` reporting 0, and a string with that prefix is the prefix plus its rest. */
  lemma {:induction false} StartsWithIndexOf(s: string, p: string)
    ensures StartsWith(s, p) <==> IndexOf(s, p) == 0
    ensures StartsWith(s, p) ==> s == p + s[|p|..]
  {
    if StartsWith(s, p) {
      IndexOfIsFirst(s, p, 0);
      assert s == s[..|p|] + s[|p|..];
    }
  }

  /** Occurrences inside the slice `s[lo..hi]` are the occurrences in `s` that fit between `lo` and `hi`. */
  lemma {:induction false} OccursInSlice(s: string, lo: nat, hi: nat, pat: string, i: nat)
    requires lo <= hi <= |s|
    ensures OccursAt(s[lo..hi], pat, i) <==> lo + i + |pat| <= hi && OccursAt(s, pat, lo + i)
  {
    if lo + i + |pat| <= hi {
      var u, v := s[lo..hi][i..i + |pat|], s[lo + i..lo + i + |pat|];
      forall k | 0 <= k < |pat| ensures u[k] == v[k] {
      }
      assert u == v;
    }
  }

  /** `s.split(sep)[0]` for a non-empty `sep`: everything before the first occurrence of `sep`, or all of `s`. */
  function SplitFirst(s: string, sep: string): (r: string)
    requires sep != ""
    ensures |r| <= |s| && r == s[..|r|]
    ensures |r| == |s| || OccursAt(s, sep, |r|)
    ensures forall k :: 0 <= k < |r| ==> !OccursAt(s, sep, k)
    ensures !Contains(r, sep)
  {
    var i := IndexOf(s, sep);
    if i == -1 then s
    else
      NoOccurrenceInPrefix(s, sep, i);
      s[..i]
  }

  /**
   * `s.split(sep)[1]` for a non-empty `sep` and an `s` that contains `sep`: what lies between
   * the end of the first occurrence of `sep` and the next occurrence that starts from there on
   * (or the end of `s`).
   */
  function SplitSecond(s: string, sep: string): (r: string)
    requires sep != "" && Contains(s, sep)
    ensures var b := IndexOf(s, sep) + |sep|; b + |r| <= |s| && r == s[b..b + |r|]
    ensures var b := IndexOf(s, sep) + |sep|; b + |r| == |s| || OccursAt(s, sep, b + |r|)
    ensures var b := IndexOf(s, sep) + |sep|; forall k :: b <= k < b + |r| ==> !OccursAt(s, sep, k)
    ensures !Contains(r, sep)
  {
    var b := IndexOf(s, sep) + |sep|;
    var rest := s[b..];
    OccursInSuffix(s, sep, b);
    var r := SplitFirst(rest, sep);
    SliceOfSuffix(s, b, r);
    r
  }

  /** Occurrences in the suffix `s[b..]` are the occurrences in `s` from `b` on, shifted by `b`. */
  lemma {:induction false} OccursInSuffix(s: string, pat: string, b: nat)
    requires b <= |s|
    ensures forall k :: b <= k <= |s| ==> (OccursAt(s, pat, k) <==> OccursAt(s[b..], pat, k - b))
  {
    forall k | b <= k <= |s| ensures OccursAt(s, pat, k) <==> OccursAt(s[b..], pat, k - b) {
      if k + |pat| <= |s| {
        assert s[b..][k - b..k - b + |pat|] == s[k..k + |pat|];
      }
    }
  }

  /** A prefix of the slice `s[lo..hi]` is the slice of `s` of that length starting at `lo`. */
  lemma {:induction false} PrefixOfSlice(s: string, lo: nat, hi: nat, n: nat)
    requires lo <= hi <= |s| && n <= hi - lo
    ensures s[lo..hi][..n] == s[lo..lo + n]
  {
  }

  /** A prefix of the suffix `s[b..]` is the slice of `s` starting at `b`. */
  lemma {:induction false} SliceOfSuffix(s: string, b: nat, r: string)
    requires b <= |s| && |r| <= |s| - b && r == s[b..][..|r|]
    ensures r == s[b..b + |r|]
  {
    assert s[b..][..|r|] == s[b..b + |r|];
  }

  lemma {:induction false} NoOccurrenceInPrefix(s: string, pat: string, i: nat)
    requires pat != "" && i <= |s|
    requires forall k :: 0 <= k < i ==> !OccursAt(s, pat, k)
    ensures !Contains(s[..i], pat)
  {
    forall k | 0 <= k <= i && OccursAt(s[..i], pat, k)
      ensures false
    {
      assert s[..i][k..k + |pat|] == s[k..k + |pat|];
      assert OccursAt(s, pat, k);
    }
  }

  /**
   * ECMAScript WhiteSpace and LineTerminator code points: what `String.prototype.trim` removes
   * (U+0009 to U+000D, space, no-break space, U+1680, U+2000 to U+200A, the line and paragraph
   * separators U+2028 and U+2029, U+202F, U+205F, U+3000 and the byte order mark U+FEFF).
   */
  predicate IsWhiteSpace(c: char)
  {
    var n := c as int;
    if n < 0x1680 then (9 <= n <= 13 || n == 0x20 || n == 0xA0)
    else (n == 0x1680 || 0x2000 <= n <= 0x200A || n == 0x2028 || n == 0x2029 || n == 0x202F
          || n == 0x205F || n == 0x3000 || n == 0xFEFF)
  }

  /** `s.trimStart()`: the longest suffix of `s` that does not start with white space. */
  function TrimStart(s: string): (r: string)
    ensures |r| <= |s| && r == s[|s| - |r|..]
    ensures forall k :: 0 <= k < |s| - |r| ==> IsWhiteSpace(s[k])
    ensures r == [] || !IsWhiteSpace(r[0])
  {
    if s != [] && IsWhiteSpace(s[0]) then TrimStart(s[1..]) else s
  }

  /** `s.trimEnd()`: the longest prefix of `s` that does not end with white space. */
  function TrimEnd(s: string): (r: string)
    ensures |r| <= |s| && r == s[..|r|]
    ensures forall k :: |r| <= k < |s| ==> IsWhiteSpace(s[k])
    ensures r == [] || !IsWhiteSpace(r[|r| - 1])
  {
    if s != [] && IsWhiteSpace(s[|s| - 1]) then TrimEnd(s[..|s| - 1]) else s
  }

  /** `s.trim()`: no white space is left at either end. */
  function Trim(s: string): (r: string)
    ensures |r| <= |s|
    ensures r == [] || (!IsWhiteSpace(r[0]) && !IsWhiteSpace(r[|r| - 1]))
  {
    var t := TrimStart(s);
    var r := TrimEnd(t);
    assert r != [] ==> r[0] == t[0];
    r
  }

  /** A string without white space at either end is its own trim. */
  lemma {:induction false} TrimOfTrimmed(s: string)
    requires s == [] || (!IsWhiteSpace(s[0]) && !IsWhiteSpace(s[|s| - 1]))
    ensures Trim(s) == s
  {
  }

  /** `trim` returns the slice of `s` that starts after the leading white space. */
  lemma {:induction false} TrimSlice(s: string)
    ensures var a := |s| - |TrimStart(s)|; a + |Trim(s)| <= |s| && Trim(s) == s[a..a + |Trim(s)|]
  {
    var t := TrimStart(s);
    var r := TrimEnd(t);
    PrefixOfSuffix(s, t, r);
  }

  /** A prefix `r` of a suffix `t` of `s` is a slice of `s`. */
  lemma {:induction false} PrefixOfSuffix(s: string, t: string, r: string)
    requires |t| <= |s| && t == s[|s| - |t|..]
    requires |r| <= |t| && r == t[..|r|]
    ensures var a := |s| - |t|; a + |r| <= |s| && r == s[a..a + |r|]
  {
    var a := |s| - |t|;
    var u := s[a..a + |r|];
    forall i | 0 <= i < |r| ensures r[i] == u[i] {
      assert r[i] == t[i] == s[a + i];
    }
    assert r == u;
  }

  /** Everything after that slice is white space. */
  lemma {:induction false} TrimDropsTrailing(s: string)
    ensures forall k :: |s| - |TrimStart(s)| + |Trim(s)| <= k < |s| ==> IsWhiteSpace(s[k])
  {
    var t := TrimStart(s);
    WhiteTail(s, t, TrimEnd(t));
  }

  /** White space after a prefix `r` of a suffix `t` of `s` is white space of `s`. */
  lemma {:induction false} WhiteTail(s: string, t: string, r: string)
    requires |t| <= |s| && t == s[|s| - |t|..] && |r| <= |t|
    requires forall k :: |r| <= k < |t| ==> IsWhiteSpace(t[k])
    ensures forall k :: |s| - |t| + |r| <= k < |s| ==> IsWhiteSpace(s[k])
  {
    var a := |s| - |t|;
    forall k | a + |r| <= k < |s| ensures IsWhiteSpace(s[k]) {
      assert s[k] == t[k - a];
    }
  }

  /**
   * `trim` removes exactly the white space at both ends: its result is a contiguous slice `s[a..b]`
   * of `s`, everything outside the slice is white space, and the slice neither starts nor ends
   * with white space.
   */
  lemma {:induction false} TrimIsSlice(s: string)
    ensures var r := Trim(s); var a := |s| - |TrimStart(s)|;
      && a + |r| <= |s| && r == s[a..a + |r|]
      && (forall k :: 0 <= k < a ==> IsWhiteSpace(s[k]))
      && (forall k :: a + |r| <= k < |s| ==> IsWhiteSpace(s[k]))
      && (r == [] || (!IsWhiteSpace(r[0]) && !IsWhiteSpace(r[|r| - 1])))
  {
    TrimSlice(s);
    TrimDropsTrailing(s);
  }

  /** `trim` is idempotent. */
  lemma {:induction false} TrimIdempotent(s: string)
    ensures Trim(Trim(s)) == Trim(s)
  {
    TrimIsSlice(s);
    TrimOfTrimmed(Trim(s));
  }

  function DigitChar(d: nat): (c: char)
    requires d < 10
    ensures '0' <= c <= '9' && DigitValue(c) == d
  {
    ('0' as int + d) as char
  }

  function DigitValue(c: char): int
  {
    c as int - '0' as int
  }

  /** Reference reading of a string of decimal digits, most significant first (Horner's rule). */
  function DecimalValue(s: string): int
  {
    if s == [] then 0 else 10 * DecimalValue(s[..|s| - 1]) + DigitValue(s[|s| - 1])
  }

  /**
   * Decimal text of a natural number, as a template literal renders it: digits only, and a
   * leading `0` only for zero itself.
   */
  function NatToDecimal(n: nat): (r: string)
    ensures |r| > 0
    ensures forall k :: 0 <= k < |r| ==> '0' <= r[k] <= '9'
    ensures r[0] == '0' <==> n == 0
    ensures |r| == 1 <==> n < 10
  {
    if n < 10 then [DigitChar(n)] else NatToDecimal(n / 10) + [DigitChar(n % 10)]
  }

  /** The rendered digits denote the number. */
  lemma {:induction false} DecimalRoundTrip(n: nat)
    ensures DecimalValue(NatToDecimal(n)) == n
  {
    var r := NatToDecimal(n);
    if n >= 10 {
      DecimalRoundTrip(n / 10);
      assert r[..|r| - 1] == NatToDecimal(n / 10);
    }
  }
}
