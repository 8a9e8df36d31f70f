/** String helpers shared by the services: ECMAScript `String.prototype.trim`,
    `Array.prototype.join`, decimal rendering of counters, and `substring(0, n)`. */
module Text {

  /** The characters ECMAScript's `trim` and the regular expression `\s` treat as
      white space: the WhiteSpace and LineTerminator productions (ECMA-262, 12.2 and 12.3). */
  predicate IsJsWhitespace(c: char)
  {
    var n := c as int;
    (9 <= n <= 13) || n == 0x20 || n == 0xA0 || n == 0x1680 || (0x2000 <= n <= 0x200A) ||
    n == 0x2028 || n == 0x2029 || n == 0x202F || n == 0x205F || n == 0x3000 || n == 0xFEFF
  }

  predicate AllWhitespace(s: string)
  {
    forall i :: 0 <= i < |s| ==> IsJsWhitespace(s[i])
  }

  /** Every character of `s` at a position in `[lo, hi)` is white space. */
  predicate WhitespaceIn(s: string, lo: int, hi: int)
  {
    forall i :: lo <= i < hi && 0 <= i < |s| ==> IsJsWhitespace(s[i])
  }

  /** The first position at or after `i` that does not hold white space, or `|s|`:
      the forward scan of `trim`. */
  function FirstNonSpace(s: string, i: nat): (k: nat)
    requires i <= |s|
    ensures i <= k <= |s| && WhitespaceIn(s, i, k)
    ensures k < |s| ==> !IsJsWhitespace(s[k])
    decreases |s| - i
  {
    if i < |s| && IsJsWhitespace(s[i]) then FirstNonSpace(s, i + 1) else i
  }

  /** The end of the text before `j` once the white space in front of `j` is dropped,
      never going below `lo`: the backward scan of `trim`. */
  function TrimmedEnd(s: string, lo: nat, j: nat): (e: nat)
    requires lo <= j <= |s|
    ensures lo <= e <= j && WhitespaceIn(s, e, j)
    ensures e > lo ==> !IsJsWhitespace(s[e - 1])
  {
    if j > lo && IsJsWhitespace(s[j - 1]) then TrimmedEnd(s, lo, j - 1) else j
  }

  /** Where `Trim(s)` starts inside `s`. */
  function TrimOffset(s: string): (k: nat)
    ensures k <= |s|
  {
    FirstNonSpace(s, 0)
  }

  /** `r` is what remains of `s` once its first `k` characters and some characters after
      `r` are removed, all of them white space, and `r` has no white space at either end. */
  predicate IsTrimmed(s: string, k: int, r: string)
  {
    && 0 <= k && k + |r| <= |s|
    && r == s[k..k + |r|]
    && WhitespaceIn(s, 0, k) && WhitespaceIn(s, k + |r|, |s|)
    && (r != [] ==> !IsJsWhitespace(r[0]) && !IsJsWhitespace(r[|r| - 1]))
  }

  /** ECMAScript `s.trim()`: the slice of `s` between the first and the last character
      that is not white space. */
  function Trim(s: string): (r: string)
    ensures IsTrimmed(s, TrimOffset(s), r)
    ensures r == [] <==> AllWhitespace(s)
  {
    var k := TrimOffset(s);
    var e := TrimmedEnd(s, k, |s|);
    var r := s[k..e];
    assert r != [] ==> r[0] == s[k] && r[|r| - 1] == s[e - 1];
    assert r == [] ==> WhitespaceIn(s, 0, k) && WhitespaceIn(s, k, |s|);
    r
  }

  /** There is only one way to trim: any slice of `s` with only white space around it
      and none at its ends is `Trim(s)`, and when it is not empty it starts where
      `Trim(s)` does. */
  lemma TrimUnique(s: string, k: int, r: string)
    requires IsTrimmed(s, k, r)
    ensures r == Trim(s)
    ensures r != [] ==> k == TrimOffset(s)
  {
    if r == [] {
      assert WhitespaceIn(s, 0, k) && WhitespaceIn(s, k, |s|);
    } else {
      var t := Trim(s);
      assert r[0] == s[k] && r[|r| - 1] == s[k + |r| - 1];
      assert t != [] ==> t[|t| - 1] == s[TrimOffset(s) + |t| - 1];
    }
  }

  /** Trimming twice changes nothing more than trimming once. */
  lemma TrimIdempotent(s: string)
    ensures Trim(Trim(s)) == Trim(s)
  {
    var r := Trim(s);
    assert r == r[0..|r|];
    TrimUnique(r, 0, r);
  }

  /** `xs.join(sep)`: the parts in order with `sep` between neighbours. */
  function Join(parts: seq<string>, sep: string): (r: string)
    ensures |parts| == 1 ==> r == parts[0]
  {
    if parts == [] then ""
    else if |parts| == 1 then parts[0]
    else Join(parts[..|parts| - 1], sep) + sep + parts[|parts| - 1]
  }

  lemma JoinSnoc(parts: seq<string>, sep: string, last: string)
    requires parts != []
    ensures Join(parts + [last], sep) == Join(parts, sep) + sep + last
  {
    assert (parts + [last])[..|parts|] == parts;
  }

  /** Every part occurs in the joined text, at the offset it returns. */
  lemma {:induction false} JoinHoldsPart(parts: seq<string>, sep: string, i: nat) returns (k: nat)
    requires i < |parts|
    ensures k + |parts[i]| <= |Join(parts, sep)|
    ensures Join(parts, sep)[k..k + |parts[i]|] == parts[i]
  {
    var n := |parts| - 1;
    if n == 0 {
      k := 0;
    } else {
      var init := parts[..n];
      assert parts == init + [parts[n]];
      JoinSnoc(init, sep, parts[n]);
      var j := Join(init, sep);
      if i < n {
        k := JoinHoldsPart(init, sep, i);
        assert Join(parts, sep)[k..k + |parts[i]|] == j[k..k + |parts[i]|];
      } else {
        k := |j| + |sep|;
      }
    }
  }

  // ----- Slices of joined text --------------------------------------------------------

  lemma JoinAssoc(a: string, b: string, c: string)
    ensures a + (b + c) == (a + b) + c
  {
  }

  lemma JoinAssoc4(a: string, b: string, c: string, d: string)
    ensures a + b + c + d == a + (b + (c + d))
  {
  }

  /** The first `n` characters of a joined text that reach into its back part. */
  lemma PrefixOfJoin(a: string, b: string, n: nat)
    requires |a| <= n <= |a| + |b|
    ensures (a + b)[..n] == a + b[..n - |a|]
  {
  }

  /** A slice of the front part of a joined text is a slice of that part. */
  lemma SliceInFront(x: string, y: string, lo: nat, hi: nat)
    requires lo <= hi <= |x|
    ensures (x + y)[lo..hi] == x[lo..hi]
  {
  }

  /** A slice of the back part, shifted by the length of the front part. */
  lemma SliceAfterFront(x: string, y: string, j: nat, n: nat)
    requires j + n <= |y|
    ensures (x + y)[|x| + j..|x| + j + n] == y[j..j + n]
  {
  }

  /** A slice of what follows the first `d` elements is a slice of the whole, shifted by `d`. */
  lemma SliceOfDrop<T>(xs: seq<T>, d: nat, lo: nat, hi: nat)
    requires d <= |xs| && lo <= hi <= |xs| - d
    ensures xs[d..][lo..hi] == xs[d + lo..d + hi]
  {
  }

  /** A prefix one element longer ends with that element. */
  lemma SliceSnoc<T>(xs: seq<T>, n: nat)
    requires n < |xs|
    ensures xs[..n + 1] == xs[..n] + [xs[n]]
  {
  }

  function Min(a: int, b: int): int
  {
    if a <= b then a else b
  }

  /** `s.substring(0, n)`: the first `n` characters, or all of `s` when it is shorter. */
  function Prefix(s: string, n: nat): (r: string)
    ensures |r| == if |s| < n then |s| else n
    ensures r <= s
  {
    if |s| <= n then s else s[..n]
  }

  predicate IsDigit(c: char)
  {
    '0' <= c <= '9'
  }

  function DigitChar(d: nat): (c: char)
    requires d < 10
    ensures IsDigit(c) && c as int - '0' as int == d
  {
    ['0', '1', '2', '3', '4', '5', '6', '7', '8', '9'][d]
  }

  /** The decimal text JavaScript produces for a non-negative integer
      (template literals, `String(n)`): no sign, no leading zeros. */
  function NatToString(n: nat): (s: string)
    ensures |s| > 0 && forall i :: 0 <= i < |s| ==> IsDigit(s[i])
    ensures s[0] == '0' ==> n == 0
  {
    if n < 10 then [DigitChar(n)] else NatToString(n / 10) + [DigitChar(n % 10)]
  }

  /** The value of a string of decimal digits. */
  function DigitValue(c: char): nat
    requires IsDigit(c)
  {
    c as int - '0' as int
  }

  function DecimalValue(s: string): nat
    requires forall i :: 0 <= i < |s| ==> IsDigit(s[i])
  {
    if s == [] then 0
    else DecimalValue(s[..|s| - 1]) * 10 + DigitValue(s[|s| - 1])
  }

  /** Reading back the rendered number gives the number: the rendering loses nothing. */
  lemma {:induction false} DecimalRoundTrip(n: nat)
    ensures DecimalValue(NatToString(n)) == n
  {
    if n >= 10 {
      DecimalRoundTrip(n / 10);
      var s := NatToString(n);
      assert s[..|s| - 1] == NatToString(n / 10);
    }
  }

  /** Distinct numbers render as distinct strings. */
  lemma NatToStringInjective(m: nat, n: nat)
    requires NatToString(m) == NatToString(n)
    ensures m == n
  {
    DecimalRoundTrip(m);
    DecimalRoundTrip(n);
  }

  lemma NatToStringDistinct(m: nat, n: nat)
    requires m != n
    ensures NatToString(m) != NatToString(n)
  {
    DecimalRoundTrip(m);
    DecimalRoundTrip(n);
  }
}
