/** The two encodings behind the embedding cache key: `Buffer.from(text)` is the
    UTF-8 encoding of the text (RFC 3629), and `toString('base64')` is the Base64
    encoding with padding (RFC 4648, section 4). Each encoder comes with a decoder
    and the proof that decoding undoes it. */
module Encoding {
  import opened Wrappers
  import opened Text

  newtype Byte = x: int | 0 <= x < 256

  // ----- UTF-8 ---------------------------------------------------------------------

  predicate IsScalar(n: int)
  {
    (0 <= n < 0xD800) || (0xE000 <= n < 0x110000)
  }

  /** The UTF-8 bytes of one Unicode scalar value (RFC 3629, section 3). The value
      is split into 6-bit groups from the low end: `n == 64 * m1 + d0`,
      `m1 == 64 * m2 + d1`, `m2 == 64 * m3 + d2`; each continuation byte carries one
      group and the lead byte carries the rest. */
  function EncodeScalar(c: char): (r: seq<Byte>)
    ensures 1 <= |r| <= 4
    ensures c as int < 0x80 <==> |r| == 1
  {
    var n := c as int;
    var d0, m1 := n % 64, n / 64;
    var d1, m2 := m1 % 64, m1 / 64;
    var d2, m3 := m2 % 64, m2 / 64;
    if n < 0x80 then [n as Byte]
    else if n < 0x800 then [(0xC0 + m1) as Byte, (0x80 + d0) as Byte]
    else if n < 0x10000 then [(0xE0 + m2) as Byte, (0x80 + d1) as Byte, (0x80 + d0) as Byte]
    else [(0xF0 + m3) as Byte, (0x80 + d2) as Byte, (0x80 + d1) as Byte, (0x80 + d0) as Byte]
  }

  /** The UTF-8 encoding of a string: the encodings of its characters, in order. */
  function Utf8(s: string): (r: seq<Byte>)
    ensures |r| >= |s|
  {
    if s == [] then [] else EncodeScalar(s[0]) + Utf8(s[1..])
  }

  lemma {:induction false} Utf8Append(a: string, b: string)
    ensures Utf8(a + b) == Utf8(a) + Utf8(b)
  {
    if a != [] {
      assert (a + b)[0] == a[0];
      assert (a + b)[1..] == a[1..] + b;
      Utf8Append(a[1..], b);
    } else {
      assert a + b == b;
    }
  }

  predicate IsContinuation(b: Byte)
  {
    0x80 <= b < 0xC0
  }

  function Payload(b: Byte): int
  {
    b as int % 0x40
  }

  /** Reads one scalar value from the front of `bs`: the character and the number of
      bytes it took, or `None` when the bytes are not well-formed UTF-8. */
  function DecodeScalar(bs: seq<Byte>): (r: Option<(char, nat)>)
    ensures r.Some? ==> 1 <= r.value.1 <= |bs|
  {
    if bs == [] then None
    else
      var b0 := bs[0] as int;
      if b0 < 0x80 then Some((b0 as char, 1))
      else if 0xC2 <= b0 < 0xE0 && |bs| >= 2 && IsContinuation(bs[1]) then
        Some((((b0 - 0xC0) * 64 + Payload(bs[1])) as char, 2))
      else if 0xE0 <= b0 < 0xF0 && |bs| >= 3 && IsContinuation(bs[1]) && IsContinuation(bs[2]) then
        var n := ((b0 - 0xE0) * 64 + Payload(bs[1])) * 64 + Payload(bs[2]);
        if 0x800 <= n && IsScalar(n) then Some((n as char, 3)) else None
      else if 0xF0 <= b0 < 0xF5 && |bs| >= 4 && IsContinuation(bs[1]) && IsContinuation(bs[2])
              && IsContinuation(bs[3]) then
        var n := (((b0 - 0xF0) * 64 + Payload(bs[1])) * 64 + Payload(bs[2])) * 64 + Payload(bs[3]);
        if 0x10000 <= n < 0x110000 then Some((n as char, 4)) else None
      else None
  }

  /** Decodes a whole byte string, or `None` when it is not well-formed UTF-8. */
  function DecodeUtf8(bs: seq<Byte>): Option<string>
    decreases |bs|
  {
    if bs == [] then Some([])
    else match DecodeScalar(bs)
      case None => None
      case Some((c, k)) =>
        match DecodeUtf8(bs[k..])
        case None => None
        case Some(rest) => Some([c] + rest)
  }

  lemma DecodeEncodeScalar(c: char, rest: seq<Byte>)
    ensures DecodeScalar(EncodeScalar(c) + rest) == Some((c, |EncodeScalar(c)|))
  {
    var n := c as int;
    if n < 0x80 {
      DecodeOneByte(c, rest);
    } else if n < 0x800 {
      DecodeTwoBytes(c, rest);
    } else if n < 0x10000 {
      DecodeThreeBytes(c, rest);
    } else {
      DecodeFourBytes(c, rest);
    }
  }

  lemma DecodeOneByte(c: char, rest: seq<Byte>)
    requires c as int < 0x80
    ensures DecodeScalar(EncodeScalar(c) + rest) == Some((c, 1))
  {
    var bs := EncodeScalar(c) + rest;
    assert bs[0] as int == c as int;
  }

  lemma DecodeTwoBytes(c: char, rest: seq<Byte>)
    requires 0x80 <= c as int < 0x800
    ensures DecodeScalar(EncodeScalar(c) + rest) == Some((c, 2))
  {
    var n := c as int;
    var d0, m1 := n % 64, n / 64;
    var bs := EncodeScalar(c) + rest;
    assert bs[0] as int == 0xC0 + m1 && bs[1] as int == 0x80 + d0;
    assert Payload(bs[1]) == d0;
    assert m1 * 64 + d0 == n;
  }

  lemma DecodeThreeBytes(c: char, rest: seq<Byte>)
    requires 0x800 <= c as int < 0x10000
    ensures DecodeScalar(EncodeScalar(c) + rest) == Some((c, 3))
  {
    var n := c as int;
    var d0, m1 := n % 64, n / 64;
    var d1, m2 := m1 % 64, m1 / 64;
    var bs := EncodeScalar(c) + rest;
    assert bs[0] as int == 0xE0 + m2 && bs[1] as int == 0x80 + d1 && bs[2] as int == 0x80 + d0;
    assert Payload(bs[1]) == d1 && Payload(bs[2]) == d0;
    assert (m2 * 64 + d1) * 64 + d0 == n;
  }

  lemma DecodeFourBytes(c: char, rest: seq<Byte>)
    requires 0x10000 <= c as int
    ensures DecodeScalar(EncodeScalar(c) + rest) == Some((c, 4))
  {
    var n := c as int;
    var d0, m1 := n % 64, n / 64;
    var d1, m2 := m1 % 64, m1 / 64;
    var d2, m3 := m2 % 64, m2 / 64;
    var bs := EncodeScalar(c) + rest;
    assert bs[0] as int == 0xF0 + m3 && bs[1] as int == 0x80 + d2;
    assert bs[2] as int == 0x80 + d1 && bs[3] as int == 0x80 + d0;
    assert Payload(bs[1]) == d2 && Payload(bs[2]) == d1 && Payload(bs[3]) == d0;
    assert ((m3 * 64 + d2) * 64 + d1) * 64 + d0 == n;
  }

  /** Decoding the UTF-8 bytes of a string gives the string back. */
  lemma {:induction false} Utf8RoundTrip(s: string)
    ensures DecodeUtf8(Utf8(s)) == Some(s)
  {
    if s != [] {
      var e := EncodeScalar(s[0]);
      DecodeEncodeScalar(s[0], Utf8(s[1..]));
      assert (e + Utf8(s[1..]))[|e|..] == Utf8(s[1..]);
      Utf8RoundTrip(s[1..]);
      assert [s[0]] + s[1..] == s;
    }
  }

  /** Distinct strings have distinct encodings. */
  lemma Utf8Injective(a: string, b: string)
    requires Utf8(a) == Utf8(b)
    ensures a == b
  {
    Utf8RoundTrip(a);
    Utf8RoundTrip(b);
  }

  // ----- Base64 --------------------------------------------------------------------

  /** The character for a 6-bit value, per the alphabet of RFC 4648, table 1. */
  function Sextet(v: int): (c: char)
    requires 0 <= v < 64
    ensures c != '='
  {
    if v < 26 then ('A' as int + v) as char
    else if v < 52 then ('a' as int + v - 26) as char
    else if v < 62 then ('0' as int + v - 52) as char
    else if v == 62 then '+'
    else '/'
  }

  function SextetValue(c: char): Option<int>
  {
    if 'A' <= c <= 'Z' then Some(c as int - 'A' as int)
    else if 'a' <= c <= 'z' then Some(c as int - 'a' as int + 26)
    else if '0' <= c <= '9' then Some(c as int - '0' as int + 52)
    else if c == '+' then Some(62)
    else if c == '/' then Some(63)
    else None
  }

  lemma SextetRoundTrip(v: int)
    requires 0 <= v < 64
    ensures SextetValue(Sextet(v)) == Some(v)
  {
  }

  /** The four characters for three bytes. */
  function Group3(b0: Byte, b1: Byte, b2: Byte): (q: string)
    ensures |q| == 4
  {
    var x0, x1, x2 := b0 as int, b1 as int, b2 as int;
    [Sextet(x0 / 4), Sextet(x0 % 4 * 16 + x1 / 16), Sextet(x1 % 16 * 4 + x2 / 64), Sextet(x2 % 64)]
  }

  /** The final group for two remaining bytes. */
  function Group2(b0: Byte, b1: Byte): (q: string)
    ensures |q| == 4
  {
    var x0, x1 := b0 as int, b1 as int;
    [Sextet(x0 / 4), Sextet(x0 % 4 * 16 + x1 / 16), Sextet(x1 % 16 * 4), '=']
  }

  /** The final group for one remaining byte. */
  function Group1(b0: Byte): (q: string)
    ensures |q| == 4
  {
    var x0 := b0 as int;
    [Sextet(x0 / 4), Sextet(x0 % 4 * 16), '=', '=']
  }

  /** Base64 with `=` padding: every 3 bytes become 4 characters, and a final group
      of 1 or 2 bytes becomes 2 or 3 characters followed by padding. */
  function Base64(bs: seq<Byte>): (r: string)
    ensures |r| == 4 * ((|bs| + 2) / 3)
  {
    if |bs| == 0 then ""
    else if |bs| == 1 then Group1(bs[0])
    else if |bs| == 2 then Group2(bs[0], bs[1])
    else
      assert (|bs| + 2) / 3 == (|bs| - 3 + 2) / 3 + 1;
      Group3(bs[0], bs[1], bs[2]) + Base64(bs[3..])
  }

  /** Reads one 4-character group back into 1 to 3 bytes. */
  function DecodeQuad(q: string): Option<seq<Byte>>
    requires |q| == 4
  {
    match (SextetValue(q[0]), SextetValue(q[1]))
    case (Some(v0), Some(v1)) =>
      var b0 := (v0 * 4 + v1 / 16) as Byte;
      if q[2] == '=' && q[3] == '=' then Some([b0])
      else
        (match SextetValue(q[2])
         case None => None
         case Some(v2) =>
           var b1 := (v1 % 16 * 16 + v2 / 4) as Byte;
           if q[3] == '=' then Some([b0, b1])
           else
             match SextetValue(q[3])
             case None => None
             case Some(v3) => Some([b0, b1, (v2 % 4 * 64 + v3) as Byte]))
    case _ => None
  }

  function DecodeBase64(s: string): Option<seq<Byte>>
  {
    if s == [] then Some([])
    else if |s| < 4 then None
    else match (DecodeQuad(s[..4]), DecodeBase64(s[4..]))
      case (Some(g), Some(rest)) => Some(g + rest)
      case _ => None
  }

  lemma DecodeGroup3(b0: Byte, b1: Byte, b2: Byte)
    ensures DecodeQuad(Group3(b0, b1, b2)) == Some([b0, b1, b2])
  {
    var x0, x1, x2 := b0 as int, b1 as int, b2 as int;
    var v0, v1, v2, v3 := x0 / 4, x0 % 4 * 16 + x1 / 16, x1 % 16 * 4 + x2 / 64, x2 % 64;
    SextetRoundTrip(v0);
    SextetRoundTrip(v1);
    SextetRoundTrip(v2);
    SextetRoundTrip(v3);
    assert v1 / 16 == x0 % 4 && v1 % 16 == x1 / 16;
    assert v2 / 4 == x1 % 16 && v2 % 4 == x2 / 64;
    assert v0 * 4 + v1 / 16 == x0;
    assert v1 % 16 * 16 + v2 / 4 == x1;
    assert v2 % 4 * 64 + v3 == x2;
  }

  lemma DecodeGroup2(b0: Byte, b1: Byte)
    ensures DecodeQuad(Group2(b0, b1)) == Some([b0, b1])
  {
    var x0, x1 := b0 as int, b1 as int;
    var v0, v1, v2 := x0 / 4, x0 % 4 * 16 + x1 / 16, x1 % 16 * 4;
    SextetRoundTrip(v0);
    SextetRoundTrip(v1);
    SextetRoundTrip(v2);
    assert v1 / 16 == x0 % 4 && v1 % 16 == x1 / 16;
    assert v2 / 4 == x1 % 16;
    assert v0 * 4 + v1 / 16 == x0;
    assert v1 % 16 * 16 + v2 / 4 == x1;
  }

  lemma DecodeGroup1(b0: Byte)
    ensures DecodeQuad(Group1(b0)) == Some([b0])
  {
    var x0 := b0 as int;
    var v0, v1 := x0 / 4, x0 % 4 * 16;
    SextetRoundTrip(v0);
    SextetRoundTrip(v1);
    assert v1 / 16 == x0 % 4;
    assert v0 * 4 + v1 / 16 == x0;
  }

  lemma LastGroup(s: string, g: seq<Byte>)
    requires |s| == 4 && DecodeQuad(s) == Some(g)
    ensures DecodeBase64(s) == Some(g)
  {
    assert s[..4] == s && s[4..] == [];
    assert g + [] == g;
  }

  /** Decoding the Base64 text of some bytes gives the bytes back. */
  lemma {:induction false} Base64RoundTrip(bs: seq<Byte>)
    ensures DecodeBase64(Base64(bs)) == Some(bs)
  {
    if |bs| < 3 {
      Base64RoundTripShort(bs);
    } else {
      Base64RoundTrip(bs[3..]);
      Base64RoundTripCons(bs);
    }
  }

  /** The round trip for the empty text and a final group of one or two bytes. */
  lemma Base64RoundTripShort(bs: seq<Byte>)
    requires |bs| < 3
    ensures DecodeBase64(Base64(bs)) == Some(bs)
  {
    if |bs| == 1 {
      DecodeGroup1(bs[0]);
      LastGroup(Base64(bs), [bs[0]]);
      ShortBytes(bs);
    } else if |bs| == 2 {
      DecodeGroup2(bs[0], bs[1]);
      LastGroup(Base64(bs), [bs[0], bs[1]]);
      ShortBytes(bs);
    }
  }

  lemma ShortBytes(bs: seq<Byte>)
    ensures |bs| == 1 ==> bs == [bs[0]]
    ensures |bs| == 2 ==> bs == [bs[0], bs[1]]
  {
  }

  /** The round trip extends over one more leading group of three bytes. */
  lemma Base64RoundTripCons(bs: seq<Byte>)
    requires |bs| >= 3 && DecodeBase64(Base64(bs[3..])) == Some(bs[3..])
    ensures DecodeBase64(Base64(bs)) == Some(bs)
  {
    var g := [bs[0], bs[1], bs[2]];
    Base64Cons(bs);
    DecodeGroup3(bs[0], bs[1], bs[2]);
    SplitThree(bs);
    DecodeCons(Group3(bs[0], bs[1], bs[2]), Base64(bs[3..]), g, bs[3..]);
  }

  lemma SplitThree(bs: seq<Byte>)
    requires |bs| >= 3
    ensures bs == [bs[0], bs[1], bs[2]] + bs[3..]
  {
  }

  lemma Base64Cons(bs: seq<Byte>)
    requires |bs| >= 3
    ensures Base64(bs) == Group3(bs[0], bs[1], bs[2]) + Base64(bs[3..])
  {
  }

  /** A decodable group followed by decodable text decodes to the group's bytes
      followed by the text's. */
  lemma DecodeCons(q: string, rest: string, g: seq<Byte>, tail: seq<Byte>)
    requires |q| == 4 && DecodeQuad(q) == Some(g) && DecodeBase64(rest) == Some(tail)
    ensures DecodeBase64(q + rest) == Some(g + tail)
  {
    var s := q + rest;
    assert s[..4] == q && s[4..] == rest;
  }

  /** Dropping the first three elements commutes with cutting at `n`. */
  lemma SliceAfterThree<T>(bs: seq<T>, n: nat)
    requires 3 <= n <= |bs|
    ensures bs[..n][3..] == bs[3..][..n - 3]
    ensures bs[3..][n - 3..] == bs[n..]
  {
  }

  /** The first `4k` characters of the Base64 text depend only on the first `3k`
      bytes. */
  lemma {:induction false} Base64PrefixGroups(bs: seq<Byte>, k: nat)
    requires 3 * k <= |bs|
    ensures Base64(bs)[..4 * k] == Base64(bs[..3 * k])
  {
    if k > 0 {
      var p := bs[..3 * k];
      Base64PrefixGroups(bs[3..], k - 1);
      SliceAfterThree(bs, 3 * k);
      assert p[0] == bs[0] && p[1] == bs[1] && p[2] == bs[2];
      Base64Cons(bs);
      Base64Cons(p);
      PrefixOfJoin(Group3(bs[0], bs[1], bs[2]), Base64(bs[3..]), 4 * k);
    }
  }

  /** Splits the Base64 text at a group boundary. */
  lemma {:induction false} Base64Split(bs: seq<Byte>, k: nat)
    requires 3 * k <= |bs|
    ensures Base64(bs) == Base64(bs[..3 * k]) + Base64(bs[3 * k..])
  {
    if k > 0 {
      var p := bs[..3 * k];
      Base64Split(bs[3..], k - 1);
      SliceAfterThree(bs, 3 * k);
      assert p[0] == bs[0] && p[1] == bs[1] && p[2] == bs[2];
      Base64Cons(bs);
      Base64Cons(p);
      JoinAssoc(Group3(bs[0], bs[1], bs[2]), Base64(p[3..]), Base64(bs[3 * k..]));
    } else {
      assert bs[..0] == [] && bs[0..] == bs;
    }
  }

  /** The first two characters of a group depend only on its first two bytes. */
  lemma Base64LeadPair(x: seq<Byte>, y: seq<Byte>)
    requires |x| >= 2 && |y| >= 2 && x[..2] == y[..2]
    ensures Base64(x)[..2] == Base64(y)[..2]
  {
    assert x[0] == y[0] && x[1] == y[1];
  }

  /** Byte strings that agree on their first 38 bytes agree on the first 50 characters
      of their Base64 text: twelve whole groups and the lead pair of the thirteenth. */
  lemma Base64SharedLead(x: seq<Byte>, y: seq<Byte>)
    requires |x| >= 38 && |y| >= 38 && x[..38] == y[..38]
    ensures Base64(x)[..50] == Base64(y)[..50]
  {
    SharedLeadParts(x, y);
    Base64Split(x, 12);
    Base64Split(y, 12);
    Base64Lengths(x[..36], x[36..], y[36..]);
    Base64LeadPair(x[36..], y[36..]);
    JoinedLead(Base64(x), Base64(y), Base64(x[..36]), Base64(x[36..]), Base64(y[36..]));
  }

  lemma Base64Lengths(p: seq<Byte>, rx: seq<Byte>, ry: seq<Byte>)
    requires |p| == 36 && |rx| >= 2 && |ry| >= 2
    ensures |Base64(p)| == 48 && |Base64(rx)| >= 4 && |Base64(ry)| >= 4
  {
    assert |Base64(p)| == 4 * ((36 + 2) / 3);
    StartedGroups(|rx|);
    StartedGroups(|ry|);
  }

  lemma StartedGroups(n: nat)
    requires n >= 1
    ensures 4 * ((n + 2) / 3) >= 4
  {
  }

  /** Sequences agreeing on their first 38 elements agree on their first 36, and on
      the first 2 of what follows. */
  lemma SharedLeadParts<T>(x: seq<T>, y: seq<T>)
    requires |x| >= 38 && |y| >= 38 && x[..38] == y[..38]
    ensures x[..36] == y[..36] && x[36..][..2] == y[36..][..2]
  {
    assert x[..36] == x[..38][..36] && y[..36] == y[..38][..36];
    assert x[36..][..2] == x[..38][36..] && y[36..][..2] == y[..38][36..];
  }

  /** Two texts made of the same 48 characters, each followed by a part starting with
      the same 2 characters, agree on their first 50. */
  lemma JoinedLead(ex: string, ey: string, p: string, rx: string, ry: string)
    requires |p| == 48 && |rx| >= 2 && |ry| >= 2 && rx[..2] == ry[..2]
    requires ex == p + rx && ey == p + ry
    ensures |ex| >= 50 && |ey| >= 50 && ex[..50] == ey[..50]
  {
    assert ex[..50] == p + rx[..2];
    assert ey[..50] == p + ry[..2];
  }

  /** Texts that agree on their first `n` characters agree on the first `n` bytes of
      their UTF-8 encoding. */
  lemma Utf8SharedPrefix(a: string, b: string, n: nat)
    requires |a| >= n && |b| >= n && a[..n] == b[..n]
    ensures |Utf8(a)| >= n && |Utf8(b)| >= n
    ensures Utf8(a)[..n] == Utf8(b)[..n]
  {
    assert a == a[..n] + a[n..] && b == b[..n] + b[n..];
    Utf8Append(a[..n], a[n..]);
    Utf8Append(b[..n], b[n..]);
    var p := Utf8(a[..n]);
    assert Utf8(a)[..n] == p[..n];
    assert Utf8(b)[..n] == p[..n];
  }
}
