/** The base encodings of RFC 4648 (sections 5 and 6), defined as the RFC does:
    the input is a string of bits, cut into groups of six or five, the last one
    filled up with zero bits. */
module Rfc4648 {
  import opened Text

  type Byte = b: int | 0 <= b < 256

  function Pow2(k: nat): (p: nat)
    ensures p >= 1
  {
    if k == 0 then 1 else 2 * Pow2(k - 1)
  }

  /** The `k` low bits of `v`, most significant first. */
  function Bits(v: nat, k: nat): (bits: seq<bool>)
    ensures |bits| == k
  {
    if k == 0 then [] else Bits(v / 2, k - 1) + [v % 2 == 1]
  }

  function BitsValue(bits: seq<bool>): (v: nat)
    ensures v < Pow2(|bits|)
  {
    if bits == [] then 0
    else 2 * BitsValue(bits[..|bits| - 1]) + (if bits[|bits| - 1] then 1 else 0)
  }

  lemma {:induction false} BitsRoundTrip(v: nat, k: nat)
    requires v < Pow2(k)
    ensures BitsValue(Bits(v, k)) == v
  {
    if k > 0 {
      BitsRoundTrip(v / 2, k - 1);
      assert Bits(v, k)[..k - 1] == Bits(v / 2, k - 1);
    }
  }

  lemma {:induction false} BitsValueInjective(a: seq<bool>, b: seq<bool>)
    requires |a| == |b| && BitsValue(a) == BitsValue(b)
    ensures a == b
    decreases |a|
  {
    if a != [] {
      BitsValueInjective(a[..|a| - 1], b[..|b| - 1]);
      assert a == a[..|a| - 1] + [a[|a| - 1]];
      assert b == b[..|b| - 1] + [b[|b| - 1]];
    }
  }

  function ByteBits(bytes: seq<Byte>): (bits: seq<bool>)
    ensures |bits| == 8 * |bytes|
  {
    if bytes == [] then [] else Bits(bytes[0], 8) + ByteBits(bytes[1..])
  }

  lemma {:induction false} ByteBitsInjective(x: seq<Byte>, y: seq<Byte>)
    requires ByteBits(x) == ByteBits(y)
    ensures x == y
    decreases |x|
  {
    assert 8 * |x| == 8 * |y|;
    if x != [] {
      var bitsX, bitsY := ByteBits(x), ByteBits(y);
      assert bitsX[..8] == Bits(x[0], 8) && bitsY[..8] == Bits(y[0], 8);
      assert bitsX[8..] == ByteBits(x[1..]) && bitsY[8..] == ByteBits(y[1..]);
      assert Pow2(8) == 256;
      BitsRoundTrip(x[0], 8);
      BitsRoundTrip(y[0], 8);
      ByteBitsInjective(x[1..], y[1..]);
      assert x == [x[0]] + x[1..] && y == [y[0]] + y[1..];
    }
  }

  /** How many `k`-bit groups `n` bits fill. */
  function GroupCount(n: nat, k: nat): nat
    requires k >= 1
  {
    if n == 0 then 0 else if n <= k then 1 else 1 + GroupCount(n - k, k)
  }

  lemma {:induction false} GroupCountRoundsUp(n: nat)
    ensures GroupCount(n, 5) == (n + 4) / 5
    ensures GroupCount(n, 6) == (n + 5) / 6
  {
    if n > 5 {
      GroupCountRoundsUp(n - 5);
    }
    if n > 6 {
      GroupCountRoundsUp(n - 6);
    }
  }

  /** The values of the `k`-bit groups of a bit string, the last group filled up with zeros. */
  function GroupValues(bits: seq<bool>, k: nat): (vs: seq<nat>)
    requires k >= 1
    ensures forall i :: 0 <= i < |vs| ==> vs[i] < Pow2(k)
    ensures |vs| == GroupCount(|bits|, k)
    decreases |bits|
  {
    if bits == [] then []
    else if |bits| <= k then [BitsValue(bits + seq(k - |bits|, _ => false))]
    else [BitsValue(bits[..k])] + GroupValues(bits[k..], k)
  }

  lemma {:induction false} GroupValuesInjective(a: seq<bool>, b: seq<bool>, k: nat)
    requires k >= 1 && |a| == |b| && GroupValues(a, k) == GroupValues(b, k)
    ensures a == b
    decreases |a|
  {
    if a == [] {
    } else if |a| <= k {
      var pad := seq(k - |a|, _ => false);
      assert GroupValues(a, k)[0] == GroupValues(b, k)[0];
      BitsValueInjective(a + pad, b + pad);
      assert a == (a + pad)[..|a|] && b == (b + pad)[..|b|];
    } else {
      assert GroupValues(a, k)[0] == GroupValues(b, k)[0];
      BitsValueInjective(a[..k], b[..k]);
      assert GroupValues(a, k)[1..] == GroupValues(a[k..], k);
      assert GroupValues(b, k)[1..] == GroupValues(b[k..], k);
      GroupValuesInjective(a[k..], b[k..], k);
      assert a == a[..k] + a[k..] && b == b[..k] + b[k..];
    }
  }

  /** Cutting bytes into groups of five or six bits loses nothing, not even the number of bytes. */
  lemma ByteGroupsInjective(x: seq<Byte>, y: seq<Byte>, k: nat)
    requires k == 5 || k == 6
    requires GroupValues(ByteBits(x), k) == GroupValues(ByteBits(y), k)
    ensures x == y
  {
    GroupCountRoundsUp(8 * |x|);
    GroupCountRoundsUp(8 * |y|);
    assert |x| == |y|;
    GroupValuesInjective(ByteBits(x), ByteBits(y), k);
    ByteBitsInjective(x, y);
  }

  // ----- what the groups are worth -----

  lemma {:induction false} Pow2Sum(a: nat, b: nat)
    ensures Pow2(a + b) == Pow2(a) * Pow2(b)
  {
    if b > 0 {
      Pow2Sum(a, b - 1);
    }
  }

  lemma {:induction false} BitsValueConcat(a: seq<bool>, b: seq<bool>)
    ensures BitsValue(a + b) == BitsValue(a) * Pow2(|b|) + BitsValue(b)
    decreases |b|
  {
    if b == [] {
      assert a + b == a;
    } else {
      var init, last := b[..|b| - 1], if b[|b| - 1] then 1 else 0;
      assert (a + b)[..|a + b| - 1] == a + init && (a + b)[|a + b| - 1] == b[|b| - 1];
      BitsValueConcat(a, init);
      assert Pow2(|b|) == 2 * Pow2(|init|);
      var x, p, y := BitsValue(a), Pow2(|init|), BitsValue(init);
      assert BitsValue(a + b) == 2 * BitsValue(a + init) + last && BitsValue(b) == 2 * y + last;
      hide Pow2, BitsValue;
      ShiftedOnce(x, p, y, last);
    }
  }

  lemma ShiftedOnce(x: nat, p: nat, y: nat, last: nat)
    ensures 2 * (x * p + y) + last == x * (2 * p) + (2 * y + last)
  {
  }

  /** The bits of `n` groups. */
  function Width(n: nat, k: nat): nat {
    if n == 0 then 0 else k + Width(n - 1, k)
  }

  /** Digits of a number in base `Pow2(k)`, the most significant first. */
  function Number(digits: seq<nat>, k: nat): nat {
    if digits == [] then 0 else digits[0] * Pow2(Width(|digits| - 1, k)) + Number(digits[1..], k)
  }

  lemma {:induction false} EightWide(n: nat)
    ensures Width(n, 8) == 8 * n
  {
    if n > 0 {
      EightWide(n - 1);
    }
  }

  lemma {:induction false} ByteBitsNumber(bytes: seq<Byte>)
    ensures BitsValue(ByteBits(bytes)) == Number(bytes, 8)
  {
    if bytes != [] {
      assert Pow2(8) == 256;
      BitsRoundTrip(bytes[0], 8);
      BitsValueConcat(Bits(bytes[0], 8), ByteBits(bytes[1..]));
      ByteBitsNumber(bytes[1..]);
      EightWide(|bytes| - 1);
    }
  }

  lemma {:induction false} GroupsNumber(bits: seq<bool>, k: nat)
    requires k >= 1
    ensures Width(GroupCount(|bits|, k), k) >= |bits|
    ensures Number(GroupValues(bits, k), k) == BitsValue(bits) * Pow2(Width(GroupCount(|bits|, k), k) - |bits|)
    decreases |bits|
  {
    if 0 < |bits| <= k {
      LastGroup(bits, k);
    } else if |bits| > k {
      var head, tail := bits[..k], bits[k..];
      var n := GroupCount(|tail|, k);
      var number := Number(GroupValues(bits, k), k);
      assert bits == head + tail;
      FirstGroup(bits, k);
      hide Number, GroupValues, GroupCount, Pow2, BitsValue, Width;
      GroupsNumber(tail, k);
      BitsValueConcat(head, tail);
      var filling := Width(n, k) - |tail|;
      Pow2Sum(|tail|, filling);
      Combined(number, BitsValue(head), Pow2(Width(n, k)), Number(GroupValues(tail, k), k), BitsValue(tail),
               Pow2(|tail|), Pow2(filling), BitsValue(bits));
    }
  }

  lemma Combined(number: nat, head: nat, weight: nat, rest: nat, tail: nat, p: nat, q: nat, all: nat)
    requires number == head * weight + rest && weight == p * q && rest == tail * q && all == head * p + tail
    ensures number == all * q
  {
    Distribute(head, p, q, tail);
  }

  lemma FirstGroup(bits: seq<bool>, k: nat)
    requires 1 <= k < |bits|
    ensures var head, tail := bits[..k], bits[k..];
            var n := GroupCount(|tail|, k);
            && GroupCount(|bits|, k) == n + 1 && Width(n + 1, k) == k + Width(n, k)
            && Number(GroupValues(bits, k), k)
               == BitsValue(head) * Pow2(Width(n, k)) + Number(GroupValues(tail, k), k)
  {
    var vs := GroupValues(bits, k);
    assert vs[1..] == GroupValues(bits[k..], k);
    hide BitsValue, Pow2;
  }

  lemma LastGroup(bits: seq<bool>, k: nat)
    requires 0 < |bits| <= k
    ensures Width(GroupCount(|bits|, k), k) == k
    ensures Number(GroupValues(bits, k), k) == BitsValue(bits) * Pow2(k - |bits|)
  {
    var zeros: seq<bool> := seq(k - |bits|, _ => false);
    BitsValueConcat(bits, zeros);
    NoValue(zeros);
    var v := BitsValue(bits + zeros);
    assert GroupValues(bits, k) == [v] && [v][1..] == [];
    assert Number([v], k) == v * Pow2(0) + Number([], k);
  }

  lemma Distribute(a: nat, p: nat, q: nat, b: nat)
    ensures a * (p * q) + b * q == (a * p + b) * q
  {
  }

  lemma {:induction false} NoValue(zeros: seq<bool>)
    requires forall i :: 0 <= i < |zeros| ==> !zeros[i]
    ensures BitsValue(zeros) == 0
  {
    if zeros != [] {
      NoValue(zeros[..|zeros| - 1]);
    }
  }

  /** The groups spell the same number as the bytes, shifted by the zero bits that fill up the last group. */
  lemma GroupsSpellBytes(bytes: seq<Byte>, k: nat)
    requires k >= 1
    ensures Width(GroupCount(8 * |bytes|, k), k) >= 8 * |bytes|
    ensures Number(GroupValues(ByteBits(bytes), k), k)
            == Number(bytes, 8) * Pow2(Width(GroupCount(8 * |bytes|, k), k) - 8 * |bytes|)
  {
    hide Number, GroupValues, GroupCount, Pow2, BitsValue, ByteBits, Width;
    ByteBitsNumber(bytes);
    GroupsNumber(ByteBits(bytes), k);
  }

  // ----- alphabets -----

  /** Table 3 of RFC 4648: base32. */
  function Symbol32(v: nat): char
    requires v < 32
  {
    if v < 26 then ('A' as int + v) as char else ('2' as int + v - 26) as char
  }

  /** Table 2 of RFC 4648: the URL and filename safe base64. */
  function Symbol64(v: nat): char
    requires v < 64
  {
    if v < 26 then ('A' as int + v) as char
    else if v < 52 then ('a' as int + v - 26) as char
    else if v < 62 then ('0' as int + v - 52) as char
    else if v == 62 then '-' else '_'
  }

  predicate IsAlphanumeric(c: char) {
    'A' <= c <= 'Z' || 'a' <= c <= 'z' || '0' <= c <= '9'
  }

  /** The symbols of base32: no digit that looks like a letter. */
  predicate IsSymbol32(c: char) {
    'A' <= c <= 'Z' || '2' <= c <= '7'
  }

  /** base32 without padding, as base32.StdEncoding.WithPadding(NoPadding) writes it. */
  function Base32(bytes: seq<Byte>): (s: string)
    ensures |s| == (8 * |bytes| + 4) / 5
    ensures forall i :: 0 <= i < |s| ==> IsSymbol32(s[i]) && IsAlphanumeric(s[i])
  {
    assert Pow2(5) == 32;
    GroupCountRoundsUp(8 * |bytes|);
    var vs := GroupValues(ByteBits(bytes), 5);
    seq(|vs|, i requires 0 <= i < |vs| => Symbol32(vs[i]))
  }

  lemma Base32Injective(x: seq<Byte>, y: seq<Byte>)
    requires Base32(x) == Base32(y)
    ensures x == y
  {
    assert Pow2(5) == 32;
    var vx, vy := GroupValues(ByteBits(x), 5), GroupValues(ByteBits(y), 5);
    assert |vx| == |vy|;
    forall i | 0 <= i < |vx| ensures vx[i] == vy[i] {
      assert Base32(x)[i] == Base32(y)[i];
      assert Symbol32(vx[i]) == Symbol32(vy[i]);
    }
    assert vx == vy;
    ByteGroupsInjective(x, y, 5);
  }

  /** The symbols of base64url before padding. */
  function Base64Symbols(bytes: seq<Byte>): (s: string)
    ensures forall i :: 0 <= i < |s| ==> s[i] != '='
  {
    assert Pow2(6) == 64;
    var vs := GroupValues(ByteBits(bytes), 6);
    seq(|vs|, i requires 0 <= i < |vs| => Symbol64(vs[i]))
  }

  /** base64.URLEncoding: padded with '=' to a multiple of four. */
  function Base64Url(bytes: seq<Byte>): (s: string)
    ensures |s| % 4 == 0
  {
    var s := Base64Symbols(bytes);
    s + seq((4 - |s| % 4) % 4, _ => '=')
  }

  lemma Base64SymbolsInjective(x: seq<Byte>, y: seq<Byte>)
    requires Base64Symbols(x) == Base64Symbols(y)
    ensures x == y
  {
    assert Pow2(6) == 64;
    var vx, vy := GroupValues(ByteBits(x), 6), GroupValues(ByteBits(y), 6);
    assert |vx| == |vy|;
    forall i | 0 <= i < |vx| ensures vx[i] == vy[i] {
      assert Base64Symbols(x)[i] == Base64Symbols(y)[i];
      assert Symbol64(vx[i]) == Symbol64(vy[i]);
    }
    assert vx == vy;
    ByteGroupsInjective(x, y, 6);
  }

  lemma Base64UrlSymbols(x: seq<Byte>)
    ensures Base64Url(x)[..IndexOf(Base64Url(x), '=')] == Base64Symbols(x)
  {
    var s := Base64Symbols(x);
    IndexOfPrefix(s, '=', seq((4 - |s| % 4) % 4, _ => '='));
  }

  lemma Base64UrlInjective(x: seq<Byte>, y: seq<Byte>)
    requires Base64Url(x) == Base64Url(y)
    ensures x == y
  {
    Base64UrlSymbols(x);
    Base64UrlSymbols(y);
    Base64SymbolsInjective(x, y);
  }

  // ----- ASCII text as bytes -----

  ghost predicate Ascii(s: string) {
    forall i :: 0 <= i < |s| ==> s[i] as int < 128
  }

  function ToBytes(s: string): (b: seq<Byte>)
    requires forall i :: 0 <= i < |s| ==> s[i] as int < 128
    ensures |b| == |s|
    ensures forall i :: 0 <= i < |s| ==> b[i] == s[i] as int
  {
    seq(|s|, i requires 0 <= i < |s| => s[i] as int)
  }

  lemma ToBytesInjective(s: string, t: string)
    requires Ascii(s) && Ascii(t) && ToBytes(s) == ToBytes(t)
    ensures s == t
  {
  }
}
