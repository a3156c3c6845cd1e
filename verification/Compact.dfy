/**
 Targets in compact form: a size byte and the three leading bytes of a number.
 */
module Compact {
  import opened Basics
  import opened ScriptBytes
  import opened ScriptNumbers

  type uint32 = x: int | 0 <= x < 0x1_0000_0000

  // The byte at i, counted from the low end; zero outside the number
  function At(v: seq<byte>, i: int): byte {
    if 0 <= i < |v| then v[i] else 0
  }

  function Word(size: byte, a: byte, b: byte, d: byte): uint32 {
    size * 0x1000000 + a * 0x10000 + b * 0x100 + d
  }

  // The size byte wraps for numbers of 256 bytes and more.
  function Packed(v: seq<byte>): uint32 {
    var n := |v|;
    Word(n % 256, At(v, n - 1), At(v, n - 2), At(v, n - 3))
  }

  function Unpacked(c: uint32): seq<byte> {
    var n := c / 0x1000000;
    seq(n, i =>
      if i == n - 1 then c / 0x10000 % 256
      else if i == n - 2 then c / 0x100 % 256
      else if i == n - 3 then c % 256
      else 0)
  }

  // GetCompact
  function ToCompact(x: int): uint32 {
    Packed(EncodeNum(x))
  }

  // SetCompact
  function FromCompact(c: uint32): int {
    DecodeNum(Unpacked(c))
  }

  method SetCompact(c: uint32) returns (x: int)
    ensures x == FromCompact(c)
  {
    var size := c / 0x1000000;
    var bytes := new byte[size](_ => 0);
    if size >= 1 {
      bytes[size - 1] := c / 0x10000 % 256;
    }
    if size >= 2 {
      bytes[size - 2] := c / 0x100 % 256;
    }
    if size >= 3 {
      bytes[size - 3] := c % 256;
    }
    assert bytes[..] == Unpacked(c);
    x := DecodeNum(bytes[..]);
  }

  method GetCompact(x: int) returns (c: uint32)
    ensures c == ToCompact(x)
  {
    var bytes := EncodeNum(x);
    var size := |bytes|;
    c := size % 256 * 0x1000000;
    if size >= 1 {
      c := c + (bytes[size - 1] as int) * 0x10000;
    }
    if size >= 2 {
      c := c + (bytes[size - 2] as int) * 0x100;
    }
    if size >= 3 {
      c := c + bytes[size - 3];
    }
  }

  // --- numbers without superfluous bytes

  predicate Minimal(v: seq<byte>) {
    v != [] ==> v[|v| - 1] % 0x80 != 0 || (|v| >= 2 && v[|v| - 2] >= 0x80)
  }

  lemma EncodeIsMinimal(x: int)
    ensures Minimal(EncodeNum(x))
    ensures x >= 0 && EncodeNum(x) != [] ==> EncodeNum(x)[|EncodeNum(x)| - 1] < 0x80
  {
    LittleMagnitude(Abs(x), []);
  }

  lemma {:induction false} MagnitudeOfLittle(s: seq<byte>)
    requires s == [] || s[|s| - 1] != 0
    ensures Magnitude(Little(s, |s|)) == s
  {
    if s != [] {
      MagnitudeOfLittle(s[1..]);
      var rest: nat := Little(s[1..], |s| - 1);
      assert |s| > 1 ==> s[1..][|s| - 2] == s[|s| - 1];
      LittleZero(s, |s|);
      assert Little(s, |s|) % 256 == s[0] && Little(s, |s|) / 256 == rest;
      assert s == [s[0]] + s[1..];
    }
  }

  /** A minimal encoding is the encoding of the number it stands for. */
  lemma EncodeDecoded(v: seq<byte>)
    requires Minimal(v)
    ensures EncodeNum(DecodeNum(v)) == v
  {
    hide Little, Magnitude, EncodeNum;
    if v == [] {
      EncodeZero();
    } else if v[|v| - 1] % 0x80 != 0 {
      EncodeDecodedFull(v);
    } else {
      EncodeDecodedExtended(v);
    }
  }

  lemma EncodeZero()
    ensures EncodeNum(0) == []
  {
    assert Magnitude(0) == [];
  }

  // The sign shares a byte with the number.
  lemma EncodeDecodedFull(v: seq<byte>)
    requires v != [] && v[|v| - 1] % 0x80 != 0
    ensures EncodeNum(DecodeNum(v)) == v
  {
    hide Little, Magnitude;
    var last := |v| - 1;
    var m := v[..last] + [v[last] % 0x80];
    assert m[last] != 0;
    LittleZero(m, |m|);
    MagnitudeOfLittle(m);
    assert Abs(DecodeNum(v)) == Little(m, |m|);
    assert m[..last] == v[..last];
    assert v == v[..last] + [v[last]];
  }

  // The sign has a byte of its own.
  lemma EncodeDecodedExtended(v: seq<byte>)
    requires |v| >= 2 && v[|v| - 1] % 0x80 == 0 && v[|v| - 2] >= 0x80
    ensures EncodeNum(DecodeNum(v)) == v
  {
    hide Little, Magnitude;
    var last := |v| - 1;
    var low := v[..last];
    assert low + [v[last] % 0x80] == low + [0];
    LittleAppend(low, 0);
    assert low[last - 1] != 0;
    LittleZero(low, |low|);
    MagnitudeOfLittle(low);
    assert Abs(DecodeNum(v)) == Little(low, |low|);
    assert v == low + [v[last]];
  }

  // --- what the compact form keeps

  lemma Fields(n: byte, a: byte, b: byte, d: byte)
    ensures var c := Word(n, a, b, d);
      c / 0x1000000 == n && c / 0x10000 % 256 == a && c / 0x100 % 256 == b && c % 256 == d
  {
    var c := Word(n, a, b, d);
    assert c / 0x100 == n * 0x10000 + a * 0x100 + b;
    assert c / 0x10000 == n * 0x100 + a;
  }

  // The bytes that come back from the compact form of v
  lemma UnpackPackedAny(v: seq<byte>)
    ensures var u, n := Unpacked(Packed(v)), |v|;
      |u| == n % 256 && (forall i | 0 <= i < |u| :: u[i] == if i < |u| - 3 then 0 else At(v, n - |u| + i))
  {
    hide Word;
    var n := |v|;
    Fields(n % 256, At(v, n - 1), At(v, n - 2), At(v, n - 3));
  }

  // Whether nothing but the size byte's wrap is lost on the second encoding
  predicate Stable(v: seq<byte>) {
    var n := |v|;
    n >= 256 ==> n % 256 >= 3 || (n % 256 == 2 && v[n - 3] == 0) || (n % 256 == 1 && v[n - 2] == 0 && v[n - 3] == 0)
  }

  /** Encoding, decoding and encoding again gives the first encoding, for every
      number of fewer than 256 bytes; beyond, exactly when the bytes that a
      small wrapped size drops are zero. */
  lemma ReencodeStable(x: int)
    ensures ToCompact(FromCompact(ToCompact(x))) == ToCompact(x) <==> Stable(EncodeNum(x))
  {
    hide EncodeNum, DecodeNum, Packed, Unpacked;
    var v := EncodeNum(x);
    var u := Unpacked(Packed(v));
    var n, s := |v|, |u|;
    EncodeIsMinimal(x);
    UnpackPackedAny(v);
    if Minimal(u) {
      EncodeDecoded(u);
      PackedAgree(v, u);
    } else {
      assert s == 1 && n >= 256;
      OneZeroByte(u, v);
    }
  }

  // Which packed forms are the same
  lemma PackedAgree(v: seq<byte>, u: seq<byte>)
    requires |u| == |v| % 256 && Minimal(v)
    requires forall i | 0 <= i < |u| :: u[i] == if i < |u| - 3 then 0 else At(v, |v| - |u| + i)
    ensures Packed(u) == Packed(v) <==> Stable(v)
  {
    hide Word;
    var n, s := |v|, |u|;
    Fields(s, At(u, s - 1), At(u, s - 2), At(u, s - 3));
    Fields(s, At(v, n - 1), At(v, n - 2), At(v, n - 3));
  }

  lemma OneZeroByte(u: seq<byte>, v: seq<byte>)
    requires |u| == 1 && |v| >= 256 && |v| % 256 == 1 && u[0] == v[|v| - 1] && !Minimal(u) && Minimal(v)
    ensures Packed(EncodeNum(DecodeNum(u))) != Packed(v) && !Stable(v)
  {
    hide Word, EncodeNum, Little;
    LittleZero([0], 1);
    assert u[..0] + [u[0] % 0x80] == [0];
    assert DecodeNum(u) == 0;
    EncodeZero();
    Fields(1, v[|v| - 1], v[|v| - 2], v[|v| - 3]);
    Fields(0, 0, 0, 0);
  }

  /** The smallest number of 256 bytes, 2^2039, is not stable: its size byte is
      zero, so that it decodes to zero. */
  lemma WrappedSizeIsUnstable()
    ensures var x := DecodeNum(seq(254, _ => 0) + [0x80, 0]);
      ToCompact(FromCompact(ToCompact(x))) != ToCompact(x)
  {
    hide EncodeNum, DecodeNum, ToCompact, FromCompact;
    var v: seq<byte> := seq(254, _ => 0) + [0x80, 0];
    EncodeDecoded(v);
    ReencodeStable(DecodeNum(v));
  }

  // --- the decoded target is the number, rounded down

  lemma {:induction false} LittleSplit(a: seq<byte>, b: seq<byte>)
    ensures Little(a + b, |a| + |b|) == Little(a, |a|) + Power(|a|) * Little(b, |b|)
  {
    if a == [] {
      assert a + b == b;
    } else {
      LittleSplit(a[1..], b);
      assert (a + b)[1..] == a[1..] + b;
      Distribute(a[0], Little(a[1..], |a| - 1), Power(|a| - 1), Little(b, |b|));
    }
  }

  lemma Distribute(c: nat, x: nat, p: nat, y: nat)
    ensures c + 256 * (x + p * y) == c + 256 * x + 256 * p * y
  {}

  // A number that is not negative, as its bytes
  lemma Plain(v: seq<byte>)
    requires v == [] || v[|v| - 1] < 0x80
    ensures DecodeNum(v) == Little(v, |v|)
  {
    hide Little;
    if v != [] {
      assert v[..|v| - 1] + [v[|v| - 1] % 0x80] == v;
    } else {
      LittleZero(v, 0);
    }
  }

  // Clearing all but the leading three bytes rounds down to a multiple.
  lemma {:induction false} Cleared(v: seq<byte>, u: seq<byte>, k: nat)
    requires |u| == |v| && k <= |v| && (forall i | 0 <= i < |v| :: u[i] == if i < k then 0 else v[i])
    ensures Little(u, |u|) == Power(k) * Little(v[k..], |v| - k)
    ensures Little(u, |u|) <= Little(v, |v|) < Little(u, |u|) + Power(k)
  {
    hide Little, Power;
    assert v == v[..k] + v[k..] && u == u[..k] + v[k..];
    LittleSplit(v[..k], v[k..]);
    LittleSplit(u[..k], v[k..]);
    LittleZero(u[..k], k);
    BytesLittle(v[..k], k);
  }

  // The size of a minimal encoding bounds its number from both sides.
  lemma SizeBounds(v: seq<byte>)
    requires Minimal(v) && |v| >= 2 && v[|v| - 1] < 0x80
    ensures 128 * Power(|v| - 2) <= Little(v, |v|) < 128 * Power(|v| - 1)
  {
    hide Little, Power;
    var k := |v| - 2;
    assert v == v[..k] + v[k..];
    LittleSplit(v[..k], v[k..]);
    TwoBytes(v[k..]);
    ScaleUp(128, Little(v[k..], 2), Power(k));
    UpperBound(v);
  }

  lemma TwoBytes(w: seq<byte>)
    requires |w| == 2
    ensures Little(w, 2) == w[0] + 256 * (w[1] as int)
  {
    assert w[1..][1..] == [];
    assert Little(w[1..], 1) == w[1] + 256 * Little(w[1..][1..], 0);
  }

  lemma ScaleUp(a: nat, b: nat, p: nat)
    requires a <= b
    ensures a * p <= p * b
  {}

  lemma UpperBound(u: seq<byte>)
    requires u != [] && u[|u| - 1] < 0x80
    ensures Little(u, |u|) < 128 * Power(|u| - 1)
  {
    hide Little, Power;
    var k := |u| - 1;
    assert u == u[..k] + [u[k]];
    LittleAppend(u[..k], u[k]);
    BytesLittle(u[..k], k);
    TopByte(Little(u[..k], k), u[k], Power(k));
  }

  lemma TopByte(x: nat, c: nat, p: nat)
    requires x < p && c < 128
    ensures x + c * p < 128 * p
  {
    assert (c + 1) * p <= 128 * p;
  }

  // The unit in which a number of n bytes is kept
  function Unit(n: nat): nat {
    if n <= 3 then 1 else Power(n - 3)
  }

  /** For a number of fewer than 256 bytes the decoded value is the number
      rounded down to a multiple of the unit of its size. */
  lemma RoundsDown(x: nat)
    requires |EncodeNum(x)| < 256
    ensures var y, p := FromCompact(ToCompact(x)), Unit(|EncodeNum(x)|);
      0 <= y <= x < y + p && exists q: nat :: y == p * q
    ensures EncodeNum(FromCompact(ToCompact(x))) == Unpacked(ToCompact(x))
    ensures |EncodeNum(FromCompact(ToCompact(x)))| == |EncodeNum(x)|
  {
    hide EncodeNum, DecodeNum, Packed, Unpacked, Little, Power;
    var v := EncodeNum(x);
    var n := |v|;
    var u := Unpacked(Packed(v));
    var k := if n <= 3 then 0 else n - 3;
    DecodeEncoded(x);
    EncodeIsMinimal(x);
    UnpackPackedAny(v);
    Plain(v);
    Plain(u);
    Cleared(v, u, k);
    PowerZero();
    var q: nat := Little(v[k..], n - k);
    assert FromCompact(ToCompact(x)) == Unit(n) * q;
    EncodeDecoded(u);
  }

  lemma PowerZero()
    ensures Power(0) == 1
  {}

  /** Decoding the compact form of a number never gives more than the number. */
  lemma NeverAbove(x: nat)
    ensures 0 <= FromCompact(ToCompact(x)) <= x
  {
    hide EncodeNum, DecodeNum, Packed, Unpacked, Little, Power;
    var v := EncodeNum(x);
    var n := |v|;
    if n < 256 {
      RoundsDown(x);
    } else {
      var u := Unpacked(Packed(v));
      DecodeEncoded(x);
      EncodeIsMinimal(x);
      UnpackPackedAny(v);
      Plain(v);
      Plain(u);
      BytesLittle(u, |u|);
      SizeBounds(v);
      PowerGrows(|u|, n - 2);
    }
  }

  // A compact form of size s stands for a multiple of its unit, below a bound.
  lemma FromCompactShape(c: uint32)
    requires FromCompact(c) >= 0
    ensures var s := |Unpacked(c)|; (exists q: nat :: FromCompact(c) == Unit(s) * q) && (s == 0 ==> FromCompact(c) == 0) && (s > 0 ==> FromCompact(c) < 128 * Power(s - 1))
  {
    hide EncodeNum, Little, Power, DecodeNum;
    var u := Unpacked(c);
    var s := |u|;
    var k := if s <= 3 then 0 else s - 3;
    PowerZero();
    NotNegative(u);
    if u == [] || u[s - 1] < 0x80 {
      Plain(u);
      Cleared(u, u, k);
      var q: nat := Little(u[k..], s - k);
      assert FromCompact(c) == Unit(s) * q;
      if s > 0 {
        UpperBound(u);
      } else {
        LittleZero(u, 0);
      }
    } else {
      assert FromCompact(c) == Unit(s) * 0;
      PowerPositive(s - 1);
    }
  }

  lemma NotNegative(u: seq<byte>)
    ensures DecodeNum(u) >= 0 && u != [] && u[|u| - 1] >= 0x80 ==> DecodeNum(u) == 0
  {
    hide Little;
  }

  lemma {:induction false} PowerPositive(n: nat)
    ensures Power(n) > 0
  {
    if n > 0 {
      PowerPositive(n - 1);
    }
  }

  lemma {:induction false} PowerFactor(a: nat, b: nat) returns (f: nat)
    requires a <= b
    ensures Power(b) == Power(a) * f
  {
    if a == b {
      f := 1;
    } else {
      var g := PowerFactor(a, b - 1);
      f := 256 * g;
      Scale(g, Power(a));
      assert Power(b) == 256 * Power(b - 1);
    }
  }

  lemma UnitFactor(n: nat, s: nat) returns (f: nat)
    requires n <= s
    ensures Unit(s) == Unit(n) * f
  {
    hide Power;
    if s <= 3 {
      f := 1;
    } else if n <= 3 {
      f := Power(s - 3);
    } else {
      f := PowerFactor(n - 3, s - 3);
    }
  }

  lemma MultipleBelow(p: nat, q: nat, r: nat, x: nat)
    requires p * r <= x < p * r + p && p * q <= x
    ensures p * q <= p * r
  {
    assert q > r ==> p * q >= p * (r + 1);
  }

  lemma Associate(p: nat, f: nat, q: nat)
    ensures p * f * q == p * (f * q)
  {}

  /** Of all numbers with a compact form the decoded value is the greatest that
      is not above x. */
  lemma GreatestBelow(x: nat, c: uint32)
    requires |EncodeNum(x)| < 256 && FromCompact(c) <= x
    ensures FromCompact(c) <= FromCompact(ToCompact(x))
  {
    hide EncodeNum, DecodeNum, ToCompact, FromCompact, Unpacked, Little, Power, Unit;
    RoundsDown(x);
    var y := FromCompact(ToCompact(x));
    var n, s := |EncodeNum(x)|, |Unpacked(c)|;
    if FromCompact(c) >= 0 {
      FromCompactShape(c);
      var q: nat :| FromCompact(c) == Unit(s) * q;
      var r: nat :| y == Unit(n) * r;
      if n <= s {
        var f := UnitFactor(n, s);
        Associate(Unit(n), f, q);
        MultipleBelow(Unit(n), f * q, r, x);
      } else if n >= 2 && s > 0 {
        DecodedLower(x);
        PowerGrows(s - 1, n - 2);
      } else {
        SmallSize(x, n);
      }
    }
  }

  lemma DecodedLower(x: nat)
    requires 2 <= |EncodeNum(x)| < 256
    ensures FromCompact(ToCompact(x)) >= 128 * Power(|EncodeNum(x)| - 2)
  {
    hide EncodeNum, DecodeNum, ToCompact, FromCompact, Unpacked, Little, Power;
    RoundsDown(x);
    var y := FromCompact(ToCompact(x));
    EncodeIsMinimal(y);
    DecodeEncoded(y);
    Plain(EncodeNum(y));
    SizeBounds(EncodeNum(y));
  }

  lemma SmallSize(x: nat, n: nat)
    requires n == |EncodeNum(x)| < 256
    ensures 0 <= FromCompact(ToCompact(x))
  {
    hide EncodeNum, ToCompact, FromCompact;
    NeverAbove(x);
  }

  // --- the compact form as a floating-point number

  // The 23 low bits of the mantissa
  function Mantissa(c: uint32): nat {
    c % 0x80_0000
  }

  lemma Digits(c: uint32)
    ensures var n, a, b, d := c / 0x1000000, c / 0x10000 % 256, c / 0x100 % 256, c % 256;
      && c == n * 0x1000000 + a * 0x10000 + b * 0x100 + d
      && Mantissa(c) == a % 0x80 * 0x10000 + b * 0x100 + d
      && (a >= 0x80 <==> c / 0x80_0000 % 2 == 1)
  {
    var n, a, b, d := c / 0x1000000, c / 0x10000 % 256, c / 0x100 % 256, c % 256;
    assert c / 0x10000 == c / 0x100 / 256 && c / 0x1000000 == c / 0x10000 / 256;
    assert c == n * 0x1000000 + a * 0x10000 + b * 0x100 + d;
    Halved(n, a, b * 0x100 + d);
  }

  lemma Halved(n: nat, a: byte, low: nat)
    requires low < 0x10000
    ensures var c := n * 0x1000000 + a * 0x10000 + low;
      c % 0x80_0000 == a % 0x80 * 0x10000 + low && (a >= 0x80 <==> c / 0x80_0000 % 2 == 1)
  {
    var c := n * 0x1000000 + a * 0x10000 + low;
    var r := a % 0x80 * 0x10000 + low;
    var q := 2 * n + a / 0x80;
    assert c == q * 0x80_0000 + r && 0 <= r < 0x80_0000;
    assert c / 0x80_0000 == q;
  }

  lemma LittleFew(a: byte, b: byte, d: byte)
    ensures Little([d, b, a], 3) == d + 0x100 * b + 0x10000 * a && Little([b, a], 2) == b + 0x100 * a && Little([a], 1) == a
  {
    assert [d, b, a][1..] == [b, a] && [b, a][1..] == [a] && [a][1..] == [];
    assert Little([a], 1) == a + 256 * Little([], 0);
    assert Little([b, a], 2) == b + 256 * Little([a], 1);
    assert Little([d, b, a], 3) == d + 256 * Little([b, a], 2);
  }

  // The bytes without the sign bit
  lemma UnsignedBytes(c: uint32)
    requires c / 0x1000000 >= 3
    ensures var u, n := Unpacked(c), c / 0x1000000;
      |u| == n && u[n - 1] == c / 0x10000 % 256
      && u[..n - 1] + [u[n - 1] % 0x80] == seq(n - 3, _ => 0) + [c % 256, c / 0x100 % 256, c / 0x10000 % 256 % 0x80]
  {}

  lemma {:induction false} LittleOfZeros(k: nat)
    ensures Little(seq(k, _ => 0), k) == 0
  {
    LittleZero(seq(k, _ => 0), k);
  }

  /** A compact target stands for its 23-bit mantissa times 256 to the power of its size
      less three, with the sign bit between; digits below one are lost. */
  lemma CompactIsFloat(c: uint32)
    ensures var n := c / 0x1000000;
      var value := if n >= 3 then Mantissa(c) * Power(n - 3) else if n == 2 then Mantissa(c) / 0x100 else if n == 1 then Mantissa(c) / 0x10000 else 0;
      FromCompact(c) == if c / 0x80_0000 % 2 == 1 then -value else value
  {
    hide Little, Power;
    Digits(c);
    var n, a, b, d := c / 0x1000000, c / 0x10000 % 256, c / 0x100 % 256, c % 256;
    LittleFew(a % 0x80, b, d);
    if n >= 3 {
      LongCompact(c);
    } else if n == 2 {
      var u := Unpacked(c);
      assert u == [b, a];
      assert u[..1] + [a % 0x80] == [b, a % 0x80];
      assert Mantissa(c) / 0x100 == b + 0x100 * (a % 0x80);
    } else if n == 1 {
      var u := Unpacked(c);
      assert u == [a];
      assert u[..0] + [a % 0x80] == [a % 0x80];
      assert Mantissa(c) / 0x10000 == a % 0x80;
    }
  }

  lemma LongCompact(c: uint32)
    requires c / 0x1000000 >= 3
    ensures var value := Mantissa(c) * Power(c / 0x1000000 - 3);
      FromCompact(c) == if c / 0x80_0000 % 2 == 1 then -value else value
  {
    hide Little, Power, Unpacked, Mantissa;
    Digits(c);
    UnsignedBytes(c);
    var k: nat := c / 0x1000000 - 3;
    var low := [c % 256, c / 0x100 % 256, c / 0x10000 % 256 % 0x80];
    LittleFew(low[2], low[1], low[0]);
    LittleOfZeros(k);
    LittleSplit(seq(k, _ => 0), low);
    assert Power(k) * Mantissa(c) == Mantissa(c) * Power(k);
  }
}
