/**
 Stack items read as numbers and as truth values.
 */
module ScriptNumbers {
  import opened Basics
  import opened ScriptBytes

  type Item = seq<byte>

  const MAX_NUM_SIZE := 4

  // The bytes of n, least significant first, without leading zeros
  function Magnitude(n: nat): seq<byte> {
    if n == 0 then [] else [n % 256] + Magnitude(n / 256)
  }

  // CBigNum::getvch: the top bit of the last byte is the sign
  function EncodeNum(n: int): Item {
    var m := Magnitude(Abs(n));
    var sign := if n < 0 then 0x80 else 0;
    if m == [] then []
    else if m[|m| - 1] >= 0x80 then m + [sign]
    else m[..|m| - 1] + [m[|m| - 1] + sign]
  }

  // CBigNum::setvch; leading zeros and a negative zero are allowed
  function DecodeNum(v: Item): int {
    if v == [] then 0 else
    var last := |v| - 1;
    var m: int := Little(v[..last] + [v[last] % 0x80], |v|);
    if v[last] >= 0x80 then -m else m
  }

  lemma {:induction false} LittleMagnitude(n: nat, rest: seq<byte>)
    ensures Little(Magnitude(n) + rest, |Magnitude(n)|) == n
    ensures n > 0 ==> Magnitude(n) != [] && Magnitude(n)[|Magnitude(n)| - 1] != 0
  {
    if n > 0 {
      LittleMagnitude(n / 256, rest);
      assert (Magnitude(n) + rest)[1..] == Magnitude(n / 256) + rest;
    }
  }

  lemma {:induction false} LittleAppend(s: seq<byte>, c: byte)
    ensures Little(s + [c], |s| + 1) == Little(s, |s|) + c * Power(|s|)
  {
    if s != [] {
      LittleAppend(s[1..], c);
      assert (s + [c])[1..] == s[1..] + [c];
      Scale(c, Power(|s| - 1));
    } else {
      assert [c][1..] == [];
      assert Little([c][1..], 0) == 0;
    }
  }

  lemma Scale(c: nat, p: nat)
    ensures 256 * (c * p) == c * (256 * p)
  {}

  /** A number written to the stack is read back as itself. */
  lemma DecodeEncoded(n: int)
    ensures DecodeNum(EncodeNum(n)) == n
  {
    hide Little;
    var m := Magnitude(Abs(n));
    LittleMagnitude(Abs(n), []);
    assert m + [] == m;
    if m != [] {
      var last := |m| - 1;
      var v := EncodeNum(n);
      assert m == m[..last] + [m[last]];
      if m[last] >= 0x80 {
        assert v[..|m|] == m;
        LittleAppend(m, 0);
        assert v[..|m|] + [v[|m|] % 0x80] == m + [0];
      } else {
        assert v[..last] + [v[last] % 0x80] == m;
      }
    } else {
      assert n == 0;
    }
  }

  lemma {:induction false} MagnitudeSize(n: nat, k: nat)
    requires n < Power(k)
    ensures |Magnitude(n)| <= k
  {
    if n > 0 {
      MagnitudeSize(n / 256, k - 1);
    }
  }

  lemma EncodeSize(n: int, k: nat)
    requires Abs(n) < Power(k)
    ensures |EncodeNum(n)| <= k + 1
  {
    MagnitudeSize(Abs(n), k);
  }

  lemma DecodeBound(v: Item)
    ensures Abs(DecodeNum(v)) < Power(|v|)
  {
    if v != [] {
      var last := |v| - 1;
      BytesLittle(v[..last] + [v[last] % 0x80], |v|);
    }
  }

  // --- truth

  predicate Truth(v: Item) {
    exists i | 0 <= i < |v| :: v[i] != 0 && !(i == |v| - 1 && v[i] == 0x80)
  }

  method CastToBool(v: Item) returns (r: bool)
    ensures r <==> Truth(v)
  {
    for i := 0 to |v|
      invariant forall j | 0 <= j < i :: v[j] == 0
    {
      if v[i] != 0 {
        return !(i == |v| - 1 && v[i] == 0x80);
      }
    }
    return false;
  }

  lemma {:induction false} LittleZero(s: seq<byte>, n: nat)
    requires n <= |s|
    ensures Little(s, n) == 0 <==> forall i | 0 <= i < n :: s[i] == 0
  {
    if n > 0 {
      LittleZero(s[1..], n - 1);
      if Little(s, n) == 0 {
        forall i | 0 <= i < n ensures s[i] == 0 {
          assert i > 0 ==> s[1..][i - 1] == s[i];
        }
      }
    }
  }

  /** An item is true exactly if the number it stands for is not zero: zeros of
      any length and negative zeros are the false ones. */
  lemma TruthIsNonZero(v: Item)
    ensures Truth(v) <==> DecodeNum(v) != 0
  {
    if v != [] {
      var last := |v| - 1;
      var s := v[..last] + [v[last] % 0x80];
      LittleZero(s, |v|);
      if Truth(v) {
        var i :| 0 <= i < |v| && v[i] != 0 && !(i == last && v[i] == 0x80);
        assert s[i] != 0;
      } else {
        forall i | 0 <= i < |v| ensures s[i] == 0 {
          assert v[i] == 0 || (i == last && v[i] == 0x80);
        }
      }
    }
  }

  // CastToBigNum, with the exception for long items as None
  function CastToNum(v: Item): (r: Option<int>)
    ensures r.Some? ==> Abs(r.value) < 0x1_0000_0000
  {
    if |v| > MAX_NUM_SIZE then None else
    DecodeBound(v);
    PowerValues();
    PowerGrows(|v|, 4);
    Some(DecodeNum(v))
  }

  lemma {:induction false} PowerGrows(a: nat, b: nat)
    requires a <= b
    ensures Power(a) <= Power(b)
  {
    if a < b {
      PowerGrows(a, b - 1);
      assert Power(b) == 256 * Power(b - 1);
    }
  }
}
