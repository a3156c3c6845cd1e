/**
 What the single operators do, in terms of items and of the numbers they encode.
 */
module ScriptOperators {
  import opened Basics
  import opened ScriptBytes
  import opened ScriptNumbers
  import opened ScriptMachine

  // op executed on a machine with the items x on top, the last one uppermost
  function On(ctx: Context, op: byte, m: Machine, x: seq<Item>): Outcome {
    Execute(ctx, Placed(Instr(op, []), []), m.(stack := m.stack + x))
  }

  // The same machine with the items y on top
  function Gives(m: Machine, y: seq<Item>): Outcome {
    Ok(m.(stack := m.stack + y))
  }

  lemma OnIsTop(ctx: Context, op: byte, m: Machine, x: seq<Item>)
    requires Takes(op) == Some(|x|)
    ensures On(ctx, op, m, x) == match Leaves(ctx, op, x)
      case None => Fail(m.calls)
      case Some(y) => Gives(m, y)
  {
    hide Leaves, Takes;
    TakesIsHigh(op);
    var m' := m.(stack := m.stack + x);
    assert m'.stack[|m.stack|..] == x && m'.stack[..|m.stack|] == m.stack;
    assert On(ctx, op, m, x) == TopOperator(ctx, op, m');
  }

  lemma Effect(ctx: Context, op: byte, m: Machine, x: seq<Item>, y: seq<Item>)
    requires Takes(op) == Some(|x|) && Leaves(ctx, op, x).Some? && Leaves(ctx, op, x).value == y
    ensures On(ctx, op, m, x) == Gives(m, y)
  {
    hide Leaves, Takes, On;
    OnIsTop(ctx, op, m, x);
  }

  lemma NoEffect(ctx: Context, op: byte, m: Machine, x: seq<Item>)
    requires Takes(op) == Some(|x|) && Leaves(ctx, op, x).None?
    ensures On(ctx, op, m, x) == Fail(m.calls)
  {
    hide Leaves, Takes, On;
    OnIsTop(ctx, op, m, x);
  }

  lemma TakesIsHigh(op: byte)
    requires Takes(op).Some?
    ensures op > OP_16 && op != OP_NOP && !(OP_NOP1 <= op <= OP_NOP10)
  {}

  // --- items

  /** The operators on one and two items leave what their names say. */
  lemma SmallStackEffects(ctx: Context, m: Machine, a: Item, b: Item)
    ensures On(ctx, OP_DROP, m, [a]) == Gives(m, [])
    ensures On(ctx, OP_DUP, m, [a]) == Gives(m, [a, a])
    ensures On(ctx, OP_IFDUP, m, [a]) == Gives(m, if DecodeNum(a) != 0 then [a, a] else [a])
    ensures On(ctx, OP_VERIFY, m, [a]) == if DecodeNum(a) != 0 then Gives(m, []) else Fail(m.calls)
    ensures On(ctx, OP_NIP, m, [a, b]) == Gives(m, [b])
    ensures On(ctx, OP_OVER, m, [a, b]) == Gives(m, [a, b, a])
    ensures On(ctx, OP_SWAP, m, [a, b]) == Gives(m, [b, a])
    ensures On(ctx, OP_TUCK, m, [a, b]) == Gives(m, [b, a, b])
    ensures On(ctx, OP_2DROP, m, [a, b]) == Gives(m, [])
    ensures On(ctx, OP_2DUP, m, [a, b]) == Gives(m, [a, b, a, b])
  {
    hide On, Gives, Truth, DecodeNum;
    TruthIsNonZero(a);
    Effect(ctx, OP_DROP, m, [a], []);
    Effect(ctx, OP_DUP, m, [a], [a, a]);
    Effect(ctx, OP_IFDUP, m, [a], if DecodeNum(a) != 0 then [a, a] else [a]);
    if DecodeNum(a) != 0 {
      Effect(ctx, OP_VERIFY, m, [a], []);
    } else {
      NoEffect(ctx, OP_VERIFY, m, [a]);
    }
    Effect(ctx, OP_NIP, m, [a, b], [b]);
    Effect(ctx, OP_OVER, m, [a, b], [a, b, a]);
    Effect(ctx, OP_SWAP, m, [a, b], [b, a]);
    Effect(ctx, OP_TUCK, m, [a, b], [b, a, b]);
    Effect(ctx, OP_2DROP, m, [a, b], []);
    Effect(ctx, OP_2DUP, m, [a, b], [a, b, a, b]);
  }

  /** So do those on more. */
  lemma LargeStackEffects(ctx: Context, m: Machine, a: Item, b: Item, c: Item, d: Item, e: Item, f: Item)
    ensures On(ctx, OP_3DUP, m, [a, b, c]) == Gives(m, [a, b, c, a, b, c])
    ensures On(ctx, OP_ROT, m, [a, b, c]) == Gives(m, [b, c, a])
    ensures On(ctx, OP_2OVER, m, [a, b, c, d]) == Gives(m, [a, b, c, d, a, b])
    ensures On(ctx, OP_2SWAP, m, [a, b, c, d]) == Gives(m, [c, d, a, b])
    ensures On(ctx, OP_2ROT, m, [a, b, c, d, e, f]) == Gives(m, [c, d, e, f, a, b])
  {
    hide On, Gives, Truth;
    Effect(ctx, OP_3DUP, m, [a, b, c], [a, b, c, a, b, c]);
    Effect(ctx, OP_ROT, m, [a, b, c], [b, c, a]);
    Effect(ctx, OP_2OVER, m, [a, b, c, d], [a, b, c, d, a, b]);
    Effect(ctx, OP_2SWAP, m, [a, b, c, d], [c, d, a, b]);
    Effect(ctx, OP_2ROT, m, [a, b, c, d, e, f], [c, d, e, f, a, b]);
  }

  /** Sizes, depths and comparisons */
  lemma ReadingEffects(ctx: Context, m: Machine, a: Item, b: Item)
    ensures On(ctx, OP_SIZE, m, [a]) == Gives(m, [a, EncodeNum(|a|)])
    ensures On(ctx, OP_DEPTH, m, []) == Gives(m, [EncodeNum(|m.stack|)])
    ensures On(ctx, OP_EQUAL, m, [a, b]) == Gives(m, [Bool(a == b)])
    ensures On(ctx, OP_EQUALVERIFY, m, [a, b]) == if a == b then Gives(m, []) else Fail(m.calls)
  {
    hide On, Gives, EncodeNum, Bytes, Bool, Truth;
    Effect(ctx, OP_SIZE, m, [a], [a, EncodeNum(|a|)]);
    DepthEffect(ctx, m);
    Effect(ctx, OP_EQUAL, m, [a, b], [Bool(a == b)]);
    if a == b {
      Effect(ctx, OP_EQUALVERIFY, m, [a, b], []);
    } else {
      NoEffect(ctx, OP_EQUALVERIFY, m, [a, b]);
    }
  }

  /** The digests, with their sizes in bytes */
  lemma DigestEffects(ctx: Context, m: Machine, a: Item)
    ensures On(ctx, OP_RIPEMD160, m, [a]) == Gives(m, [Bytes(ctx.digest(OP_RIPEMD160, a), 20)])
    ensures On(ctx, OP_SHA1, m, [a]) == Gives(m, [Bytes(ctx.digest(OP_SHA1, a), 20)])
    ensures On(ctx, OP_SHA256, m, [a]) == Gives(m, [Bytes(ctx.digest(OP_SHA256, a), 32)])
    ensures On(ctx, OP_HASH160, m, [a]) == Gives(m, [Bytes(ctx.digest(OP_HASH160, a), 20)])
    ensures On(ctx, OP_HASH256, m, [a]) == Gives(m, [Bytes(ctx.digest(OP_HASH256, a), 32)])
  {
    hide On, Gives, EncodeNum, Bytes, Bool, Truth;
    Effect(ctx, OP_RIPEMD160, m, [a], [Bytes(ctx.digest(OP_RIPEMD160, a), 20)]);
    Effect(ctx, OP_SHA1, m, [a], [Bytes(ctx.digest(OP_SHA1, a), 20)]);
    Effect(ctx, OP_SHA256, m, [a], [Bytes(ctx.digest(OP_SHA256, a), 32)]);
    Effect(ctx, OP_HASH160, m, [a], [Bytes(ctx.digest(OP_HASH160, a), 20)]);
    Effect(ctx, OP_HASH256, m, [a], [Bytes(ctx.digest(OP_HASH256, a), 32)]);
  }

  /** The constants -1 and 1 to 16 are single bytes. */
  lemma ConstantEffects(ctx: Context, m: Machine, n: int)
    ensures On(ctx, OP_1NEGATE, m, []) == Gives(m, [[0x81]])
    ensures 1 <= n <= 16 ==> On(ctx, OP_RESERVED + n, m, []) == Gives(m, [[n]])
  {
    hide EncodeNum;
    assert m.stack + [] == m.stack;
    OneByte(1);
    if 1 <= n <= 16 {
      OneByte(n);
    }
  }

  lemma OneByte(n: int)
    requires 1 <= n < 0x80
    ensures EncodeNum(n) == [n] && EncodeNum(-n) == [n + 0x80]
  {
    assert Magnitude(n) == [n] by {
      OneDigit(n);
    }
    hide Magnitude;
    var m := [n];
    assert m[..0] + [n] == [n] && m[..0] + [n + 0x80] == [n + 0x80];
  }

  lemma OneDigit(n: nat)
    requires 1 <= n < 256
    ensures Magnitude(n) == [n]
  {
    assert n / 256 == 0 && n % 256 == n;
    assert Magnitude(0) == [];
  }

  lemma DepthEffect(ctx: Context, m: Machine)
    ensures On(ctx, OP_DEPTH, m, []) == Gives(m, [EncodeNum(|m.stack|)])
  {
    hide EncodeNum;
    assert m.stack + [] == m.stack;
  }

  /** An item put on the other stack comes back from it, last in first out. */
  lemma AltStackReturns(ctx: Context, m: Machine, a: Item)
    ensures On(ctx, OP_TOALTSTACK, m, [a]) == Ok(m.(alt := m.alt + [a]))
    ensures Then(ctx, OP_FROMALTSTACK, On(ctx, OP_TOALTSTACK, m, [a])) == Gives(m, [a])
    ensures m.alt == [] ==> On(ctx, OP_FROMALTSTACK, m, []) == Fail(m.calls)
  {
    var m' := m.(stack := m.stack + [a]);
    assert m'.stack[..|m'.stack| - 1] == m.stack;
    var alt := m.alt + [a];
    assert alt[..|alt| - 1] == m.alt;
    assert m.stack + [] == m.stack;
  }

  // --- numbers

  // Between two powers of 256 the last byte is the leading digit.
  lemma {:induction false} MagnitudeLast(n: nat, k: nat)
    requires Power(k) <= n < Power(k + 1)
    ensures |Magnitude(n)| == k + 1
    ensures Magnitude(n)[k] * Power(k) <= n < (Magnitude(n)[k] + 1) * Power(k)
  {
    if k == 0 {
      assert Power(1) == 256 * Power(0);
      assert n / 256 == 0 && Magnitude(0) == [];
    } else {
      var h := n / 256;
      MagnitudeLast(h, k - 1);
      Scaled(Magnitude(h)[k - 1], Power(k - 1), n);
    }
  }

  lemma Scaled(q: nat, p: nat, n: nat)
    requires q * p <= n / 256 < (q + 1) * p
    ensures q * (256 * p) <= n < (q + 1) * (256 * p)
  {
    Scale(q, p);
    Scale(q + 1, p);
    assert n / 256 + 1 <= (q + 1) * p;
  }

  lemma {:induction false} MagnitudeLong(n: nat, k: nat)
    requires n >= Power(k)
    ensures |Magnitude(n)| > k
  {
    if k > 0 {
      MagnitudeLong(n / 256, k - 1);
    }
  }

  lemma ThreeBytes()
    ensures Power(3) == 0x100_0000 && Power(4) == 0x1_0000_0000
  {
    PowerValues();
    assert Power(3) == 256 * Power(2);
  }

  /** An item holds an operand, in at most four bytes, exactly if the number is below
      2^31 in absolute value. */
  lemma NumberFits(n: int)
    ensures |EncodeNum(n)| <= MAX_NUM_SIZE <==> Abs(n) < 0x8000_0000
    ensures CastToNum(EncodeNum(n)) == if Abs(n) < 0x8000_0000 then Some(n) else None
  {
    hide Magnitude, Power, DecodeNum;
    ThreeBytes();
    DecodeEncoded(n);
    var a := Abs(n);
    LittleMagnitude(a, []);
    if a < Power(3) {
      MagnitudeSize(a, 3);
    } else if a < Power(4) {
      MagnitudeLast(a, 3);
      var q := Magnitude(a)[3];
      assert q >= 0x80 <==> a >= 0x8000_0000;
    } else {
      MagnitudeLong(a, 4);
    }
  }

  lemma SmallNumbers()
    ensures EncodeNum(1) == [1] == Bool(true) && EncodeNum(0) == [] == Bool(false)
  {
    assert Magnitude(0) == [];
    assert Magnitude(1) == [1] + Magnitude(0);
  }

  predicate Operand(n: int) {
    Abs(n) < 0x8000_0000
  }

  /** The operators on one number */
  lemma UnaryEffects(ctx: Context, m: Machine, a: int)
    requires Operand(a)
    ensures var x := [EncodeNum(a)];
      && On(ctx, OP_1ADD, m, x) == Gives(m, [EncodeNum(a + 1)])
      && On(ctx, OP_1SUB, m, x) == Gives(m, [EncodeNum(a - 1)])
      && On(ctx, OP_NEGATE, m, x) == Gives(m, [EncodeNum(-a)])
      && On(ctx, OP_ABS, m, x) == Gives(m, [EncodeNum(if a < 0 then -a else a)])
      && On(ctx, OP_NOT, m, x) == Gives(m, [Bool(a == 0)])
      && On(ctx, OP_0NOTEQUAL, m, x) == Gives(m, [Bool(a != 0)])
  {
    hide On, Gives, EncodeNum, CastToNum, Bool, Truth;
    NumberFits(a);
    SmallNumbers();
    var x := [EncodeNum(a)];
    Effect(ctx, OP_1ADD, m, x, [EncodeNum(a + 1)]);
    Effect(ctx, OP_1SUB, m, x, [EncodeNum(a - 1)]);
    Effect(ctx, OP_NEGATE, m, x, [EncodeNum(-a)]);
    Effect(ctx, OP_ABS, m, x, [EncodeNum(if a < 0 then -a else a)]);
    Effect(ctx, OP_NOT, m, x, [Bool(a == 0)]);
    Effect(ctx, OP_0NOTEQUAL, m, x, [Bool(a != 0)]);
  }

  /** Sum, difference, least and greatest of two numbers */
  lemma BinaryEffects(ctx: Context, m: Machine, a: int, b: int)
    requires Operand(a) && Operand(b)
    ensures var x := [EncodeNum(a), EncodeNum(b)];
      && On(ctx, OP_ADD, m, x) == Gives(m, [EncodeNum(a + b)])
      && On(ctx, OP_SUB, m, x) == Gives(m, [EncodeNum(a - b)])
      && On(ctx, OP_MIN, m, x) == Gives(m, [EncodeNum(if a <= b then a else b)])
      && On(ctx, OP_MAX, m, x) == Gives(m, [EncodeNum(if a <= b then b else a)])
      && On(ctx, OP_NUMEQUALVERIFY, m, x) == if a == b then Gives(m, []) else Fail(m.calls)
  {
    hide On, Gives, EncodeNum, CastToNum, Truth;
    NumberFits(a);
    NumberFits(b);
    var x := [EncodeNum(a), EncodeNum(b)];
    Effect(ctx, OP_ADD, m, x, [EncodeNum(a + b)]);
    Effect(ctx, OP_SUB, m, x, [EncodeNum(a - b)]);
    Effect(ctx, OP_MIN, m, x, [EncodeNum(if a <= b then a else b)]);
    Effect(ctx, OP_MAX, m, x, [EncodeNum(if a <= b then b else a)]);
    if a == b {
      Effect(ctx, OP_NUMEQUALVERIFY, m, x, []);
    } else {
      NoEffect(ctx, OP_NUMEQUALVERIFY, m, x);
    }
  }

  /** The comparisons */
  lemma ComparisonEffects(ctx: Context, m: Machine, a: int, b: int)
    requires Operand(a) && Operand(b)
    ensures var x := [EncodeNum(a), EncodeNum(b)];
      && On(ctx, OP_NUMEQUAL, m, x) == Gives(m, [Bool(a == b)])
      && On(ctx, OP_NUMNOTEQUAL, m, x) == Gives(m, [Bool(a != b)])
      && On(ctx, OP_LESSTHAN, m, x) == Gives(m, [Bool(a < b)])
      && On(ctx, OP_GREATERTHAN, m, x) == Gives(m, [Bool(a > b)])
      && On(ctx, OP_LESSTHANOREQUAL, m, x) == Gives(m, [Bool(a <= b)])
      && On(ctx, OP_GREATERTHANOREQUAL, m, x) == Gives(m, [Bool(a >= b)])
  {
    hide On, Gives, EncodeNum, CastToNum, Bool, Truth;
    var x := [EncodeNum(a), EncodeNum(b)];
    ComparisonEffect(ctx, OP_NUMEQUAL, m, a, b);
    ComparisonEffect(ctx, OP_NUMNOTEQUAL, m, a, b);
    ComparisonEffect(ctx, OP_LESSTHAN, m, a, b);
    ComparisonEffect(ctx, OP_GREATERTHAN, m, a, b);
    ComparisonEffect(ctx, OP_LESSTHANOREQUAL, m, a, b);
    ComparisonEffect(ctx, OP_GREATERTHANOREQUAL, m, a, b);
  }

  lemma ComparisonEffect(ctx: Context, op: byte, m: Machine, a: int, b: int)
    requires Operand(a) && Operand(b) && OP_BOOLAND <= op <= OP_GREATERTHANOREQUAL && op != OP_NUMEQUALVERIFY
    ensures On(ctx, op, m, [EncodeNum(a), EncodeNum(b)]) == Gives(m, [Bool(Compares(op, a, b))])
  {
    hide On, Gives, EncodeNum, CastToNum, Bool, Truth, Compares;
    NumberFits(a);
    NumberFits(b);
    SmallNumbers();
    Effect(ctx, op, m, [EncodeNum(a), EncodeNum(b)], [Bool(Compares(op, a, b))]);
  }

  /** Both, either, and a range that holds its lower end and not its upper one */
  lemma LogicEffects(ctx: Context, m: Machine, a: int, b: int, c: int)
    requires Operand(a) && Operand(b) && Operand(c)
    ensures var x := [EncodeNum(a), EncodeNum(b)];
      && On(ctx, OP_BOOLAND, m, x) == Gives(m, [Bool(a != 0 && b != 0)])
      && On(ctx, OP_BOOLOR, m, x) == Gives(m, [Bool(a != 0 || b != 0)])
      && On(ctx, OP_WITHIN, m, [EncodeNum(a), EncodeNum(b), EncodeNum(c)]) == Gives(m, [Bool(b <= a < c)])
  {
    hide On, Gives, EncodeNum, CastToNum, Bool, Truth;
    NumberFits(a);
    NumberFits(b);
    NumberFits(c);
    ComparisonEffect(ctx, OP_BOOLAND, m, a, b);
    ComparisonEffect(ctx, OP_BOOLOR, m, a, b);
    Effect(ctx, OP_WITHIN, m, [EncodeNum(a), EncodeNum(b), EncodeNum(c)], [Bool(b <= a < c)]);
  }

  predicate IsNumeric(op: byte) {
    IsUnary(op) || IsBinary(op) || op == OP_WITHIN
  }

  /** A numeric operator fails exactly if one of its operands is longer than four
      bytes, but for the comparison that must hold. */
  lemma LongOperandFails(ctx: Context, op: byte, m: Machine, x: seq<Item>)
    requires IsNumeric(op) && op != OP_NUMEQUALVERIFY && Takes(op) == Some(|x|)
    ensures On(ctx, op, m, x).Fail? <==> exists i | 0 <= i < |x| :: |x[i]| > MAX_NUM_SIZE
  {
    hide On, EncodeNum, DecodeNum, Bool, Truth, Takes;
    assert Takes(op) == Some(if IsUnary(op) then 1 else if IsBinary(op) then 2 else 3) by {
      NumericTakes(op);
    }
    OnIsTop(ctx, op, m, x);
  }

  lemma NumericTakes(op: byte)
    requires IsNumeric(op)
    ensures Takes(op) == Some(if IsUnary(op) then 1 else if IsBinary(op) then 2 else 3)
  {}
}
