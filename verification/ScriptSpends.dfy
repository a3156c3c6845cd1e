/**
 Whole spends: which signatures, keys and redeem scripts satisfy the standard
 scripts.
 */
module ScriptSpends {
  import opened Basics
  import opened ScriptBytes
  import opened ScriptNumbers
  import opened ScriptMachine
  import opened ScriptSigOps
  import Multisig

  // --- one instruction at the head of a script

  function At(op: byte, rest: seq<byte>): Placed {
    Placed(Instr(op, []), rest)
  }

  // The machine after p has put this stack in place
  function Moved(p: Placed, m: Machine, stack: seq<Item>): Machine {
    m.(stack := stack, opCount := if p.instr.opcode > OP_16 then m.opCount + 1 else m.opCount, ran := m.ran + [p])
  }

  predicate IsPlain(op: byte) {
    op > OP_16 && !(OP_IF <= op <= OP_ENDIF) && !Disabled(op)
  }

  lemma ReadsOp(op: byte, rest: seq<byte>)
    requires op > OP_PUSHDATA4
    ensures ReadOp([op] + rest) == Some(Read(Instr(op, []), 1)) && ([op] + rest)[1..] == rest
  {}

  // The script goes on from what an executed instruction leaves.
  function Continue(ctx: Context, rest: seq<byte>, o: Outcome): Outcome {
    match o
    case Fail(calls) => Fail(calls)
    case Ok(m) => if Fits(m) then Evaluate(ctx, rest, [], m) else Fail(m.calls)
  }

  lemma StepOp(ctx: Context, op: byte, rest: seq<byte>, m: Machine)
    requires IsPlain(op) && m.opCount < MAX_OPS
    ensures Evaluate(ctx, [op] + rest, [], m) == Continue(ctx, rest, Execute(ctx, At(op, rest), Moved(At(op, rest), m, m.stack)))
  {
    hide Execute, ReadOp, Evaluate, Disabled;
    ReadsOp(op, rest);
    EvaluateStep(ctx, [op] + rest, [], m);
    assert Record(At(op, rest), m.(opCount := m.opCount + 1)) == Moved(At(op, rest), m, m.stack);
  }

  lemma TakesIsPlain(op: byte)
    requires Takes(op).Some?
    ensures IsPlain(op) && op != OP_NOP && !(OP_NOP1 <= op <= OP_NOP10)
  {}

  // An operator that works on the top of the stack
  lemma StepTop(ctx: Context, op: byte, rest: seq<byte>, m: Machine, below: seq<Item>, x: seq<Item>)
    requires Takes(op) == Some(|x|) && m.stack == below + x && m.opCount < MAX_OPS
    ensures Evaluate(ctx, [op] + rest, [], m) == match Leaves(ctx, op, x)
      case None => Fail(m.calls)
      case Some(y) => Continue(ctx, rest, Ok(Moved(At(op, rest), m, below + y)))
  {
    hide Evaluate, Leaves, Takes, IsPlain, Fits;
    TakesIsPlain(op);
    StepOp(ctx, op, rest, m);
    var p := At(op, rest);
    var m' := Moved(p, m, m.stack);
    assert m'.stack[..|below|] == below && m'.stack[|below|..] == x;
    assert Execute(ctx, p, m') == TopOperator(ctx, op, m');
    if Leaves(ctx, op, x).Some? {
      assert m'.(stack := below + Leaves(ctx, op, x).value) == Moved(p, m, below + Leaves(ctx, op, x).value);
    }
  }

  lemma StepShort(ctx: Context, op: byte, rest: seq<byte>, m: Machine)
    requires Takes(op).Some? && |m.stack| < Takes(op).value && m.opCount < MAX_OPS
    ensures Evaluate(ctx, [op] + rest, [], m) == Fail(m.calls)
  {
    hide Evaluate, Leaves, Takes, IsPlain;
    TakesIsPlain(op);
    StepOp(ctx, op, rest, m);
  }

  lemma StepPush(ctx: Context, data: Item, rest: seq<byte>, m: Machine)
    requires |data| < 0x1_0000_0000
    ensures Evaluate(ctx, Push(data) + rest, [], m) ==
      if |data| > MAX_ITEM_SIZE then Fail(m.calls)
      else Continue(ctx, rest, Ok(Moved(Placed(Instr(PushOpcode(data), data), rest), m, m.stack + [data])))
  {
    hide ReadOp, Evaluate, Push, Print, Encodable;
    var i := Instr(PushOpcode(data), data);
    PushIsPrint(data);
    ReadPrinted(i, rest);
    var s := Print(i) + rest;
    assert s[|Print(i)|..] == rest;
    EvaluateStep(ctx, s, [], m);
    assert Record(Placed(i, rest), m).(stack := m.stack + [data]) == Moved(Placed(i, rest), m, m.stack + [data]);
  }

  lemma StepEnd(ctx: Context, m: Machine)
    ensures Evaluate(ctx, [], [], m) == Ok(m)
  {
    EvaluateEnd(ctx, [], [], m);
  }

  // --- pay to public key

  // What a signature signs: the script without that signature
  function SignedCode(script: seq<byte>, sig: Item): seq<byte> {
    Deleted(script, Push(sig))
  }

  // sig is right for key and for the script without sig.
  predicate Signs(ctx: Context, sig: Item, key: Item, script: seq<byte>) {
    ctx.check(sig, key, SignedCode(script, sig))
  }

  function Top(stack: seq<Item>, depth: nat): Item
    requires depth < |stack|
  {
    stack[|stack| - 1 - depth]
  }

  // OP_CHECKSIG as the last operator
  lemma StepCheckSig(ctx: Context, m: Machine, below: seq<Item>, sig: Item, key: Item)
    requires m.stack == below + [sig, key] && m.opCount < MAX_OPS && |m.stack| + |m.alt| <= MAX_ITEMS
    ensures var o := Evaluate(ctx, [OP_CHECKSIG], [], m);
      o.Ok? && o.machine.stack == below + [Bool(Signs(ctx, sig, key, m.code))]
  {
    hide Evaluate, Deleted, Push;
    assert [OP_CHECKSIG] + [] == [OP_CHECKSIG];
    StepOp(ctx, OP_CHECKSIG, [], m);
    assert m.stack[..|m.stack| - 2] == below;
    WithoutOne(m.code, sig);
    var o := Execute(ctx, At(OP_CHECKSIG, []), Moved(At(OP_CHECKSIG, []), m, m.stack));
    assert o.Ok?;
    StepEnd(ctx, o.machine);
  }

  lemma WithoutOne(code: seq<byte>, sig: Item)
    ensures WithoutSignatures(code, [sig]) == SignedCode(code, sig)
  {
    hide Deleted, Push;
    assert [sig][1..] == [];
    assert WithoutSignatures(Deleted(code, Push(sig)), []) == Deleted(code, Push(sig));
  }

  lemma StepCheckSigShort(ctx: Context, m: Machine)
    requires |m.stack| < 2 && m.opCount < MAX_OPS
    ensures Evaluate(ctx, [OP_CHECKSIG], [], m) == Fail(m.calls)
  {
    hide Evaluate;
    assert [OP_CHECKSIG] + [] == [OP_CHECKSIG];
    StepOp(ctx, OP_CHECKSIG, [], m);
  }

  function KeyScript(key: Item): seq<byte> {
    Push(key) + [OP_CHECKSIG]
  }

  lemma TruthOfVerdict(rest: seq<Item>, b: bool)
    ensures TopHolds(rest + [Bool(b)]) <==> b
  {
    TruthOfBool(b);
  }

  lemma KeyScriptRun(ctx: Context, stack: seq<Item>, key: Item)
    ensures var o := Eval(ctx, stack, KeyScript(key));
      && (o.Ok? <==> |key| <= MAX_ITEM_SIZE && 1 <= |stack| < MAX_ITEMS)
      && (o.Ok? ==> o.machine.stack == stack[..|stack| - 1] + [Bool(Signs(ctx, Top(stack, 0), key, KeyScript(key)))])
  {
    hide Evaluate, Deleted, Push;
    var script := KeyScript(key);
    PushSize(key);
    if |script| <= MAX_SCRIPT_SIZE {
      var m := Start(stack, script);
      StepPush(ctx, key, [OP_CHECKSIG], m);
      var m1 := Moved(Placed(Instr(PushOpcode(key), key), [OP_CHECKSIG]), m, stack + [key]);
      if |stack| == 0 {
        StepCheckSigShort(ctx, m1);
      } else if Fits(m1) {
        var below := stack[..|stack| - 1];
        assert stack + [key] == below + [Top(stack, 0), key];
        StepCheckSig(ctx, m1, below, Top(stack, 0), key);
      }
    }
  }

  lemma PushSize(data: Item)
    ensures |data| < |Push(data)| <= |data| + 5
    ensures |data| < OP_PUSHDATA1 ==> |Push(data)| == |data| + 1 && Push(data)[0] == |data|
    ensures |data| <= MAX_ITEM_SIZE ==> |Push(data)| <= |data| + 3
    ensures Push(data)[0] <= OP_PUSHDATA4
  {
    hide Bytes;
  }

  /** Pay to public key: the spend succeeds exactly if the top item that the
      spending script leaves is a signature of the key. */
  lemma PayToKey(ctx: Context, scriptSig: seq<byte>, key: Item)
    ensures var a := Eval(ctx, [], scriptSig);
      Verify(ctx, scriptSig, KeyScript(key)).ok <==>
        && a.Ok? && |key| <= MAX_ITEM_SIZE && 1 <= |a.machine.stack| < MAX_ITEMS
        && Signs(ctx, Top(a.machine.stack, 0), key, KeyScript(key))
  {
    hide Eval, Push, TopHolds, Signs;
    var a := Eval(ctx, [], scriptSig);
    PushSize(key);
    if a.Ok? {
      var stack := a.machine.stack;
      KeyScriptRun(ctx, stack, key);
      if |key| <= MAX_ITEM_SIZE && 1 <= |stack| < MAX_ITEMS {
        TruthOfVerdict(stack[..|stack| - 1], Signs(ctx, Top(stack, 0), key, KeyScript(key)));
      }
    }
  }

  // --- pay to public key hash

  function Hash160(ctx: Context, x: Item): Item {
    Bytes(ctx.digest(OP_HASH160, x), 20)
  }

  function KeyHashScript(h: Item): seq<byte> {
    [OP_DUP] + ([OP_HASH160] + (Push(h) + ([OP_EQUALVERIFY] + [OP_CHECKSIG])))
  }

  // The two items on top, and what a comparison leaves
  lemma HashLeaves(ctx: Context, x: Item, h: Item)
    ensures Takes(OP_DUP) == Takes(OP_HASH160) == Some(1) && Takes(OP_EQUALVERIFY) == Takes(OP_EQUAL) == Some(2)
    ensures Leaves(ctx, OP_DUP, [x]) == Some([x, x])
    ensures Leaves(ctx, OP_HASH160, [x]) == Some([Hash160(ctx, x)])
    ensures Leaves(ctx, OP_EQUALVERIFY, [x, h]) == if x == h then Some([]) else None
    ensures Leaves(ctx, OP_EQUAL, [x, h]) == Some([Bool(x == h)])
  {
    hide Truth, EncodeNum, Bytes;
    assert [x] + [x] == [x, x];
  }

  // From the key on top to the comparison of its hash with h
  lemma HashTop(ctx: Context, rest: seq<byte>, m: Machine, below: seq<Item>, x: Item, h: Item) returns (m': Machine)
    requires m.stack == below + [x] && m.opCount + 2 <= MAX_OPS && |h| == 20 && |m.stack| + |m.alt| <= MAX_ITEMS
    ensures m' == m.(stack := below + [Hash160(ctx, x), h], opCount := m.opCount + 1, ran := m'.ran)
    ensures Evaluate(ctx, [OP_HASH160] + (Push(h) + rest), [], m) == Continue(ctx, rest, Ok(m'))
  {
    hide Evaluate, Push, Leaves, Takes;
    HashLeaves(ctx, x, h);
    StepTop(ctx, OP_HASH160, Push(h) + rest, m, below, [x]);
    var m1 := Moved(At(OP_HASH160, Push(h) + rest), m, below + [Hash160(ctx, x)]);
    StepPush(ctx, h, rest, m1);
    assert below + [Hash160(ctx, x)] + [h] == below + [Hash160(ctx, x), h];
    m' := Moved(Placed(Instr(PushOpcode(h), h), rest), m1, below + [Hash160(ctx, x), h]);
  }

  lemma KeyHashRun(ctx: Context, stack: seq<Item>, h: Item)
    requires |h| == 20
    ensures var o := Eval(ctx, stack, KeyHashScript(h));
      && (o.Ok? <==> 2 <= |stack| <= MAX_ITEMS - 2 && Hash160(ctx, Top(stack, 0)) == h)
      && (o.Ok? ==> o.machine.stack == stack[..|stack| - 2] + [Bool(Signs(ctx, Top(stack, 1), Top(stack, 0), KeyHashScript(h)))])
  {
    hide Evaluate, Deleted, Push, Leaves, Takes, Bytes;
    var script := KeyHashScript(h);
    PushSize(h);
    var m := Start(stack, script);
    var tail := [OP_EQUALVERIFY] + [OP_CHECKSIG];
    var rest := [OP_HASH160] + (Push(h) + tail);
    HashLeaves(ctx, [], []);
    if |stack| == 0 {
      StepShort(ctx, OP_DUP, rest, m);
    } else {
      var key, below := Top(stack, 0), stack[..|stack| - 1];
      assert stack == below + [key];
      HashLeaves(ctx, key, h);
      StepTop(ctx, OP_DUP, rest, m, below, [key]);
      assert below + [key, key] == stack + [key];
      var m1 := Moved(At(OP_DUP, rest), m, stack + [key]);
      if Fits(m1) {
        var m2 := HashTop(ctx, tail, m1, stack, key, h);
        if Fits(m2) {
          KeyHashEnd(ctx, m2, stack, h);
        }
      }
    }
  }

  lemma KeyHashEnd(ctx: Context, m: Machine, stack: seq<Item>, h: Item)
    requires stack != [] && m.stack == stack + [Hash160(ctx, Top(stack, 0)), h] && m.opCount == 2 && Fits(m)
    ensures var o := Evaluate(ctx, [OP_EQUALVERIFY] + [OP_CHECKSIG], [], m);
      && (o.Ok? <==> 2 <= |stack| && Hash160(ctx, Top(stack, 0)) == h)
      && (o.Ok? ==> o.machine.stack == stack[..|stack| - 2] + [Bool(Signs(ctx, Top(stack, 1), Top(stack, 0), m.code))])
  {
    hide Evaluate, Deleted, Push, Leaves, Takes, Bytes;
    var x := Hash160(ctx, Top(stack, 0));
    HashLeaves(ctx, x, h);
    StepTop(ctx, OP_EQUALVERIFY, [OP_CHECKSIG], m, stack, [x, h]);
    assert stack + [] == stack;
    var m' := Moved(At(OP_EQUALVERIFY, [OP_CHECKSIG]), m, stack);
    if |stack| < 2 {
      StepCheckSigShort(ctx, m');
    } else {
      assert stack == stack[..|stack| - 2] + [Top(stack, 1), Top(stack, 0)];
      StepCheckSig(ctx, m', stack[..|stack| - 2], Top(stack, 1), Top(stack, 0));
    }
  }

  /** Pay to public key hash: the spend succeeds exactly if the top item that the
      spending script leaves has this hash and the item below it is a signature of
      it. */
  lemma PayToKeyHash(ctx: Context, scriptSig: seq<byte>, h: Item)
    requires |h| == 20
    ensures var a := Eval(ctx, [], scriptSig);
      Verify(ctx, scriptSig, KeyHashScript(h)).ok <==>
        && a.Ok? && 2 <= |a.machine.stack| <= MAX_ITEMS - 2
        && Hash160(ctx, Top(a.machine.stack, 0)) == h
        && Signs(ctx, Top(a.machine.stack, 1), Top(a.machine.stack, 0), KeyHashScript(h))
  {
    hide Eval, Push, TopHolds, Signs, Hash160;
    var a := Eval(ctx, [], scriptSig);
    PushSize(h);
    if a.Ok? {
      var stack := a.machine.stack;
      KeyHashRun(ctx, stack, h);
      if 2 <= |stack| {
        TruthOfVerdict(stack[..|stack| - 2], Signs(ctx, Top(stack, 1), Top(stack, 0), KeyHashScript(h)));
      }
    }
  }

  // --- spends that push their items

  lemma PushTwo(ctx: Context, x: Item, y: Item)
    ensures var o := Eval(ctx, [], Push(x) + Push(y));
      && (o.Ok? <==> |x| <= MAX_ITEM_SIZE && |y| <= MAX_ITEM_SIZE)
      && (o.Ok? ==> o.machine.stack == [x, y])
  {
    hide Evaluate, Push;
    PushSize(x);
    PushSize(y);
    var script := Push(x) + Push(y);
    if |script| <= MAX_SCRIPT_SIZE {
      var m := Start([], script);
      StepPush(ctx, x, Push(y), m);
      var m1 := Moved(Placed(Instr(PushOpcode(x), x), Push(y)), m, [] + [x]);
      assert Push(y) + [] == Push(y);
      StepPush(ctx, y, [], m1);
      StepEnd(ctx, Moved(Placed(Instr(PushOpcode(y), y), []), m1, m1.stack + [y]));
    }
  }

  lemma PushOne(ctx: Context, x: Item)
    ensures var o := Eval(ctx, [], Push(x));
      && (o.Ok? <==> |x| <= MAX_ITEM_SIZE)
      && (o.Ok? ==> o.machine.stack == [x])
  {
    hide Evaluate, Push;
    PushSize(x);
    if |Push(x)| <= MAX_SCRIPT_SIZE {
      var m := Start([], Push(x));
      assert Push(x) + [] == Push(x);
      StepPush(ctx, x, [], m);
      StepEnd(ctx, Moved(Placed(Instr(PushOpcode(x), x), []), m, [] + [x]));
    }
  }

  /** A signature alone spends an output to a key exactly if it signs for the key. */
  lemma KeySpend(ctx: Context, sig: Item, key: Item)
    ensures Verify(ctx, Push(sig), KeyScript(key)).ok <==>
      |sig| <= MAX_ITEM_SIZE && |key| <= MAX_ITEM_SIZE && Signs(ctx, sig, key, KeyScript(key))
  {
    hide Eval, Verify, Push, Signs;
    PushOne(ctx, sig);
    PayToKey(ctx, Push(sig), key);
  }

  /** A signature and a key spend an output to a key hash exactly if the key has the
      hash and the signature signs for the key. */
  lemma KeyHashSpend(ctx: Context, sig: Item, key: Item, h: Item)
    requires |h| == 20
    ensures Verify(ctx, Push(sig) + Push(key), KeyHashScript(h)).ok <==>
      |sig| <= MAX_ITEM_SIZE && |key| <= MAX_ITEM_SIZE && Hash160(ctx, key) == h && Signs(ctx, sig, key, KeyHashScript(h))
  {
    hide Eval, Verify, Push, Signs, Hash160;
    PushTwo(ctx, sig, key);
    PayToKeyHash(ctx, Push(sig) + Push(key), h);
  }

  // --- pay to script hash

  function ScriptHashScript(h: Item): seq<byte> {
    [OP_HASH160] + (Push(h) + [OP_EQUAL])
  }

  // Every instruction of the script can be read and pushes.
  ghost predicate OnlyPushes(script: seq<byte>) {
    Readable(script) && AllPush(Parse(script).instrs)
  }

  ghost predicate AllPush(instrs: seq<Instr>) {
    forall i | 0 <= i < |instrs| :: instrs[i].opcode <= OP_16
  }

  lemma AllPushCons(first: Instr, more: seq<Instr>)
    ensures AllPush([first] + more) <==> first.opcode <= OP_16 && AllPush(more)
  {
    var all := [first] + more;
    if AllPush(all) {
      assert all[0] == first;
      forall i | 0 <= i < |more| ensures more[i].opcode <= OP_16 {
        assert all[i + 1] == more[i];
      }
    }
  }

  lemma NothingPushes()
    ensures AllPush([])
  {}

  lemma {:induction false} PushedLastDecides(script: seq<byte>, data: Item)
    ensures PushedLast(script, data).Some? <==> OnlyPushes(script)
    decreases |script|
  {
    hide ReadOp, Parse, PushedLast, AllPush;
    if ReadOp(script).None? {
      PushedNothing(script, data);
      ParseNothing(script);
      NothingPushes();
    } else {
      PushedLastStep(script, data);
      ParseStep(script);
      var r := ReadOp(script).value;
      var rest := script[r.next..];
      PushedLastDecides(rest, r.instr.data);
      AllPushCons(r.instr, Parse(rest).instrs);
    }
  }

  lemma ScriptHashShape(h: Item)
    requires |h| == 20
    ensures IsPayToScriptHash(ScriptHashScript(h)) && Push(h) == [20] + h
  {}

  lemma ScriptHashRun(ctx: Context, stack: seq<Item>, h: Item)
    requires |h| == 20
    ensures var o := Eval(ctx, stack, ScriptHashScript(h));
      && (o.Ok? <==> 1 <= |stack| < MAX_ITEMS)
      && (o.Ok? ==> o.machine.stack == stack[..|stack| - 1] + [Bool(Hash160(ctx, Top(stack, 0)) == h)])
  {
    hide Evaluate, Push, Leaves, Takes, Bytes;
    var script := ScriptHashScript(h);
    PushSize(h);
    var m := Start(stack, script);
    HashLeaves(ctx, [], []);
    if |stack| == 0 {
      StepShort(ctx, OP_HASH160, Push(h) + [OP_EQUAL], m);
    } else if |stack| > MAX_ITEMS {
      FullStack(ctx, h, m);
    } else {
      var x, below := Top(stack, 0), stack[..|stack| - 1];
      assert stack == below + [x];
      var m1 := HashTop(ctx, [OP_EQUAL], m, below, x, h);
      HashLeaves(ctx, Hash160(ctx, x), h);
      assert [OP_EQUAL] + [] == [OP_EQUAL];
      StepTop(ctx, OP_EQUAL, [], m1, below, [Hash160(ctx, x), h]);
      StepEnd(ctx, Moved(At(OP_EQUAL, []), m1, below + [Bool(Hash160(ctx, x) == h)]));
    }
  }

  lemma FullStack(ctx: Context, h: Item, m: Machine)
    requires |m.stack| > MAX_ITEMS && m.opCount < MAX_OPS
    ensures Evaluate(ctx, [OP_HASH160] + (Push(h) + [OP_EQUAL]), [], m).Fail?
  {
    hide Evaluate, Push, Leaves, Takes, Bytes;
    var x, below := Top(m.stack, 0), m.stack[..|m.stack| - 1];
    assert m.stack == below + [x];
    HashLeaves(ctx, x, h);
    StepTop(ctx, OP_HASH160, Push(h) + [OP_EQUAL], m, below, [x]);
  }

  /** Pay to script hash: the spend succeeds exactly if the spending script only
      pushes, its last item has this hash, and run as a script on the items below
      it that item ends with a true value. */
  lemma PayToScriptHash(ctx: Context, scriptSig: seq<byte>, h: Item)
    requires |h| == 20
    ensures var a := Eval(ctx, [], scriptSig);
      Verify(ctx, scriptSig, ScriptHashScript(h)).ok <==>
        && a.Ok? && OnlyPushes(scriptSig) && 1 <= |a.machine.stack| < MAX_ITEMS
        && Hash160(ctx, Top(a.machine.stack, 0)) == h
        && var c := Eval(ctx, a.machine.stack[..|a.machine.stack| - 1], Top(a.machine.stack, 0));
           c.Ok? && TopHolds(c.machine.stack)
  {
    hide Eval, TopHolds, Hash160, OnlyPushes, PushedLast, ScriptHashScript, IsPayToScriptHash;
    var a := Eval(ctx, [], scriptSig);
    ScriptHashShape(h);
    PushedLastDecides(scriptSig, []);
    if a.Ok? {
      var stack := a.machine.stack;
      ScriptHashRun(ctx, stack, h);
      if 1 <= |stack| {
        TruthOfVerdict(stack[..|stack| - 1], Hash160(ctx, Top(stack, 0)) == h);
      }
    }
  }

  // --- conditionals and code separators

  // One instruction that can be read, under any flags
  lemma StepAny(ctx: Context, i: Instr, rest: seq<byte>, exec: seq<bool>, m: Machine)
    requires Encodable(i)
    ensures Evaluate(ctx, Print(i) + rest, exec, m) == match Step(ctx, Placed(i, rest), exec, m)
      case Stop(calls) => Fail(calls)
      case Next(exec', m') => Evaluate(ctx, rest, exec', m')
  {
    hide ReadOp, Evaluate, Step, Print, Encodable;
    ReadPrinted(i, rest);
    var s := Print(i) + rest;
    assert s[|Print(i)|..] == rest;
    EvaluateStep(ctx, s, exec, m);
  }

  lemma PrintOp(op: byte)
    requires op > OP_PUSHDATA4
    ensures Encodable(Instr(op, [])) && Print(Instr(op, [])) == [op]
  {
    FewBytes(0);
    assert [op] + [] + [] == [op];
  }

  // A push on the executed or on the skipped side of a conditional
  lemma StepArm(ctx: Context, data: Item, rest: seq<byte>, live: bool, m: Machine) returns (m': Machine)
    requires |data| <= MAX_ITEM_SIZE && |m.stack| + |m.alt| < MAX_ITEMS
    ensures m' == m.(stack := if live then m.stack + [data] else m.stack, ran := m'.ran)
    ensures Evaluate(ctx, Push(data) + rest, [live], m) == Evaluate(ctx, rest, [live], m')
  {
    hide Evaluate, Push, Print, Encodable;
    var i := Instr(PushOpcode(data), data);
    PushIsPrint(data);
    StepAny(ctx, i, rest, [live], m);
    m' := if live then Record(Placed(i, rest), m).(stack := m.stack + [data]) else m;
  }

  lemma StepElse(ctx: Context, rest: seq<byte>, live: bool, m: Machine)
    requires m.opCount < MAX_OPS && Fits(m)
    ensures Evaluate(ctx, [OP_ELSE] + rest, [live], m) == Evaluate(ctx, rest, [!live], m.(opCount := m.opCount + 1))
    ensures Evaluate(ctx, [OP_ENDIF] + rest, [live], m) == Evaluate(ctx, rest, [], m.(opCount := m.opCount + 1))
  {
    hide Evaluate, Print, Encodable;
    PrintOp(OP_ELSE);
    PrintOp(OP_ENDIF);
    StepAny(ctx, Instr(OP_ELSE, []), rest, [live], m);
    StepAny(ctx, Instr(OP_ENDIF, []), rest, [live], m);
    assert [live][..0] + [!live] == [!live];
  }

  lemma StepIf(ctx: Context, op: byte, rest: seq<byte>, m: Machine, below: seq<Item>, c: Item) returns (m': Machine)
    requires (op == OP_IF || op == OP_NOTIF) && m.stack == below + [c] && m.opCount < MAX_OPS && Fits(m)
    ensures m' == m.(stack := below, opCount := m.opCount + 1, ran := m'.ran)
    ensures Evaluate(ctx, [op] + rest, [], m) == Evaluate(ctx, rest, [if op == OP_IF then DecodeNum(c) != 0 else DecodeNum(c) == 0], m')
  {
    hide Evaluate, Print, Encodable, Truth, DecodeNum;
    PrintOp(op);
    TruthIsNonZero(c);
    StepAny(ctx, Instr(op, []), rest, [], m);
    assert m.stack[..|m.stack| - 1] == below;
    assert [] + [Truth(c) == (op == OP_IF)] == [Truth(c) == (op == OP_IF)];
    m' := Record(At(op, rest), m.(opCount := m.opCount + 1)).(stack := below);
  }

  function IfScript(op: byte, a: Item, b: Item): seq<byte> {
    [op] + (Push(a) + ([OP_ELSE] + (Push(b) + [OP_ENDIF])))
  }

  /** OP_IF takes the first arm if the number on top is not zero and the second if it
      is; OP_NOTIF the other way round. */
  lemma IfChooses(ctx: Context, op: byte, below: seq<Item>, c: Item, a: Item, b: Item)
    requires (op == OP_IF || op == OP_NOTIF) && |a| <= MAX_ITEM_SIZE && |b| <= MAX_ITEM_SIZE && |below| < MAX_ITEMS
    ensures var o := Eval(ctx, below + [c], IfScript(op, a, b));
      o.Ok? && o.machine.stack == below + [if (DecodeNum(c) != 0) == (op == OP_IF) then a else b]
  {
    hide Evaluate, Push, DecodeNum;
    PushSize(a);
    PushSize(b);
    var tail := Push(b) + [OP_ENDIF];
    var m := Start(below + [c], IfScript(op, a, b));
    var first := (DecodeNum(c) != 0) == (op == OP_IF);
    var m1 := StepIf(ctx, op, Push(a) + ([OP_ELSE] + tail), m, below, c);
    var m2 := StepArm(ctx, a, [OP_ELSE] + tail, first, m1);
    StepElse(ctx, tail, first, m2);
    var m3 := m2.(opCount := m2.opCount + 1);
    SecondArm(ctx, below, a, b, first, m3);
  }

  lemma SecondArm(ctx: Context, below: seq<Item>, a: Item, b: Item, first: bool, m: Machine)
    requires |b| <= MAX_ITEM_SIZE && |below| < MAX_ITEMS && m.alt == [] && m.opCount == 2
    requires m.stack == if first then below + [a] else below
    ensures var o := Evaluate(ctx, Push(b) + [OP_ENDIF], [!first], m);
      o.Ok? && o.machine.stack == below + [if first then a else b]
  {
    hide Evaluate, Push;
    assert [OP_ENDIF] + [] == [OP_ENDIF];
    if first {
      SkippedArm(ctx, b, m);
    } else {
      var m1 := StepArm(ctx, b, [OP_ENDIF], !first, m);
      StepElse(ctx, [], !first, m1);
      StepEnd(ctx, m1.(opCount := m1.opCount + 1));
    }
  }

  lemma SkippedArm(ctx: Context, b: Item, m: Machine)
    requires |b| <= MAX_ITEM_SIZE && Fits(m) && m.opCount < MAX_OPS
    ensures Evaluate(ctx, Push(b) + [OP_ENDIF], [false], m) == Ok(m.(opCount := m.opCount + 1))
  {
    hide Evaluate, Push, Print, Encodable;
    PushIsPrint(b);
    StepAny(ctx, Instr(PushOpcode(b), b), [OP_ENDIF], [false], m);
    assert [OP_ENDIF] + [] == [OP_ENDIF];
    StepElse(ctx, [], false, m);
    StepEnd(ctx, m.(opCount := m.opCount + 1));
  }

  /** Behind a code separator the signature covers only what follows it. */
  lemma SeparatedKey(ctx: Context, sig: Item, key: Item)
    requires |sig| <= MAX_ITEM_SIZE && |key| <= MAX_ITEM_SIZE
    ensures var o := Eval(ctx, [sig], [OP_CODESEPARATOR] + KeyScript(key));
      o.Ok? && o.machine.stack == [Bool(Signs(ctx, sig, key, KeyScript(key)))]
  {
    hide Evaluate, Push, Signs;
    PushSize(key);
    var rest := KeyScript(key);
    var m := Start([sig], [OP_CODESEPARATOR] + rest);
    StepOp(ctx, OP_CODESEPARATOR, rest, m);
    var m1 := Moved(At(OP_CODESEPARATOR, rest), m, [sig]).(code := rest);
    assert Execute(ctx, At(OP_CODESEPARATOR, rest), Moved(At(OP_CODESEPARATOR, rest), m, [sig])) == Ok(m1);
    StepPush(ctx, key, [OP_CHECKSIG], m1);
    var m2 := Moved(Placed(Instr(PushOpcode(key), key), [OP_CHECKSIG]), m1, [sig] + [key]);
    assert [sig] + [key] == [] + [sig, key];
    StepCheckSig(ctx, m2, [], sig, key);
    assert [] + [Bool(Signs(ctx, sig, key, rest))] == [Bool(Signs(ctx, sig, key, rest))];
  }
}
