/**
 The script interpreter: what one instruction does to the machine, the flat
 run over a list of instructions with its stack of branch flags, and the
 interpreter loop.
 */
module ScriptMachine {
  import opened Basics
  import opened ScriptBytes
  import opened ScriptNumbers
  import Multisig

  const MAX_SCRIPT_SIZE := 10000
  const MAX_ITEM_SIZE := 520
  const MAX_OPS := 201
  const MAX_ITEMS := 1000
  const MAX_KEYS := 20

  const OP_1NEGATE: byte := 0x4f
  const OP_RESERVED: byte := 0x50
  const OP_1: byte := 0x51
  const OP_16: byte := 0x60
  const OP_NOP: byte := 0x61
  const OP_IF: byte := 0x63
  const OP_NOTIF: byte := 0x64
  const OP_VERIF: byte := 0x65
  const OP_VERNOTIF: byte := 0x66
  const OP_ELSE: byte := 0x67
  const OP_ENDIF: byte := 0x68
  const OP_VERIFY: byte := 0x69
  const OP_TOALTSTACK: byte := 0x6b
  const OP_FROMALTSTACK: byte := 0x6c
  const OP_2DROP: byte := 0x6d
  const OP_2DUP: byte := 0x6e
  const OP_3DUP: byte := 0x6f
  const OP_2OVER: byte := 0x70
  const OP_2ROT: byte := 0x71
  const OP_2SWAP: byte := 0x72
  const OP_IFDUP: byte := 0x73
  const OP_DEPTH: byte := 0x74
  const OP_DROP: byte := 0x75
  const OP_DUP: byte := 0x76
  const OP_NIP: byte := 0x77
  const OP_OVER: byte := 0x78
  const OP_PICK: byte := 0x79
  const OP_ROLL: byte := 0x7a
  const OP_ROT: byte := 0x7b
  const OP_SWAP: byte := 0x7c
  const OP_TUCK: byte := 0x7d
  const OP_CAT: byte := 0x7e
  const OP_RIGHT: byte := 0x81
  const OP_SIZE: byte := 0x82
  const OP_INVERT: byte := 0x83
  const OP_XOR: byte := 0x86
  const OP_EQUAL: byte := 0x87
  const OP_EQUALVERIFY: byte := 0x88
  const OP_1ADD: byte := 0x8b
  const OP_1SUB: byte := 0x8c
  const OP_2MUL: byte := 0x8d
  const OP_2DIV: byte := 0x8e
  const OP_NEGATE: byte := 0x8f
  const OP_ABS: byte := 0x90
  const OP_NOT: byte := 0x91
  const OP_0NOTEQUAL: byte := 0x92
  const OP_ADD: byte := 0x93
  const OP_SUB: byte := 0x94
  const OP_MUL: byte := 0x95
  const OP_RSHIFT: byte := 0x99
  const OP_BOOLAND: byte := 0x9a
  const OP_BOOLOR: byte := 0x9b
  const OP_NUMEQUAL: byte := 0x9c
  const OP_NUMEQUALVERIFY: byte := 0x9d
  const OP_NUMNOTEQUAL: byte := 0x9e
  const OP_LESSTHAN: byte := 0x9f
  const OP_GREATERTHAN: byte := 0xa0
  const OP_LESSTHANOREQUAL: byte := 0xa1
  const OP_GREATERTHANOREQUAL: byte := 0xa2
  const OP_MIN: byte := 0xa3
  const OP_MAX: byte := 0xa4
  const OP_WITHIN: byte := 0xa5
  const OP_RIPEMD160: byte := 0xa6
  const OP_SHA1: byte := 0xa7
  const OP_SHA256: byte := 0xa8
  const OP_HASH160: byte := 0xa9
  const OP_HASH256: byte := 0xaa
  const OP_CODESEPARATOR: byte := 0xab
  const OP_CHECKSIG: byte := 0xac
  const OP_CHECKSIGVERIFY: byte := 0xad
  const OP_CHECKMULTISIG: byte := 0xae
  const OP_CHECKMULTISIGVERIFY: byte := 0xaf
  const OP_NOP1: byte := 0xb0
  const OP_NOP10: byte := 0xb9

  // What the machine cannot see: whether a signature is right for a key and a
  // piece of script, and the digest an operator gives.
  datatype Context = Context(
    check: (Item, Item, seq<byte>) -> bool,
    digest: (byte, Item) -> nat)

  // code is the script from the last code separator on; calls counts the
  // signature checks made and ran lists the instructions executed, both for the
  // statements below.
  datatype Machine = Machine(stack: seq<Item>, alt: seq<Item>, opCount: nat, code: seq<byte>, calls: nat, ran: seq<Placed>)

  datatype Outcome = Fail(failedAfter: nat) | Ok(machine: Machine)
  {
    function Calls(): nat {
      match this
      case Fail(calls) => calls
      case Ok(m) => m.calls
    }
  }

  // An instruction with the bytes of the script that follow it
  datatype Placed = Placed(instr: Instr, after: seq<byte>)

  function Bool(b: bool): Item {
    if b then [1] else []
  }

  // --- operators that take a fixed number of items off the stack

  predicate IsUnary(op: byte) {
    op == OP_1ADD || op == OP_1SUB || OP_NEGATE <= op <= OP_0NOTEQUAL
  }

  function Unary(op: byte, n: int): int
    requires IsUnary(op)
  {
    if op == OP_1ADD then n + 1
    else if op == OP_1SUB then n - 1
    else if op == OP_NEGATE then -n
    else if op == OP_ABS then Abs(n)
    else if op == OP_NOT then (if n == 0 then 1 else 0)
    else (if n != 0 then 1 else 0)
  }

  predicate IsBinary(op: byte) {
    op == OP_ADD || op == OP_SUB || OP_BOOLAND <= op <= OP_MAX
  }

  predicate Compares(op: byte, a: int, b: int) {
    if op == OP_BOOLAND then a != 0 && b != 0
    else if op == OP_BOOLOR then a != 0 || b != 0
    else if op == OP_NUMEQUAL || op == OP_NUMEQUALVERIFY then a == b
    else if op == OP_NUMNOTEQUAL then a != b
    else if op == OP_LESSTHAN then a < b
    else if op == OP_GREATERTHAN then a > b
    else if op == OP_LESSTHANOREQUAL then a <= b
    else a >= b
  }

  function Binary(op: byte, a: int, b: int): int
    requires IsBinary(op)
  {
    if op == OP_ADD then a + b
    else if op == OP_SUB then a - b
    else if op == OP_MIN then (if a < b then a else b)
    else if op == OP_MAX then (if a > b then a else b)
    else if Compares(op, a, b) then 1
    else 0
  }

  predicate IsDigest(op: byte) {
    OP_RIPEMD160 <= op <= OP_HASH256
  }

  function DigestSize(op: byte): nat {
    if op == OP_RIPEMD160 || op == OP_SHA1 || op == OP_HASH160 then 20 else 32
  }

  // How many items the operator takes, if it is of this kind
  function Takes(op: byte): Option<nat> {
    if op == OP_VERIFY || op == OP_IFDUP || op == OP_DROP || op == OP_DUP || op == OP_SIZE || IsUnary(op) || IsDigest(op) then Some(1)
    else if op == OP_2DROP || op == OP_2DUP || op == OP_NIP || op == OP_OVER || op == OP_SWAP || op == OP_TUCK then Some(2)
    else if op == OP_EQUAL || op == OP_EQUALVERIFY || IsBinary(op) then Some(2)
    else if op == OP_3DUP || op == OP_ROT || op == OP_WITHIN then Some(3)
    else if op == OP_2OVER || op == OP_2SWAP then Some(4)
    else if op == OP_2ROT then Some(6)
    else None
  }

  // What it leaves in their place, the top of the stack last
  function Leaves(ctx: Context, op: byte, x: seq<Item>): Option<seq<Item>>
    requires Takes(op) == Some(|x|)
  {
    if op == OP_VERIFY then (if Truth(x[0]) then Some([]) else None)
    else if op == OP_IFDUP then Some(if Truth(x[0]) then x + x else x)
    else if op == OP_DROP || op == OP_2DROP then Some([])
    else if op == OP_DUP || op == OP_2DUP || op == OP_3DUP then Some(x + x)
    else if op == OP_NIP then Some(x[1..])
    else if op == OP_OVER then Some(x + x[..1])
    else if op == OP_SWAP || op == OP_ROT then Some(x[1..] + x[..1])
    else if op == OP_TUCK then Some(x[1..] + x)
    else if op == OP_2OVER then Some(x + x[..2])
    else if op == OP_2SWAP || op == OP_2ROT then Some(x[2..] + x[..2])
    else if op == OP_SIZE then Some(x + [EncodeNum(|x[0]|)])
    else if op == OP_EQUAL then Some([Bool(x[0] == x[1])])
    else if op == OP_EQUALVERIFY then (if x[0] == x[1] then Some([]) else None)
    else if IsDigest(op) then Some([Bytes(ctx.digest(op, x[0]), DigestSize(op))])
    else Calculated(op, x)
  }

  // The numeric operators
  function Calculated(op: byte, x: seq<Item>): Option<seq<Item>>
    requires Takes(op) == Some(|x|) && (IsUnary(op) || IsBinary(op) || op == OP_WITHIN)
  {
    var a := CastToNum(x[0]);
    if a.None? then None
    else if IsUnary(op) then Some([EncodeNum(Unary(op, a.value))]) else
    var b := CastToNum(x[1]);
    if b.None? then None
    else if op == OP_NUMEQUALVERIFY then (if a.value == b.value then Some([]) else None)
    else if IsBinary(op) then Some([EncodeNum(Binary(op, a.value, b.value))]) else
    var c := CastToNum(x[2]);
    if c.None? then None
    else Some([Bool(b.value <= a.value < c.value)])
  }

  function TopOperator(ctx: Context, op: byte, m: Machine): Outcome
    requires Takes(op).Some?
  {
    var k := Takes(op).value;
    var n := |m.stack|;
    if n < k then Fail(m.calls) else
    match Leaves(ctx, op, m.stack[n - k..])
    case None => Fail(m.calls)
    case Some(y) => Ok(m.(stack := m.stack[..n - k] + y))
  }

  // --- operators that look deeper into the stack

  function PickOrRoll(op: byte, m: Machine): Outcome {
    var n := |m.stack|;
    if n < 2 then Fail(m.calls) else
    var d := CastToNum(m.stack[n - 1]);
    if d.None? || d.value < 0 || d.value >= n - 1 then Fail(m.calls) else
    var at := n - 2 - d.value;
    var x := m.stack[at];
    var rest := if op == OP_ROLL then m.stack[..at] + m.stack[at + 1..n - 1] else m.stack[..n - 1];
    Ok(m.(stack := rest + [x]))
  }

  // Signatures cannot sign themselves.
  function WithoutSignatures(code: seq<byte>, sigs: seq<Item>): seq<byte>
    decreases |sigs|
  {
    if sigs == [] then code else WithoutSignatures(Deleted(code, Push(sigs[0])), sigs[1..])
  }

  // The result of a signature operator; the VERIFY form leaves nothing.
  function Verdict(ok: bool, verify: bool, rest: seq<Item>, m: Machine): Outcome {
    if !verify then Ok(m.(stack := rest + [Bool(ok)]))
    else if ok then Ok(m.(stack := rest))
    else Fail(m.calls)
  }

  function CheckOne(ctx: Context, op: byte, m: Machine): Outcome {
    var n := |m.stack|;
    if n < 2 then Fail(m.calls) else
    var sig, key := m.stack[n - 2], m.stack[n - 1];
    var ok := ctx.check(sig, key, WithoutSignatures(m.code, [sig]));
    Verdict(ok, op == OP_CHECKSIGVERIFY, m.stack[..n - 2], m.(calls := m.calls + 1))
  }

  // What OP_CHECKMULTISIG finds on the stack, the top item first
  datatype Request = Request(keys: seq<Item>, sigs: seq<Item>, rest: seq<Item>)

  function Downwards(stack: seq<Item>, top: nat, count: nat): (r: seq<Item>)
    requires count <= top <= |stack|
    ensures |r| == count
  {
    seq(count, i requires 0 <= i < count => stack[top - 1 - i])
  }

  function ReadRequest(m: Machine): (r: Option<Request>)
    ensures r.Some? ==> |r.value.sigs| <= |r.value.keys| <= MAX_KEYS
    ensures r.Some? ==> m.stack != [] && CastToNum(m.stack[|m.stack| - 1]) == Some(|r.value.keys|)
    ensures r.Some? ==> m.opCount + |r.value.keys| <= MAX_OPS
  {
    var n := |m.stack|;
    if n < 1 then None else
    var keys := CastToNum(m.stack[n - 1]);
    if keys.None? || keys.value < 0 || keys.value > MAX_KEYS then None
    else if m.opCount + keys.value > MAX_OPS then None
    else if n < 2 + keys.value then None else
    var sigs := CastToNum(m.stack[n - 2 - keys.value]);
    if sigs.None? || sigs.value < 0 || sigs.value > keys.value then None else
    var all := 3 + keys.value + sigs.value;
    if n < all then None
    else Some(Request(Downwards(m.stack, n - 1, keys.value), Downwards(m.stack, n - 2 - keys.value, sigs.value), m.stack[..n - all]))
  }

  function Checker(ctx: Context, code: seq<byte>): Multisig.Check<Item, Item> {
    (sig, key) => ctx.check(sig, key, code)
  }

  function CheckMany(ctx: Context, op: byte, m: Machine): Outcome {
    match ReadRequest(m)
    case None => Fail(m.calls)
    case Some(r) =>
      var found := Multisig.Greedy(Checker(ctx, WithoutSignatures(m.code, r.sigs)), r.sigs, r.keys);
      Verdict(found.ok, op == OP_CHECKMULTISIGVERIFY, r.rest,
              m.(calls := m.calls + found.calls, opCount := m.opCount + |r.keys|))
  }

  // --- one executed instruction that is not a branch

  function Execute(ctx: Context, p: Placed, m: Machine): Outcome {
    var op := p.instr.opcode;
    if op <= OP_PUSHDATA4 then Ok(m.(stack := m.stack + [p.instr.data]))
    else if op == OP_1NEGATE || OP_1 <= op <= OP_16 then Ok(m.(stack := m.stack + [EncodeNum(op - OP_RESERVED)]))
    else if op == OP_NOP || OP_NOP1 <= op <= OP_NOP10 then Ok(m)
    else if Takes(op).Some? then TopOperator(ctx, op, m)
    else if op == OP_TOALTSTACK then
      if m.stack == [] then Fail(m.calls)
      else Ok(m.(stack := m.stack[..|m.stack| - 1], alt := m.alt + [m.stack[|m.stack| - 1]]))
    else if op == OP_FROMALTSTACK then
      if m.alt == [] then Fail(m.calls)
      else Ok(m.(stack := m.stack + [m.alt[|m.alt| - 1]], alt := m.alt[..|m.alt| - 1]))
    else if op == OP_DEPTH then Ok(m.(stack := m.stack + [EncodeNum(|m.stack|)]))
    else if op == OP_PICK || op == OP_ROLL then PickOrRoll(op, m)
    else if op == OP_CODESEPARATOR then Ok(m.(code := p.after))
    else if op == OP_CHECKSIG || op == OP_CHECKSIGVERIFY then CheckOne(ctx, op, m)
    else if op == OP_CHECKMULTISIG || op == OP_CHECKMULTISIGVERIFY then CheckMany(ctx, op, m)
    else Fail(m.calls)
  }

  // --- the limits on every instruction, executed or not

  predicate Disabled(op: byte) {
    OP_CAT <= op <= OP_RIGHT || OP_INVERT <= op <= OP_XOR || op == OP_2MUL || op == OP_2DIV || OP_MUL <= op <= OP_RSHIFT
  }

  predicate Fits(m: Machine) {
    |m.stack| + |m.alt| <= MAX_ITEMS
  }

  function Charge(i: Instr, m: Machine): Outcome {
    if |i.data| > MAX_ITEM_SIZE then Fail(m.calls)
    else if i.opcode > OP_16 && m.opCount + 1 > MAX_OPS then Fail(m.calls)
    else if Disabled(i.opcode) then Fail(m.calls)
    else Ok(if i.opcode > OP_16 then m.(opCount := m.opCount + 1) else m)
  }

  function Record(p: Placed, m: Machine): Machine {
    m.(ran := m.ran + [p])
  }

  // --- flat execution with a stack of branch flags

  datatype Stepped = Stop(calls: nat) | Next(exec: seq<bool>, machine: Machine)

  function Branch(exec: seq<bool>, o: Outcome): Stepped {
    match o
    case Fail(calls) => Stop(calls)
    case Ok(m) => Next(exec, m)
  }

  // The body of the interpreter's switch
  function Dispatch(ctx: Context, p: Placed, exec: seq<bool>, m: Machine): Stepped {
    var op := p.instr.opcode;
    var live := false !in exec;
    if op == OP_IF || op == OP_NOTIF then
      if !live then Next(exec + [false], m)
      else if m.stack == [] then Stop(m.calls)
      else Next(exec + [Truth(m.stack[|m.stack| - 1]) == (op == OP_IF)], Record(p, m).(stack := m.stack[..|m.stack| - 1]))
    else if op == OP_ELSE then
      if exec == [] then Stop(m.calls)
      else Next(exec[..|exec| - 1] + [!exec[|exec| - 1]], m)
    else if op == OP_ENDIF then
      if exec == [] then Stop(m.calls)
      else Next(exec[..|exec| - 1], m)
    else if op == OP_VERIF || op == OP_VERNOTIF then Stop(m.calls)
    else if live then Branch(exec, Execute(ctx, p, Record(p, m)))
    else Next(exec, m)
  }

  function Step(ctx: Context, p: Placed, exec: seq<bool>, m: Machine): Stepped {
    match Charge(p.instr, m)
    case Fail(calls) => Stop(calls)
    case Ok(charged) =>
      var next := Dispatch(ctx, p, exec, charged);
      if next.Next? && !Fits(next.machine) then Stop(next.machine.calls) else next
  }

  function FlatRun(ctx: Context, ps: seq<Placed>, exec: seq<bool>, m: Machine): Outcome {
    if ps == [] then (if exec == [] then Ok(m) else Fail(m.calls)) else
    match Step(ctx, ps[0], exec, m)
    case Stop(calls) => Fail(calls)
    case Next(exec', m') => FlatRun(ctx, ps[1..], exec', m')
  }

  // --- whole scripts

  // The instructions of a script, each with the bytes after it, up to the
  // first place where none can be read
  function Listing(s: seq<byte>): seq<Placed>
    decreases |s|
  {
    match ReadOp(s)
    case None => []
    case Some(r) => ReadAdvances(s); [Placed(r.instr, s[r.next..])] + Listing(s[r.next..])
  }

  function Start(stack: seq<Item>, code: seq<byte>): Machine {
    Machine(stack, [], 0, code, 0, [])
  }

  predicate Readable(s: seq<byte>) {
    Parse(s).tail == []
  }

  // A script that cannot be read to its end fails when the bad place is reached.
  function Evaluate(ctx: Context, s: seq<byte>, exec: seq<bool>, m: Machine): Outcome {
    var o := FlatRun(ctx, Listing(s), exec, m);
    if Readable(s) then o else Fail(o.Calls())
  }

  // EvalScript as a function
  function Eval(ctx: Context, stack: seq<Item>, script: seq<byte>): Outcome {
    if |script| > MAX_SCRIPT_SIZE then Fail(0) else Evaluate(ctx, script, [], Start(stack, script))
  }

  lemma EvaluateStep(ctx: Context, s: seq<byte>, exec: seq<bool>, m: Machine)
    requires ReadOp(s).Some?
    ensures 0 < ReadOp(s).value.next <= |s|
    ensures
      var Read(instr, next) := ReadOp(s).value;
      var stepped := Step(ctx, Placed(instr, s[next..]), exec, m);
      Evaluate(ctx, s, exec, m) ==
      if stepped.Stop? then Fail(stepped.calls) else Evaluate(ctx, s[next..], stepped.exec, stepped.machine)
  {
    hide Step, ReadOp;
    ReadAdvances(s);
    var r := ReadOp(s).value;
    assert Listing(s)[1..] == Listing(s[r.next..]);
    assert Readable(s) <==> Readable(s[r.next..]);
  }

  lemma EvaluateEnd(ctx: Context, s: seq<byte>, exec: seq<bool>, m: Machine)
    requires ReadOp(s).None?
    ensures Evaluate(ctx, s, exec, m) == if s == [] && exec == [] then Ok(m) else Fail(m.calls)
  {}

  // --- the interpreter

  method ExecuteCheckMany(ctx: Context, op: byte, m: Machine) returns (r: Outcome)
    ensures r == CheckMany(ctx, op, m)
  {
    hide Multisig.Greedy, Deleted, Push, CastToNum;
    var request := ReadRequest(m);
    if request.None? {
      return Fail(m.calls);
    }
    var sigs := request.value.sigs;
    var code := new CScript(m.code);
    for k := 0 to |sigs|
      invariant fresh(code)
      invariant WithoutSignatures(m.code, sigs) == WithoutSignatures(code.bytes, sigs[k..])
    {
      PushNotEmpty(sigs[k]);
      assert sigs[k..][1..] == sigs[k + 1..];
      var found := code.FindAndDelete(Push(sigs[k]));
    }
    var matched := Multisig.CheckMultisig(Checker(ctx, code.bytes), sigs, request.value.keys);
    return Verdict(matched.ok, op == OP_CHECKMULTISIGVERIFY, request.value.rest,
                   m.(calls := m.calls + matched.calls, opCount := m.opCount + |request.value.keys|));
  }

  lemma PushNotEmpty(data: seq<byte>)
    ensures Push(data) != []
  {}

  method Interpret(ctx: Context, p: Placed, exec: seq<bool>, m: Machine) returns (r: Stepped)
    ensures r == Step(ctx, p, exec, m)
  {
    hide Takes, TopOperator, PickOrRoll, CheckOne, CheckMany, EncodeNum, Truth;
    var op := p.instr.opcode;
    var live := false !in exec;
    if |p.instr.data| > MAX_ITEM_SIZE {
      return Stop(m.calls);
    }
    var m' := m;
    if op > OP_16 {
      m' := m'.(opCount := m'.opCount + 1);
      if m'.opCount > MAX_OPS {
        return Stop(m.calls);
      }
    }
    if Disabled(op) {
      return Stop(m.calls);
    }
    var exec' := exec;
    if live && op <= OP_PUSHDATA4 {
      m' := Record(p, m').(stack := m'.stack + [p.instr.data]);
    } else if live || OP_IF <= op <= OP_ENDIF {
      if op == OP_IF || op == OP_NOTIF {
        var value := false;
        if live {
          if |m'.stack| < 1 {
            return Stop(m'.calls);
          }
          value := CastToBool(m'.stack[|m'.stack| - 1]);
          if op == OP_NOTIF {
            value := !value;
          }
          m' := Record(p, m').(stack := m'.stack[..|m'.stack| - 1]);
        }
        exec' := exec' + [value];
      } else if op == OP_ELSE {
        if exec == [] {
          return Stop(m'.calls);
        }
        exec' := exec[..|exec| - 1] + [!exec[|exec| - 1]];
      } else if op == OP_ENDIF {
        if exec == [] {
          return Stop(m'.calls);
        }
        exec' := exec[..|exec| - 1];
      } else if op == OP_VERIF || op == OP_VERNOTIF {
        return Stop(m'.calls);
      } else {
        var o;
        m' := Record(p, m');
        if op == OP_CHECKMULTISIG || op == OP_CHECKMULTISIGVERIFY {
          o := ExecuteCheckMany(ctx, op, m');
          NotFixed(op);
        } else {
          o := Execute(ctx, p, m');
        }
        if o.Fail? {
          return Stop(o.failedAfter);
        }
        m' := o.machine;
      }
    }
    if |m'.stack| + |m'.alt| > MAX_ITEMS {
      return Stop(m'.calls);
    }
    return Next(exec', m');
  }

  lemma NotFixed(op: byte)
    requires op == OP_CHECKMULTISIG || op == OP_CHECKMULTISIGVERIFY
    ensures Takes(op).None?
  {}

  /** The interpreter accepts exactly the scripts of at most 10000 bytes whose
      flat run ends well; it makes the signature checks of that run, also when
      it fails. */
  method EvalScript(ctx: Context, initial: seq<Item>, script: seq<byte>) returns (ok: bool, stack: seq<Item>, calls: nat)
    ensures ok <==> Eval(ctx, initial, script).Ok?
    ensures calls == Eval(ctx, initial, script).Calls()
    ensures ok ==> stack == Eval(ctx, initial, script).machine.stack
  {
    hide Evaluate, Step, ReadOp;
    if |script| > MAX_SCRIPT_SIZE {
      return false, initial, 0;
    }
    var pc: nat := 0;
    var exec: seq<bool> := [];
    var m := Start(initial, script);
    assert script[0..] == script;
    while pc < |script|
      invariant pc <= |script|
      invariant Evaluate(ctx, script, [], Start(initial, script)) == Evaluate(ctx, script[pc..], exec, m)
      decreases |script| - pc
    {
      var read := GetOp(script, pc);
      if read.None? {
        EvaluateEnd(ctx, script[pc..], exec, m);
        return false, m.stack, m.calls;
      }
      EvaluateStep(ctx, script[pc..], exec, m);
      var next := read.value.next;
      assert script[pc..][next - pc..] == script[next..];
      var stepped := Interpret(ctx, Placed(read.value.instr, script[next..]), exec, m);
      if stepped.Stop? {
        return false, m.stack, stepped.calls;
      }
      pc, exec, m := next, stepped.exec, stepped.machine;
    }
    ReadNothing(script[pc..]);
    EvaluateEnd(ctx, script[pc..], exec, m);
    return exec == [], m.stack, m.calls;
  }

  lemma ReadNothing(s: seq<byte>)
    requires s == []
    ensures ReadOp(s).None?
  {}

  // --- the limits

  ghost predicate Small(items: seq<Item>) {
    forall i | 0 <= i < |items| :: |items[i]| <= MAX_ITEM_SIZE
  }

  ghost predicate WithinLimits(m: Machine) {
    Fits(m) && Small(m.stack) && Small(m.alt) && m.opCount <= MAX_OPS
  }

  lemma SmallNumber(n: int)
    requires Abs(n) < 0x2_0000_0000
    ensures |EncodeNum(n)| <= MAX_ITEM_SIZE
  {
    hide EncodeNum;
    PowerValues();
    assert Power(5) == 256 * Power(4);
    EncodeSize(n, 5);
  }

  lemma CalculatedSmall(op: byte, x: seq<Item>)
    requires Takes(op) == Some(|x|) && (IsUnary(op) || IsBinary(op) || op == OP_WITHIN)
    requires Calculated(op, x).Some?
    ensures Small(Calculated(op, x).value)
  {
    hide EncodeNum, Compares;
    var a := CastToNum(x[0]).value;
    if IsUnary(op) {
      SmallNumber(Unary(op, a));
    } else if IsBinary(op) {
      SmallNumber(Binary(op, a, CastToNum(x[1]).value));
    }
  }

  lemma LeavesSmall(ctx: Context, op: byte, x: seq<Item>)
    requires Takes(op) == Some(|x|) && Small(x) && Leaves(ctx, op, x).Some?
    ensures Small(Leaves(ctx, op, x).value)
  {
    hide EncodeNum, Calculated, Truth, Bytes;
    if IsUnary(op) || IsBinary(op) || op == OP_WITHIN {
      CalculatedSmall(op, x);
    } else if op == OP_SIZE {
      SmallNumber(|x[0]|);
    }
  }

  // What an executed instruction keeps before the items are counted
  ghost predicate Kept(o: Outcome) {
    o.Ok? ==> Small(o.machine.stack) && Small(o.machine.alt) && o.machine.opCount <= MAX_OPS
  }

  lemma TopOperatorSmall(ctx: Context, op: byte, m: Machine)
    requires Takes(op).Some? && WithinLimits(m)
    ensures Kept(TopOperator(ctx, op, m))
  {
    hide Takes, Leaves;
    var k, n := Takes(op).value, |m.stack|;
    if k <= n && Leaves(ctx, op, m.stack[n - k..]).Some? {
      LeavesSmall(ctx, op, m.stack[n - k..]);
    }
  }

  lemma PickOrRollSmall(op: byte, m: Machine)
    requires WithinLimits(m)
    ensures Kept(PickOrRoll(op, m))
  {
    hide CastToNum;
  }

  lemma VerdictSmall(ok: bool, verify: bool, rest: seq<Item>, m: Machine)
    requires Small(rest) && Small(m.alt) && m.opCount <= MAX_OPS
    ensures Kept(Verdict(ok, verify, rest, m))
  {}

  lemma CheckOneSmall(ctx: Context, op: byte, m: Machine)
    requires WithinLimits(m)
    ensures Kept(CheckOne(ctx, op, m))
  {
    hide Verdict, WithoutSignatures, Kept;
    var n := |m.stack|;
    if n >= 2 {
      var sig, key := m.stack[n - 2], m.stack[n - 1];
      VerdictSmall(ctx.check(sig, key, WithoutSignatures(m.code, [sig])), op == OP_CHECKSIGVERIFY, m.stack[..n - 2], m.(calls := m.calls + 1));
    } else {
      FailureKept(m.calls);
    }
  }

  lemma FailureKept(calls: nat)
    ensures Kept(Fail(calls))
  {}

  lemma RequestSmall(m: Machine)
    requires WithinLimits(m) && ReadRequest(m).Some?
    ensures Small(ReadRequest(m).value.rest) && m.opCount + |ReadRequest(m).value.keys| <= MAX_OPS
  {
    hide CastToNum;
  }

  lemma CheckManySmall(ctx: Context, op: byte, m: Machine)
    requires WithinLimits(m)
    ensures Kept(CheckMany(ctx, op, m))
  {
    hide Verdict, WithoutSignatures, Kept, ReadRequest, Multisig.Greedy;
    match ReadRequest(m)
    case None => FailureKept(m.calls);
    case Some(r) =>
      RequestInOrder(m);
      RequestSmall(m);
      var found := Multisig.Greedy(Checker(ctx, WithoutSignatures(m.code, r.sigs)), r.sigs, r.keys);
      VerdictSmall(found.ok, op == OP_CHECKMULTISIGVERIFY, r.rest,
                   m.(calls := m.calls + found.calls, opCount := m.opCount + |r.keys|));
  }

  lemma ExecuteSmall(ctx: Context, p: Placed, m: Machine)
    requires |p.instr.data| <= MAX_ITEM_SIZE && WithinLimits(m)
    ensures Kept(Execute(ctx, p, m))
  {
    hide EncodeNum, Takes, TopOperator, PickOrRoll, CheckOne, CheckMany;
    var op := p.instr.opcode;
    SmallNumber(|m.stack|);
    if OP_1NEGATE <= op <= OP_16 {
      SmallNumber(op - OP_RESERVED);
    }
    if Takes(op).Some? {
      TopOperatorSmall(ctx, op, m);
    }
    PickOrRollSmall(op, m);
    CheckOneSmall(ctx, op, m);
    CheckManySmall(ctx, op, m);
  }

  /** Every completed step keeps the limits: at most 1000 items on the two stacks
      together, at most 520 bytes in an item, at most 201 counted operators. */
  lemma StepWithinLimits(ctx: Context, p: Placed, exec: seq<bool>, m: Machine)
    requires WithinLimits(m) && Step(ctx, p, exec, m).Next?
    ensures WithinLimits(Step(ctx, p, exec, m).machine)
  {
    hide Execute, Disabled, Truth;
    ExecuteSmall(ctx, p, Record(p, Charge(p.instr, m).machine));
  }

  // The machine after the instructions ps, if it gets there
  function Steps(ctx: Context, ps: seq<Placed>, exec: seq<bool>, m: Machine): Stepped {
    if ps == [] then Next(exec, m) else
    match Step(ctx, ps[0], exec, m)
    case Stop(calls) => Stop(calls)
    case Next(exec', m') => Steps(ctx, ps[1..], exec', m')
  }

  /** So does every run, up to any point it reaches, whether it is accepted in the
      end or not. */
  lemma {:induction false} RunWithinLimits(ctx: Context, ps: seq<Placed>, k: nat, exec: seq<bool>, m: Machine)
    requires k <= |ps| && WithinLimits(m)
    ensures Steps(ctx, ps[..k], exec, m).Next? ==> WithinLimits(Steps(ctx, ps[..k], exec, m).machine)
    ensures Steps(ctx, ps[..k], exec, m).Stop? ==> FlatRun(ctx, ps, exec, m) == Fail(Steps(ctx, ps[..k], exec, m).calls)
    decreases k
  {
    hide Step, WithinLimits;
    if k > 0 {
      assert ps[..k][1..] == ps[1..][..k - 1];
      var next := Step(ctx, ps[0], exec, m);
      if next.Next? {
        StepWithinLimits(ctx, ps[0], exec, m);
        RunWithinLimits(ctx, ps[1..], k - 1, next.exec, next.machine);
      }
    }
  }

  lemma {:induction false} RunIsSteps(ctx: Context, ps: seq<Placed>, exec: seq<bool>, m: Machine)
    requires FlatRun(ctx, ps, exec, m).Ok?
    ensures Steps(ctx, ps, exec, m) == Next([], FlatRun(ctx, ps, exec, m).machine)
  {
    hide Step;
    if ps != [] {
      var next := Step(ctx, ps[0], exec, m);
      RunIsSteps(ctx, ps[1..], next.exec, next.machine);
    }
  }

  /** A script that is accepted on a stack within the limits leaves one. */
  lemma EvalWithinLimits(ctx: Context, stack: seq<Item>, script: seq<byte>)
    requires |stack| <= MAX_ITEMS && Small(stack) && Eval(ctx, stack, script).Ok?
    ensures WithinLimits(Eval(ctx, stack, script).machine)
  {
    hide FlatRun, Steps, Listing, Readable;
    var ps := Listing(script);
    RunIsSteps(ctx, ps, [], Start(stack, script));
    RunWithinLimits(ctx, ps, |ps|, [], Start(stack, script));
    assert ps[..|ps|] == ps;
  }

  /** OP_CHECKMULTISIG finds its request true exactly if the signatures can be
      assigned in order to different keys. */
  lemma CheckManyDecides(ctx: Context, m: Machine)
    requires ReadRequest(m).Some?
    ensures
      var r := ReadRequest(m).value;
      var check := Checker(ctx, WithoutSignatures(m.code, r.sigs));
      && CheckMany(ctx, OP_CHECKMULTISIG, m).Ok?
      && CheckMany(ctx, OP_CHECKMULTISIG, m).machine.stack == r.rest + [Bool(Multisig.Assignable(check, r.sigs, r.keys))]
  {
    hide Multisig.Greedy, Multisig.Assignable, ReadRequest, WithoutSignatures;
    RequestInOrder(m);
    var r := ReadRequest(m).value;
    Multisig.GreedyDecides(Checker(ctx, WithoutSignatures(m.code, r.sigs)), r.sigs, r.keys);
  }

  lemma RequestInOrder(m: Machine)
    requires ReadRequest(m).Some?
    ensures |ReadRequest(m).value.sigs| <= |ReadRequest(m).value.keys|
  {
    hide CastToNum;
  }

  // --- laws of whole steps

  // Executing op after what o left
  function Then(ctx: Context, op: byte, o: Outcome): Outcome {
    match o
    case Fail(calls) => Fail(calls)
    case Ok(m) => Execute(ctx, Placed(Instr(op, []), []), m)
  }

  predicate HasVerifyForm(op: byte) {
    op == OP_EQUAL || op == OP_NUMEQUAL || op == OP_CHECKSIG || op == OP_CHECKMULTISIG
  }

  lemma TruthOfBool(b: bool)
    ensures Truth(Bool(b)) == b && Truth(EncodeNum(1)) && !Truth(EncodeNum(0))
  {
    assert Bool(true)[0] != 0;
    TruthIsNonZero(EncodeNum(1));
    TruthIsNonZero(EncodeNum(0));
    DecodeEncoded(1);
    DecodeEncoded(0);
  }

  lemma VerifyTakes(ctx: Context, m: Machine, rest: seq<Item>, v: Item)
    requires m.stack == rest + [v]
    ensures Then(ctx, OP_VERIFY, Ok(m)) == if Truth(v) then Ok(m.(stack := rest)) else Fail(m.calls)
  {
    hide Truth;
    var n := |m.stack|;
    assert m.stack[n - 1..] == [v] && m.stack[..n - 1] == rest;
    assert rest + [] == rest;
  }

  lemma VerdictVerifies(ctx: Context, ok: bool, rest: seq<Item>, m: Machine)
    ensures Verdict(ok, true, rest, m) == Then(ctx, OP_VERIFY, Verdict(ok, false, rest, m))
  {
    hide Execute, Truth;
    TruthOfBool(ok);
    VerifyTakes(ctx, m.(stack := rest + [Bool(ok)]), rest, Bool(ok));
  }

  // The pair that an operator and its verifying form leave, and that they take
  lemma VerifyLeaves(ctx: Context, op: byte, x: seq<Item>)
    requires (op == OP_EQUAL || op == OP_NUMEQUAL) && |x| == 2
    ensures Takes(op) == Takes(op + 1) == Some(2)
    ensures Leaves(ctx, op, x).None? ==> Leaves(ctx, op + 1, x).None?
    ensures Leaves(ctx, op, x).Some? ==> exists v ::
      && Leaves(ctx, op, x) == Some([v])
      && Leaves(ctx, op + 1, x) == if Truth(v) then Some([]) else None
  {
    hide EncodeNum, CastToNum, Truth;
    TruthOfBool(true);
    TruthOfBool(false);
  }

  lemma TopVerifies(ctx: Context, op: byte, m: Machine)
    requires op == OP_EQUAL || op == OP_NUMEQUAL
    ensures Takes(op) == Takes(op + 1) == Some(2)
    ensures TopOperator(ctx, op + 1, m) == Then(ctx, OP_VERIFY, TopOperator(ctx, op, m))
  {
    hide Execute, Truth, Leaves, Takes;
    var n := |m.stack|;
    VerifyLeaves(ctx, op, [[], []]);
    if n >= 2 {
      var rest, x := m.stack[..n - 2], m.stack[n - 2..];
      VerifyLeaves(ctx, op, x);
      assert rest + [] == rest;
      if Leaves(ctx, op, x).Some? {
        var v := Leaves(ctx, op, x).value[0];
        VerifyTakes(ctx, m.(stack := rest + [v]), rest, v);
      }
    }
  }

  /** The verifying form of an operator is the operator followed by OP_VERIFY, on
      every machine: same items left, same failures, same signature checks. */
  lemma VerifyForms(ctx: Context, op: byte, p: Placed, q: Placed, m: Machine)
    requires HasVerifyForm(op) && p.instr.opcode == op && q.instr.opcode == op + 1
    ensures Execute(ctx, q, m) == Then(ctx, OP_VERIFY, Execute(ctx, p, m))
  {
    hide TopOperator, Then, Verdict, ReadRequest, Multisig.Greedy, WithoutSignatures;
    if op == OP_EQUAL || op == OP_NUMEQUAL {
      TopVerifies(ctx, op, m);
    }
    var n := |m.stack|;
    FailureVerifies(ctx, m.calls);
    if op == OP_CHECKSIG && n >= 2 {
      var sig, key := m.stack[n - 2], m.stack[n - 1];
      VerdictVerifies(ctx, ctx.check(sig, key, WithoutSignatures(m.code, [sig])), m.stack[..n - 2], m.(calls := m.calls + 1));
    }
    if op == OP_CHECKMULTISIG && ReadRequest(m).Some? {
      var r := ReadRequest(m).value;
      RequestInOrder(m);
      var found := Multisig.Greedy(Checker(ctx, WithoutSignatures(m.code, r.sigs)), r.sigs, r.keys);
      VerdictVerifies(ctx, found.ok, r.rest, m.(calls := m.calls + found.calls, opCount := m.opCount + |r.keys|));
    }
  }

  lemma FailureVerifies(ctx: Context, calls: nat)
    ensures Then(ctx, OP_VERIFY, Fail(calls)) == Fail(calls)
  {}

  // An operator works on the top of the stack whatever lies below.
  lemma OnTop(ctx: Context, op: byte, m: Machine, rest: seq<Item>, x: seq<Item>)
    requires Takes(op) == Some(|x|) && m.stack == rest + x && Leaves(ctx, op, x).Some?
    ensures TopOperator(ctx, op, m) == Ok(m.(stack := rest + Leaves(ctx, op, x).value))
  {
    hide Leaves, Takes;
    assert m.stack[|rest|..] == x && m.stack[..|rest|] == rest;
  }

  // The operators that turn the items they take, and how often they do it until
  // all are back in place
  function Period(op: byte): nat {
    if op == OP_SWAP || op == OP_2SWAP then 2 else if op == OP_ROT || op == OP_2ROT then 3 else 0
  }

  function Repeated(ctx: Context, op: byte, n: nat, m: Machine): Outcome
    requires Takes(op).Some?
  {
    if n == 0 then Ok(m) else
    match Repeated(ctx, op, n - 1, m)
    case Fail(calls) => Fail(calls)
    case Ok(m') => TopOperator(ctx, op, m')
  }

  function Turned(x: seq<Item>, j: nat): seq<Item>
    requires j <= |x|
  {
    x[j..] + x[..j]
  }

  lemma TurnsBack(x: seq<Item>, j: nat)
    requires j <= |x|
    ensures |x| == 2 * j ==> Turned(Turned(x, j), j) == x
    ensures |x| == 3 * j ==> Turned(Turned(Turned(x, j), j), j) == x
  {}

  /** Swapping twice and rotating three times changes nothing, for single items
      and for pairs. */
  lemma RotationsReturn(ctx: Context, op: byte, m: Machine)
    requires Period(op) > 0 && |m.stack| >= Takes(op).value
    ensures Repeated(ctx, op, Period(op), m) == Ok(m)
  {
    hide TopOperator, Turned;
    var n := |m.stack| - Takes(op).value;
    var rest, x := m.stack[..n], m.stack[n..];
    assert m.stack == rest + x;
    var j := if op == OP_SWAP || op == OP_ROT then 1 else 2;
    TurnsBack(x, j);
    TurnStep(ctx, op, m, rest, x, j);
    var m1 := m.(stack := rest + Turned(x, j));
    TurnStep(ctx, op, m1, rest, Turned(x, j), j);
    var m2 := m.(stack := rest + Turned(Turned(x, j), j));
    TurnStep(ctx, op, m2, rest, Turned(Turned(x, j), j), j);
    assert Repeated(ctx, op, 0, m) == Ok(m);
    assert Repeated(ctx, op, 1, m) == Ok(m1);
    assert Repeated(ctx, op, 2, m) == Ok(m2);
  }

  lemma TurnStep(ctx: Context, op: byte, m: Machine, rest: seq<Item>, x: seq<Item>, j: nat)
    requires Period(op) > 0 && Takes(op) == Some(|x|) && m.stack == rest + x
    requires j == if op == OP_SWAP || op == OP_ROT then 1 else 2
    ensures j <= |x| && |Turned(x, j)| == |x|
    ensures TopOperator(ctx, op, m) == Ok(m.(stack := rest + Turned(x, j)))
  {
    hide TopOperator;
    OnTop(ctx, op, m, rest, x);
  }

  /** With the number d on top, OP_PICK copies the item d places below it and
      OP_ROLL moves it; the others keep their order. */
  lemma PickAndRoll(op: byte, d: nat, m: Machine)
    requires d < 0x100_0000
    ensures var o := PickOrRoll(op, m.(stack := m.stack + [EncodeNum(d)]));
      if d >= |m.stack| then o == Fail(m.calls) else
        var at := |m.stack| - 1 - d;
        o == Ok(m.(stack := (if op == OP_ROLL then m.stack[..at] + m.stack[at + 1..] else m.stack) + [m.stack[at]]))
  {
    hide EncodeNum, DecodeNum;
    DecodeEncoded(d);
    PowerValues();
    assert Power(3) == 256 * Power(2);
    EncodeSize(d, 3);
    var s := m.stack + [EncodeNum(d)];
    var n := |s|;
    assert s[..n - 1] == m.stack;
    if d < |m.stack| {
      var at := n - 2 - d;
      assert s[..at] == m.stack[..at] && s[at + 1..n - 1] == m.stack[at + 1..];
    }
  }

  // --- what every accepted script looks like

  // The disabled operators and the two that may not even be skipped
  predicate Forbidden(op: byte) {
    0x7e <= op <= 0x81 || 0x83 <= op <= 0x86 || op == 0x8d || op == 0x8e || 0x95 <= op <= 0x99 || op == 0x65 || op == 0x66
  }

  function CountedOps(ps: seq<Placed>): nat {
    if ps == [] then 0 else (if ps[0].instr.opcode > OP_16 then 1 else 0) + CountedOps(ps[1..])
  }

  ghost predicate Clean(ps: seq<Placed>) {
    forall i | 0 <= i < |ps| :: !Forbidden(ps[i].instr.opcode) && |ps[i].instr.data| <= 520
  }

  lemma StepClean(ctx: Context, p: Placed, exec: seq<bool>, m: Machine)
    requires Step(ctx, p, exec, m).Next?
    ensures !Forbidden(p.instr.opcode) && |p.instr.data| <= 520
    ensures Step(ctx, p, exec, m).machine.opCount >= m.opCount + if p.instr.opcode > OP_16 then 1 else 0
    ensures p.instr.opcode > OP_16 ==> m.opCount < 201
  {
    hide Execute, Truth, Fits;
    if Charge(p.instr, m).Ok? {
      ExecuteCountsUp(ctx, p, Record(p, Charge(p.instr, m).machine));
    }
  }

  lemma ExecuteCountsUp(ctx: Context, p: Placed, m: Machine)
    ensures Execute(ctx, p, m).Ok? ==> Execute(ctx, p, m).machine.opCount >= m.opCount
  {
    hide Takes, Leaves, EncodeNum, CastToNum, ReadRequest, WithoutSignatures, Multisig.Greedy;
    match ReadRequest(m)
    case None =>
    case Some(r) => RequestInOrder(m);
  }

  lemma {:induction false} RunClean(ctx: Context, ps: seq<Placed>, exec: seq<bool>, m: Machine)
    requires FlatRun(ctx, ps, exec, m).Ok?
    ensures Clean(ps) && (CountedOps(ps) > 0 ==> m.opCount + CountedOps(ps) <= 201)
  {
    hide Step, Forbidden;
    if ps != [] {
      StepClean(ctx, ps[0], exec, m);
      var next := Step(ctx, ps[0], exec, m);
      RunClean(ctx, ps[1..], next.exec, next.machine);
      assert forall i | 0 < i < |ps| :: ps[i] == ps[1..][i - 1];
    }
  }

  /** A script is accepted only if it has at most 10000 bytes, can be read to its end,
      holds nowhere, executed or skipped, a disabled operator or more than 520 bytes
      in one push, and has at most 201 operators. */
  lemma AcceptedIsClean(ctx: Context, stack: seq<Item>, script: seq<byte>)
    requires Eval(ctx, stack, script).Ok?
    ensures |script| <= 10000 && Readable(script) && Clean(Listing(script)) && CountedOps(Listing(script)) <= 201
  {
    hide FlatRun, Readable, Listing, Clean;
    RunClean(ctx, Listing(script), [], Start(stack, script));
  }
}
