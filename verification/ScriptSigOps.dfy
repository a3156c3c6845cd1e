/**
 Counting signature operations without running the script, and the bound this
 gives on the signature checks a run makes.
 */
module ScriptSigOps {
  import opened Basics
  import opened ScriptBytes
  import opened ScriptNumbers
  import opened ScriptMachine
  import Multisig

  const OP_INVALIDOPCODE: byte := 0xff

  predicate IsCheckSig(op: byte) {
    op == OP_CHECKSIG || op == OP_CHECKSIGVERIFY
  }

  predicate IsCheckMultisig(op: byte) {
    op == OP_CHECKMULTISIG || op == OP_CHECKMULTISIGVERIFY
  }

  // What one operator counts, given the one before it
  function Cost(op: byte, last: byte, accurate: bool): nat {
    if IsCheckSig(op) then 1
    else if !IsCheckMultisig(op) then 0
    else if accurate && OP_1 <= last <= OP_16 then last - OP_RESERVED
    else MAX_KEYS
  }

  function SigOps(ps: seq<Placed>, last: byte, accurate: bool): nat {
    if ps == [] then 0 else Cost(ps[0].instr.opcode, last, accurate) + SigOps(ps[1..], ps[0].instr.opcode, accurate)
  }

  function SigOpCount(script: seq<byte>, accurate: bool): nat {
    SigOps(Listing(script), OP_INVALIDOPCODE, accurate)
  }

  lemma ListingStep(s: seq<byte>)
    requires ReadOp(s).Some?
    ensures 0 < ReadOp(s).value.next <= |s|
    ensures var Read(instr, next) := ReadOp(s).value; Listing(s) == [Placed(instr, s[next..])] + Listing(s[next..])
    ensures Readable(s) <==> Readable(s[ReadOp(s).value.next..])
  {
    hide ReadOp;
    ReadAdvances(s);
  }

  lemma ListingEnd(s: seq<byte>)
    requires ReadOp(s).None?
    ensures Listing(s) == [] && (Readable(s) <==> s == [])
  {}

  method GetSigOpCount(script: seq<byte>, accurate: bool) returns (n: nat)
    ensures n == SigOpCount(script, accurate)
  {
    hide ReadOp, Listing, Readable;
    n := 0;
    var pc: nat := 0;
    var last: byte := OP_INVALIDOPCODE;
    assert script[0..] == script;
    while pc < |script|
      invariant pc <= |script|
      invariant SigOpCount(script, accurate) == n + SigOps(Listing(script[pc..]), last, accurate)
      decreases |script| - pc
    {
      var read := GetOp(script, pc);
      if read.None? {
        break;
      }
      ListingStep(script[pc..]);
      var op, next := read.value.instr.opcode, read.value.next;
      assert script[pc..][next - pc..] == script[next..];
      if IsCheckSig(op) {
        n := n + 1;
      } else if IsCheckMultisig(op) {
        if accurate && OP_1 <= last <= OP_16 {
          n := n + (last - OP_RESERVED);
        } else {
          n := n + MAX_KEYS;
        }
      }
      pc, last := next, op;
    }
    if pc == |script| {
      ReadNothing(script[pc..]);
    }
    ListingEnd(script[pc..]);
  }

  /** The accurate count is never above the plain one. */
  lemma {:induction false} AccurateIsLower(ps: seq<Placed>, last: byte)
    ensures SigOps(ps, last, true) <= SigOps(ps, last, false)
  {
    if ps != [] {
      AccurateIsLower(ps[1..], ps[0].instr.opcode);
    }
  }

  // --- the bound for one step

  function CallsOf(s: Stepped): nat {
    match s
    case Stop(calls) => calls
    case Next(_, m) => m.calls
  }

  // After an executed OP_1..OP_16 its number is on top of the stack.
  ghost predicate Primed(last: byte, exec: seq<bool>, m: Machine) {
    OP_1 <= last <= OP_16 && false !in exec ==> m.stack != [] && m.stack[|m.stack| - 1] == EncodeNum(last - OP_RESERVED)
  }

  lemma CheckManyCalls(ctx: Context, op: byte, m: Machine)
    ensures CheckMany(ctx, op, m).Calls() <= m.calls + MAX_KEYS
    ensures m.stack != [] ==> CheckMany(ctx, op, m).Calls() <= m.calls + Abs(DecodeNum(m.stack[|m.stack| - 1]))
  {
    hide Multisig.Greedy, DecodeNum, WithoutSignatures;
    match ReadRequest(m)
    case None =>
    case Some(r) =>
      Multisig.CallsBound(Checker(ctx, WithoutSignatures(m.code, r.sigs)), r.sigs, r.keys);
  }

  lemma TopOperatorCalls(ctx: Context, op: byte, m: Machine)
    requires Takes(op).Some?
    ensures TopOperator(ctx, op, m).Calls() == m.calls
  {
    hide Leaves, Takes;
  }

  lemma TakesNothing(op: byte)
    ensures IsCheckMultisig(op) || IsCheckSig(op) || op <= OP_16 ==> Takes(op).None?
  {}

  lemma ExecuteCalls(ctx: Context, p: Placed, last: byte, m: Machine)
    requires Primed(last, [], m)
    ensures Execute(ctx, p, m).Calls() <= m.calls + Cost(p.instr.opcode, last, true)
  {
    hide Takes, TopOperator, CheckMany, EncodeNum, CastToNum, DecodeNum, WithoutSignatures;
    var op := p.instr.opcode;
    TakesNothing(op);
    if Takes(op).Some? {
      TopOperatorCalls(ctx, op, m);
    }
    CheckManyCalls(ctx, op, m);
    DecodeEncoded(last - OP_RESERVED);
  }

  lemma ExecutePrimes(ctx: Context, p: Placed, m: Machine)
    requires Execute(ctx, p, m).Ok?
    ensures Primed(p.instr.opcode, [], Execute(ctx, p, m).machine)
  {
    hide Takes, TopOperator, CheckMany, EncodeNum;
    TakesNothing(p.instr.opcode);
  }

  lemma StepCalls(ctx: Context, p: Placed, exec: seq<bool>, last: byte, m: Machine)
    requires Primed(last, exec, m)
    ensures CallsOf(Step(ctx, p, exec, m)) <= m.calls + Cost(p.instr.opcode, last, true)
    ensures Step(ctx, p, exec, m).Next? ==> Primed(p.instr.opcode, Step(ctx, p, exec, m).exec, Step(ctx, p, exec, m).machine)
  {
    hide Execute, Disabled, Fits, EncodeNum, Truth, Cost;
    if Charge(p.instr, m).Ok? {
      var charged := Record(p, Charge(p.instr, m).machine);
      if false !in exec {
        ExecuteCalls(ctx, p, last, charged);
        if Execute(ctx, p, charged).Ok? {
          ExecutePrimes(ctx, p, charged);
        }
      }
    }
  }

  lemma {:induction false} RunCalls(ctx: Context, ps: seq<Placed>, exec: seq<bool>, last: byte, m: Machine)
    requires Primed(last, exec, m)
    ensures FlatRun(ctx, ps, exec, m).Calls() <= m.calls + SigOps(ps, last, true)
  {
    hide Step, Cost, Primed;
    if ps != [] {
      StepCalls(ctx, ps[0], exec, last, m);
      var stepped := Step(ctx, ps[0], exec, m);
      if stepped.Next? {
        RunCalls(ctx, ps[1..], stepped.exec, ps[0].instr.opcode, stepped.machine);
      }
    }
  }

  /** For every script, stack and signature relation, also on a failing run, the
      signature checks made are at most the accurate count, which is at most
      the plain one. */
  lemma CallsAreCounted(ctx: Context, stack: seq<Item>, script: seq<byte>)
    ensures Eval(ctx, stack, script).Calls() <= SigOpCount(script, true) <= SigOpCount(script, false)
  {
    hide FlatRun, SigOps, Readable, Listing;
    RunCalls(ctx, Listing(script), [], OP_INVALIDOPCODE, Start(stack, script));
    AccurateIsLower(Listing(script), OP_INVALIDOPCODE);
  }

  // --- pay to script hash

  predicate IsPayToScriptHash(script: seq<byte>) {
    |script| == 23 && script[0] == OP_HASH160 && script[1] == 20 && script[22] == OP_EQUAL
  }

  // The data of the last instruction, when all are read and push; a script
  // that pushes a small number carries no data there.
  function PushedLast(script: seq<byte>, data: Item): Option<Item>
    decreases |script|
  {
    match ReadOp(script)
    case None => if script == [] then Some(data) else None
    case Some(r) => if r.instr.opcode > OP_16 then None else ReadAdvances(script); PushedLast(script[r.next..], r.instr.data)
  }

  // GetSigOpCount of the script being spent, given the script that spends it
  function SpendSigOpCount(scriptPubKey: seq<byte>, scriptSig: seq<byte>): nat {
    if !IsPayToScriptHash(scriptPubKey) then SigOpCount(scriptPubKey, true) else
    match PushedLast(scriptSig, [])
    case None => 0
    case Some(redeem) => SigOpCount(redeem, true)
  }

  lemma PushedLastStep(s: seq<byte>, data: Item)
    requires ReadOp(s).Some?
    ensures 0 < ReadOp(s).value.next <= |s|
    ensures var Read(instr, next) := ReadOp(s).value;
      PushedLast(s, data) == if instr.opcode > OP_16 then None else PushedLast(s[next..], instr.data)
  {
    hide ReadOp;
    ReadAdvances(s);
  }

  method GetSpendSigOpCount(scriptPubKey: seq<byte>, scriptSig: seq<byte>) returns (n: nat)
    ensures n == SpendSigOpCount(scriptPubKey, scriptSig)
  {
    hide ReadOp, PushedLast, SigOpCount;
    if !IsPayToScriptHash(scriptPubKey) {
      n := GetSigOpCount(scriptPubKey, true);
      return;
    }
    var data: Item := [];
    var pc: nat := 0;
    assert scriptSig[0..] == scriptSig;
    while pc < |scriptSig|
      invariant pc <= |scriptSig|
      invariant PushedLast(scriptSig, []) == PushedLast(scriptSig[pc..], data)
      decreases |scriptSig| - pc
    {
      var read := GetOp(scriptSig, pc);
      if read.None? {
        PushedNothing(scriptSig[pc..], data);
        return 0;
      }
      PushedLastStep(scriptSig[pc..], data);
      var next := read.value.next;
      assert scriptSig[pc..][next - pc..] == scriptSig[next..];
      if read.value.instr.opcode > OP_16 {
        return 0;
      }
      data, pc := read.value.instr.data, next;
    }
    ReadNothing(scriptSig[pc..]);
    PushedNothing(scriptSig[pc..], data);
    n := GetSigOpCount(data, true);
  }

  lemma PushedNothing(s: seq<byte>, data: Item)
    requires ReadOp(s).None?
    ensures PushedLast(s, data) == if s == [] then Some(data) else None
  {}

  method IsPushOnly(script: seq<byte>) returns (r: bool)
    ensures r <==> PushedLast(script, []).Some?
  {
    hide ReadOp, PushedLast;
    var data: Item := [];
    var pc: nat := 0;
    assert script[0..] == script;
    while pc < |script|
      invariant pc <= |script|
      invariant PushedLast(script, []) == PushedLast(script[pc..], data)
      decreases |script| - pc
    {
      var read := GetOp(script, pc);
      if read.None? {
        PushedNothing(script[pc..], data);
        return false;
      }
      PushedLastStep(script[pc..], data);
      var next := read.value.next;
      assert script[pc..][next - pc..] == script[next..];
      if read.value.instr.opcode > OP_16 {
        return false;
      }
      data, pc := read.value.instr.data, next;
    }
    ReadNothing(script[pc..]);
    PushedNothing(script[pc..], data);
    return true;
  }

  // The item on top after running a script that only pushes is the data of its
  // last instruction, or a number of one byte.
  ghost predicate Pushed(stack: seq<Item>, data: Item) {
    stack != [] && var top := stack[|stack| - 1];
    top == data || exists n :: (n == -1 || 1 <= n <= 16) && top == EncodeNum(n)
  }

  lemma ExecutePushes(ctx: Context, p: Placed, m: Machine)
    requires p.instr.opcode <= OP_16 && Step(ctx, p, [], m).Next?
    ensures Step(ctx, p, [], m).exec == [] && Pushed(Step(ctx, p, [], m).machine.stack, p.instr.data)
  {
    hide Takes, TopOperator, CheckMany, EncodeNum;
    TakesNothing(p.instr.opcode);
  }

  lemma {:induction false} PushOnlyRun(ctx: Context, s: seq<byte>, data: Item, m: Machine)
    requires PushedLast(s, data).Some? && Evaluate(ctx, s, [], m).Ok?
    requires Pushed(m.stack, data) || (m.stack == [] && data == [])
    ensures var stack := Evaluate(ctx, s, [], m).machine.stack;
      Pushed(stack, PushedLast(s, data).value) || stack == []
    decreases |s|
  {
    hide Step, ReadOp, Evaluate, PushedLast, Pushed;
    if ReadOp(s).None? {
      EvaluateEnd(ctx, s, [], m);
      PushedNothing(s, data);
    } else {
      var Read(instr, next) := ReadOp(s).value;
      EvaluateStep(ctx, s, [], m);
      PushedLastStep(s, data);
      ExecutePushes(ctx, Placed(instr, s[next..]), m);
      var stepped := Step(ctx, Placed(instr, s[next..]), [], m);
      PushOnlyRun(ctx, s[next..], instr.data, stepped.machine);
    }
  }

  // A script that is such a number makes no signature check.
  lemma SmallNumberScript(n: int)
    requires n == -1 || 1 <= n <= 16
    ensures SigOpCount(EncodeNum(n), true) == 0
  {
    var s := EncodeNum(n);
    assert Magnitude(0) == [];
    assert Magnitude(Abs(n)) == [Abs(n)];
    if n == -1 {
      assert s == [0x81];
      assert ReadOp(s) == Some(Read(Instr(0x81, []), 1));
      ListingStep(s);
      ListingEnd(s[1..]);
      NoSigOps(Listing(s));
    } else {
      assert s == [n as byte];
      assert ReadOp(s).None?;
    }
  }

  lemma PushedSigOps(stack: seq<Item>, data: Item)
    requires Pushed(stack, data)
    ensures SigOpCount(stack[|stack| - 1], true) <= SigOpCount(data, true)
  {
    hide EncodeNum, SigOpCount;
    var top := stack[|stack| - 1];
    if top != data {
      var n :| (n == -1 || 1 <= n <= 16) && top == EncodeNum(n);
      SmallNumberScript(n);
    }
  }

  datatype Verified = Verified(ok: bool, calls: nat)

  predicate TopHolds(stack: seq<Item>) {
    stack != [] && Truth(stack[|stack| - 1])
  }

  // VerifyScript, with the number of signature checks made
  function Verify(ctx: Context, scriptSig: seq<byte>, scriptPubKey: seq<byte>): Verified {
    var a := Eval(ctx, [], scriptSig);
    if a.Fail? then Verified(false, a.Calls()) else
    var b := Eval(ctx, a.machine.stack, scriptPubKey);
    var calls := a.Calls() + b.Calls();
    if b.Fail? || !TopHolds(b.machine.stack) then Verified(false, calls)
    else if !IsPayToScriptHash(scriptPubKey) then Verified(true, calls)
    else if PushedLast(scriptSig, []).None? || a.machine.stack == [] then Verified(false, calls) else
    var last := |a.machine.stack| - 1;
    var c := Eval(ctx, a.machine.stack[..last], a.machine.stack[last]);
    Verified(c.Ok? && TopHolds(c.machine.stack), calls + c.Calls())
  }

  method VerifyScript(ctx: Context, scriptSig: seq<byte>, scriptPubKey: seq<byte>) returns (r: Verified)
    ensures r == Verify(ctx, scriptSig, scriptPubKey)
    ensures r.calls <= SigOpCount(scriptSig, true) + SpendSigOpCount(scriptPubKey, scriptSig)
  {
    hide Eval, PushedLast, SigOpCount, Truth;
    VerifyCallsAreCounted(ctx, scriptSig, scriptPubKey);
    var ok, stack, calls := EvalScript(ctx, [], scriptSig);
    if !ok {
      return Verified(false, calls);
    }
    var stackCopy := stack;
    var more;
    ok, stack, more := EvalScript(ctx, stack, scriptPubKey);
    calls := calls + more;
    if !ok || stack == [] {
      return Verified(false, calls);
    }
    var holds := CastToBool(stack[|stack| - 1]);
    if !holds {
      return Verified(false, calls);
    }
    if IsPayToScriptHash(scriptPubKey) {
      var pushOnly := IsPushOnly(scriptSig);
      if !pushOnly {
        return Verified(false, calls);
      }
      HashNeedsAnItem(ctx, scriptPubKey, stackCopy);
      var redeem := stackCopy[|stackCopy| - 1];
      stackCopy := stackCopy[..|stackCopy| - 1];
      ok, stack, more := EvalScript(ctx, stackCopy, redeem);
      calls := calls + more;
      if !ok || stack == [] {
        return Verified(false, calls);
      }
      holds := CastToBool(stack[|stack| - 1]);
      return Verified(holds, calls);
    }
    return Verified(true, calls);
  }

  // The redeem script is there when it is read.
  lemma HashNeedsAnItem(ctx: Context, script: seq<byte>, stack: seq<Item>)
    requires IsPayToScriptHash(script) && Eval(ctx, stack, script).Ok?
    ensures stack != []
  {
    hide Evaluate, EncodeNum, Truth;
    assert ReadOp(script) == Some(Read(Instr(OP_HASH160, []), 1));
    EvaluateStep(ctx, script, [], Start(stack, script));
  }

  /** The signature checks made in verifying a spend are at most those counted
      for the two scripts; for pay to script hash the redeem script is found and
      counted without running anything. */
  lemma VerifyCallsAreCounted(ctx: Context, scriptSig: seq<byte>, scriptPubKey: seq<byte>)
    ensures Verify(ctx, scriptSig, scriptPubKey).calls <= SigOpCount(scriptSig, true) + SpendSigOpCount(scriptPubKey, scriptSig)
  {
    hide Eval, PushedLast, SigOpCount, Truth, Pushed;
    CallsAreCounted(ctx, [], scriptSig);
    var a := Eval(ctx, [], scriptSig);
    if a.Ok? {
      var stack := a.machine.stack;
      CallsAreCounted(ctx, stack, scriptPubKey);
      if IsPayToScriptHash(scriptPubKey) {
        HashScriptCounts(scriptPubKey);
        if PushedLast(scriptSig, []).Some? && stack != [] {
          EvalPushes(ctx, scriptSig);
          PushedSigOps(stack, PushedLast(scriptSig, []).value);
          CallsAreCounted(ctx, stack[..|stack| - 1], stack[|stack| - 1]);
        }
      }
    }
  }

  lemma EvalPushes(ctx: Context, s: seq<byte>)
    requires PushedLast(s, []).Some? && Eval(ctx, [], s).Ok? && Eval(ctx, [], s).machine.stack != []
    ensures Pushed(Eval(ctx, [], s).machine.stack, PushedLast(s, []).value)
  {
    hide Evaluate, PushedLast, Pushed;
    PushOnlyRun(ctx, s, [], Start([], s));
  }

  lemma HashScriptCounts(s: seq<byte>)
    requires IsPayToScriptHash(s)
    ensures SigOpCount(s, true) == 0
  {
    hide SigOps;
    var t := s[1..];
    var u := t[21..];
    assert ReadOp(s) == Some(Read(Instr(OP_HASH160, []), 1));
    assert ReadOp(t) == Some(Read(Instr(20, t[1..21]), 21));
    assert u == [OP_EQUAL];
    assert ReadOp(u) == Some(Read(Instr(OP_EQUAL, []), 1));
    ListingStep(s);
    ListingStep(t);
    ListingStep(u);
    ListingEnd(u[1..]);
    NoSigOps(Listing(u));
    NoSigOps(Listing(t));
    NoSigOps(Listing(s));
  }

  lemma NoSigOps(ps: seq<Placed>)
    requires forall i | 0 <= i < |ps| :: !IsCheckSig(ps[i].instr.opcode) && !IsCheckMultisig(ps[i].instr.opcode)
    ensures forall last :: SigOps(ps, last, true) == 0
  {
    if ps != [] {
      NoSigOps(ps[1..]);
    }
  }

  // --- what the count counts

  // The opcode before what follows ps
  function LastOp(ps: seq<Placed>, last: byte): byte {
    if ps == [] then last else ps[|ps| - 1].instr.opcode
  }

  lemma {:induction false} SigOpsAppend(ps: seq<Placed>, qs: seq<Placed>, last: byte, accurate: bool)
    ensures SigOps(ps + qs, last, accurate) == SigOps(ps, last, accurate) + SigOps(qs, LastOp(ps, last), accurate)
    decreases |ps|
  {
    hide Cost;
    if ps == [] {
      assert [] + qs == qs;
    } else {
      assert (ps + qs)[1..] == ps[1..] + qs;
      SigOpsAppend(ps[1..], qs, ps[0].instr.opcode, accurate);
    }
  }

  // Only the opcodes matter.
  ghost predicate SameOps(ps: seq<Placed>, qs: seq<Placed>) {
    |ps| == |qs| && forall i | 0 <= i < |ps| :: ps[i].instr == qs[i].instr
  }

  lemma {:induction false} SameOpsSameCount(ps: seq<Placed>, qs: seq<Placed>, last: byte, accurate: bool)
    requires SameOps(ps, qs)
    ensures SigOps(ps, last, accurate) == SigOps(qs, last, accurate)
    decreases |ps|
  {
    hide Cost;
    if ps != [] {
      assert ps[0].instr == qs[0].instr;
      SameOpsSameCount(ps[1..], qs[1..], ps[0].instr.opcode, accurate);
    }
  }

  lemma ReadPrefix(s: seq<byte>, t: seq<byte>)
    requires ReadOp(s).Some?
    ensures ReadOp(s + t) == ReadOp(s)
  {
    hide ReadOp, Print, Encodable;
    PrintRead(s);
    var r := ReadOp(s).value;
    assert s + t == Print(r.instr) + (s[r.next..] + t);
    ReadPrinted(r.instr, s[r.next..] + t);
    assert s == Print(r.instr) + s[r.next..];
    ReadPrinted(r.instr, s[r.next..]);
  }

  // A script that can be read to its end, and what follows it
  lemma {:induction false} ListingAppend(s: seq<byte>, t: seq<byte>) returns (ps: seq<Placed>)
    requires Readable(s)
    ensures Listing(s + t) == ps + Listing(t) && SameOps(ps, Listing(s))
    decreases |s|
  {
    hide ReadOp, Listing, Readable;
    if ReadOp(s).None? {
      ListingEnd(s);
      assert [] + t == t;
      ps := [];
    } else {
      var r := ReadOp(s).value;
      ListingStep(s);
      ReadPrefix(s, t);
      ListingStep(s + t);
      assert (s + t)[r.next..] == s[r.next..] + t;
      var more := ListingAppend(s[r.next..], t);
      ps := [Placed(r.instr, s[r.next..] + t)] + more;
    }
  }

  /** The count adds up over scripts joined end to end: the plain one always, the
      accurate one with the last opcode of the first script carried over. */
  lemma CountsAddUp(s: seq<byte>, t: seq<byte>, accurate: bool)
    requires Readable(s)
    ensures SigOpCount(s + t, accurate) == SigOpCount(s, accurate) + SigOps(Listing(t), LastOp(Listing(s), OP_INVALIDOPCODE), accurate)
    ensures SigOpCount(s + t, false) == SigOpCount(s, false) + SigOpCount(t, false)
  {
    hide SigOps, Listing, Readable;
    var ps := ListingAppend(s, t);
    forall a: bool ensures SigOpCount(s + t, a) == SigOpCount(s, a) + SigOps(Listing(t), LastOp(Listing(s), OP_INVALIDOPCODE), a) {
      SigOpsAppend(ps, Listing(t), OP_INVALIDOPCODE, a);
      SameOpsSameCount(ps, Listing(s), OP_INVALIDOPCODE, a);
    }
    PlainIgnoresLast(Listing(t), LastOp(Listing(s), OP_INVALIDOPCODE), OP_INVALIDOPCODE);
  }

  lemma PlainIgnoresLast(ps: seq<Placed>, last: byte, last': byte)
    ensures SigOps(ps, last, false) == SigOps(ps, last', false)
  {}

  // No conditional and no check of several signatures
  ghost predicate Straight(ps: seq<Placed>) {
    forall i | 0 <= i < |ps| :: !(OP_IF <= ps[i].instr.opcode <= OP_ENDIF) && !IsCheckMultisig(ps[i].instr.opcode)
  }

  lemma StepCounts(ctx: Context, p: Placed, last: byte, accurate: bool, m: Machine)
    requires !(OP_IF <= p.instr.opcode <= OP_ENDIF) && !IsCheckMultisig(p.instr.opcode) && Step(ctx, p, [], m).Next?
    ensures Step(ctx, p, [], m).exec == []
    ensures Step(ctx, p, [], m).machine.calls == m.calls + Cost(p.instr.opcode, last, accurate)
  {
    hide Takes, TopOperator, Disabled, Fits, EncodeNum, Truth, WithoutSignatures;
    var op := p.instr.opcode;
    TakesNothing(op);
    if Takes(op).Some? {
      TopOperatorCalls(ctx, op, Record(p, Charge(p.instr, m).machine));
    }
  }

  lemma {:induction false} StraightRunCounts(ctx: Context, ps: seq<Placed>, last: byte, accurate: bool, m: Machine)
    requires Straight(ps) && FlatRun(ctx, ps, [], m).Ok?
    ensures FlatRun(ctx, ps, [], m).machine.calls == m.calls + SigOps(ps, last, accurate)
    decreases |ps|
  {
    hide Step, Cost;
    if ps != [] {
      StepCounts(ctx, ps[0], last, accurate, m);
      StraightRunCounts(ctx, ps[1..], ps[0].instr.opcode, accurate, Step(ctx, ps[0], [], m).machine);
    }
  }

  /** A script without conditionals and multisignature checks that runs to its end
      makes exactly the checks counted. */
  lemma StraightCountIsExact(ctx: Context, stack: seq<Item>, script: seq<byte>, accurate: bool)
    requires Straight(Listing(script)) && Eval(ctx, stack, script).Ok?
    ensures Eval(ctx, stack, script).Calls() == SigOpCount(script, accurate)
  {
    hide FlatRun, SigOps, Readable, Listing, Straight;
    StraightRunCounts(ctx, Listing(script), OP_INVALIDOPCODE, accurate, Start(stack, script));
  }
}
