/**
 OP_CHECKMULTISIG on the items a spend leaves, and the m-of-n scripts of BIP 11.
 */
module ScriptMultisig {
  import opened Basics
  import opened ScriptBytes
  import opened ScriptNumbers
  import opened ScriptMachine
  import opened ScriptOperators
  import opened ScriptSigOps
  import opened ScriptSpends
  import Multisig

  // --- deleting signatures

  function PushInstr(data: Item): Instr {
    Instr(PushOpcode(data), data)
  }

  predicate IsPushOf(i: Instr, sigs: seq<Item>) {
    exists k | 0 <= k < |sigs| :: i == PushInstr(sigs[k])
  }

  // The instructions that push none of the signatures
  function Kept(instrs: seq<Instr>, sigs: seq<Item>): seq<Instr> {
    if instrs == [] then []
    else (if IsPushOf(instrs[0], sigs) then [] else [instrs[0]]) + Kept(instrs[1..], sigs)
  }

  ghost predicate Short(sigs: seq<Item>) {
    forall k | 0 <= k < |sigs| :: |sigs[k]| < 0x1_0000_0000
  }

  lemma {:induction false} KeptNothing(instrs: seq<Instr>)
    ensures Kept(instrs, []) == instrs
  {
    if instrs != [] {
      KeptNothing(instrs[1..]);
    }
  }

  lemma {:induction false} KeptStep(instrs: seq<Instr>, sigs: seq<Item>)
    requires sigs != []
    ensures Kept(Without(instrs, PushInstr(sigs[0])), sigs[1..]) == Kept(instrs, sigs)
  {
    if instrs != [] {
      var i, more := instrs[0], instrs[1..];
      KeptStep(more, sigs);
      assert IsPushOf(i, sigs) <==> i == PushInstr(sigs[0]) || IsPushOf(i, sigs[1..]) by {
        PushOfHead(i, sigs);
      }
      if i != PushInstr(sigs[0]) {
        var rest := Without(more, PushInstr(sigs[0]));
        assert ([i] + rest)[1..] == rest;
      }
    }
  }

  lemma PushOfHead(i: Instr, sigs: seq<Item>)
    requires sigs != []
    ensures IsPushOf(i, sigs) <==> i == PushInstr(sigs[0]) || IsPushOf(i, sigs[1..])
  {
    if IsPushOf(i, sigs) {
      var k :| 0 <= k < |sigs| && i == PushInstr(sigs[k]);
      assert k > 0 ==> sigs[1..][k - 1] == sigs[k];
    }
    if IsPushOf(i, sigs[1..]) {
      var k :| 0 <= k < |sigs[1..]| && i == PushInstr(sigs[1..][k]);
      assert sigs[k + 1] == sigs[1..][k];
    }
  }

  /** The code that is signed is the script without the pushes of the signatures, in
      whatever order they are deleted. */
  lemma {:induction false} SignaturesAreDeleted(code: seq<byte>, sigs: seq<Item>)
    requires Short(sigs)
    ensures WithoutSignatures(code, sigs) == PrintAll(Kept(Parse(code).instrs, sigs)) + Parse(code).tail
    decreases |sigs|
  {
    hide Parse, Push, Print, PrintAll, Deleted, Kept, Without;
    if sigs == [] {
      KeptNothing(Parse(code).instrs);
      PrintParsed(code);
    } else {
      var i := PushInstr(sigs[0]);
      PushIsPrint(sigs[0]);
      var next := Deleted(code, Push(sigs[0]));
      DeletedIsFiltered(code, i);
      PrintParsed(code);
      WithoutTwice(Parse(code).instrs, i);
      ParsePrinted(Without(Parse(code).instrs, i), Parse(code).tail);
      SignaturesAreDeleted(next, sigs[1..]);
      KeptStep(Parse(code).instrs, sigs);
    }
  }

  lemma {:induction false} KeptSame(instrs: seq<Instr>, sigs: seq<Item>, sigs': seq<Item>)
    requires forall i :: IsPushOf(i, sigs) <==> IsPushOf(i, sigs')
    ensures Kept(instrs, sigs) == Kept(instrs, sigs')
  {
    if instrs != [] {
      KeptSame(instrs[1..], sigs, sigs');
    }
  }

  function Reversed(s: seq<Item>): (r: seq<Item>)
    ensures |r| == |s| && forall i | 0 <= i < |s| :: r[i] == s[|s| - 1 - i]
  {
    seq(|s|, i requires 0 <= i < |s| => s[|s| - 1 - i])
  }

  lemma PushOfReversed(i: Instr, sigs: seq<Item>)
    ensures IsPushOf(i, sigs) <==> IsPushOf(i, Reversed(sigs))
  {
    var r := Reversed(sigs);
    if IsPushOf(i, sigs) {
      var k :| 0 <= k < |sigs| && i == PushInstr(sigs[k]);
      assert r[|sigs| - 1 - k] == sigs[k];
    }
  }

  lemma DeletedInAnyOrder(code: seq<byte>, sigs: seq<Item>)
    requires Short(sigs)
    ensures WithoutSignatures(code, Reversed(sigs)) == WithoutSignatures(code, sigs)
  {
    hide Parse, PrintAll, Kept, IsPushOf;
    SignaturesAreDeleted(code, sigs);
    SignaturesAreDeleted(code, Reversed(sigs));
    forall i ensures IsPushOf(i, sigs) <==> IsPushOf(i, Reversed(sigs)) {
      PushOfReversed(i, sigs);
    }
    KeptSame(Parse(code).instrs, sigs, Reversed(sigs));
  }

  // --- assignments read from the other end

  lemma ReverseAssigns(check: Multisig.Check<Item, Item>, sigs: seq<Item>, keys: seq<Item>, f: seq<nat>) returns (g: seq<nat>)
    requires Multisig.Assigns(check, sigs, keys, f)
    ensures Multisig.Assigns(check, Reversed(sigs), Reversed(keys), g)
  {
    var n := |f|;
    g := seq(n, i requires 0 <= i < n => |keys| - 1 - f[n - 1 - i]);
    forall i | 0 <= i < n ensures g[i] < |keys| && check(Reversed(sigs)[i], Reversed(keys)[g[i]]) {
      assert check(sigs[n - 1 - i], keys[f[n - 1 - i]]);
    }
    forall i, j | 0 <= i < j < n ensures g[i] < g[j] {
      assert f[n - 1 - j] < f[n - 1 - i];
    }
  }

  lemma ReversedTwice(s: seq<Item>)
    ensures Reversed(Reversed(s)) == s
  {}

  lemma AssignableReversed(check: Multisig.Check<Item, Item>, sigs: seq<Item>, keys: seq<Item>)
    ensures Multisig.Assignable(check, Reversed(sigs), Reversed(keys)) <==> Multisig.Assignable(check, sigs, keys)
  {
    hide Multisig.Assigns;
    ReversedTwice(sigs);
    ReversedTwice(keys);
    if Multisig.Assignable(check, sigs, keys) {
      var f :| Multisig.Assigns(check, sigs, keys, f);
      var g := ReverseAssigns(check, sigs, keys, f);
    }
    if Multisig.Assignable(check, Reversed(sigs), Reversed(keys)) {
      var f :| Multisig.Assigns(check, Reversed(sigs), Reversed(keys), f);
      var g := ReverseAssigns(check, Reversed(sigs), Reversed(keys), f);
    }
  }

  // --- the request

  // A dummy item, the signatures and their number, the keys and theirs
  function Asked(below: seq<Item>, dummy: Item, sigs: seq<Item>, keys: seq<Item>): seq<Item> {
    below + [dummy] + sigs + [EncodeNum(|sigs|)] + keys + [EncodeNum(|keys|)]
  }

  // The signatures, in order, are right for different keys, in order.
  ghost predicate AllSign(ctx: Context, sigs: seq<Item>, keys: seq<Item>, script: seq<byte>) {
    Multisig.Assignable(Checker(ctx, WithoutSignatures(script, sigs)), sigs, keys)
  }

  lemma AskedShape(below: seq<Item>, dummy: Item, sigs: seq<Item>, keys: seq<Item>)
    ensures var s := Asked(below, dummy, sigs, keys); var n := |s|;
      && n == |below| + 3 + |sigs| + |keys|
      && s[n - 1] == EncodeNum(|keys|) && s[n - 2 - |keys|] == EncodeNum(|sigs|)
      && Downwards(s, n - 1, |keys|) == Reversed(keys)
      && Downwards(s, n - 2 - |keys|, |sigs|) == Reversed(sigs)
      && s[..|below|] == below
  {
    hide EncodeNum;
  }

  lemma RequestOf(m: Machine, below: seq<Item>, dummy: Item, sigs: seq<Item>, keys: seq<Item>)
    requires m.stack == Asked(below, dummy, sigs, keys)
    requires |sigs| <= |keys| <= MAX_KEYS && m.opCount + |keys| <= MAX_OPS
    ensures ReadRequest(m) == Some(Request(Reversed(keys), Reversed(sigs), below))
  {
    hide EncodeNum, CastToNum, Asked, Downwards;
    AskedShape(below, dummy, sigs, keys);
    NumberFits(|keys|);
    NumberFits(|sigs|);
  }

  /** OP_CHECKMULTISIG takes the whole request and answers whether the signatures sign,
      in order, for different keys of it. */
  lemma CheckManySigns(ctx: Context, m: Machine, below: seq<Item>, dummy: Item, sigs: seq<Item>, keys: seq<Item>)
    requires m.stack == Asked(below, dummy, sigs, keys) && Short(sigs)
    requires |sigs| <= |keys| <= MAX_KEYS && m.opCount + |keys| <= MAX_OPS
    ensures var o := CheckMany(ctx, OP_CHECKMULTISIG, m);
      o.Ok? && o.machine.alt == m.alt && o.machine.stack == below + [Bool(AllSign(ctx, sigs, keys, m.code))]
  {
    hide ReadRequest, WithoutSignatures, Multisig.Greedy, Multisig.Assignable, Asked, EncodeNum;
    RequestOf(m, below, dummy, sigs, keys);
    CheckManyDecides(ctx, m);
    DeletedInAnyOrder(m.code, sigs);
    AssignableReversed(Checker(ctx, WithoutSignatures(m.code, sigs)), sigs, keys);
  }

  /** With one signature and one key it answers what OP_CHECKSIG answers. */
  lemma OneOfOne(ctx: Context, m: Machine, below: seq<Item>, dummy: Item, sig: Item, key: Item)
    requires |sig| < 0x1_0000_0000 && m.opCount < MAX_OPS
    ensures var many := Execute(ctx, At(OP_CHECKMULTISIG, []), m.(stack := Asked(below, dummy, [sig], [key])));
      var one := Execute(ctx, At(OP_CHECKSIG, []), m.(stack := below + [sig, key]));
      && many.Ok? && one.Ok? && many.machine.stack == one.machine.stack
      && one.machine.stack == below + [Bool(Signs(ctx, sig, key, m.code))]
  {
    hide CheckMany, WithoutSignatures, Asked;
    CheckManySigns(ctx, m.(stack := Asked(below, dummy, [sig], [key])), below, dummy, [sig], [key]);
    WithoutOne(m.code, sig);
    AssignOne(Checker(ctx, WithoutSignatures(m.code, [sig])), sig, key);
    var s := below + [sig, key];
    assert s[..|s| - 2] == below;
  }

  lemma AssignOne(check: Multisig.Check<Item, Item>, sig: Item, key: Item)
    ensures Multisig.Assignable(check, [sig], [key]) <==> check(sig, key)
  {
    if check(sig, key) {
      assert Multisig.Assigns(check, [sig], [key], [0]);
    }
    if Multisig.Assignable(check, [sig], [key]) {
      var f :| Multisig.Assigns(check, [sig], [key], f);
      assert f[0] == 0;
    }
  }

  // --- m-of-n scripts

  function PushAll(items: seq<Item>): seq<byte> {
    if items == [] then [] else Push(items[0]) + PushAll(items[1..])
  }

  function MultisigScript(m: nat, keys: seq<Item>): seq<byte>
    requires m <= |keys| <= 16
  {
    [OP_RESERVED + m] + (PushAll(keys) + ([OP_RESERVED + |keys|] + [OP_CHECKMULTISIG]))
  }

  lemma {:induction false} RunPushes(ctx: Context, items: seq<Item>, rest: seq<byte>, m: Machine) returns (m': Machine)
    requires Small(items) && |m.stack| + |items| + |m.alt| <= MAX_ITEMS
    ensures m' == m.(stack := m.stack + items, ran := m'.ran)
    ensures Evaluate(ctx, PushAll(items) + rest, [], m) == Evaluate(ctx, rest, [], m')
    decreases |items|
  {
    hide Evaluate, Push;
    if items == [] {
      m' := m;
      assert [] + rest == rest;
      assert m.stack + [] == m.stack;
    } else {
      var x, more := items[0], items[1..];
      assert PushAll(items) + rest == Push(x) + (PushAll(more) + rest);
      StepPush(ctx, x, PushAll(more) + rest, m);
      var m1 := Moved(Placed(Instr(PushOpcode(x), x), PushAll(more) + rest), m, m.stack + [x]);
      m' := RunPushes(ctx, more, rest, m1);
      assert m.stack + [x] + more == m.stack + items;
    }
  }

  // Once the stack is full nothing more can be pushed.
  lemma {:induction false} PushesOverflow(ctx: Context, items: seq<Item>, rest: seq<byte>, m: Machine)
    requires Small(items) && |m.stack| + |m.alt| <= MAX_ITEMS < |m.stack| + |items| + |m.alt|
    ensures Evaluate(ctx, PushAll(items) + rest, [], m).Fail?
    decreases |items|
  {
    hide Evaluate, Push;
    var x, more := items[0], items[1..];
    assert PushAll(items) + rest == Push(x) + (PushAll(more) + rest);
    StepPush(ctx, x, PushAll(more) + rest, m);
    var m1 := Moved(Placed(Instr(PushOpcode(x), x), PushAll(more) + rest), m, m.stack + [x]);
    if Fits(m1) {
      PushesOverflow(ctx, more, rest, m1);
    }
  }

  lemma StepConstant(ctx: Context, n: nat, rest: seq<byte>, m: Machine)
    requires 1 <= n <= 16
    ensures Evaluate(ctx, [OP_RESERVED + n] + rest, [], m) ==
      Continue(ctx, rest, Ok(Moved(At(OP_RESERVED + n, rest), m, m.stack + [EncodeNum(n)])))
  {
    hide Evaluate, ReadOp, EncodeNum;
    var op := OP_RESERVED + n;
    ReadsOp(op, rest);
    EvaluateStep(ctx, [op] + rest, [], m);
    assert Record(At(op, rest), m).(stack := m.stack + [EncodeNum(n)]) == Moved(At(op, rest), m, m.stack + [EncodeNum(n)]);
  }

  lemma {:induction false} PushAllSize(items: seq<Item>)
    requires Small(items)
    ensures |PushAll(items)| <= (MAX_ITEM_SIZE + 3) * |items|
  {
    hide Push;
    if items != [] {
      PushSize(items[0]);
      PushAllSize(items[1..]);
    }
  }

  // The items on which the operator works, whether there are enough or not
  lemma RequestOnStack(m: Machine, stack: seq<Item>, k: nat, keys: seq<Item>)
    requires m.stack == stack + [EncodeNum(k)] + keys + [EncodeNum(|keys|)]
    requires k <= |keys| <= 16 && m.opCount + |keys| <= MAX_OPS && |stack| <= k
    ensures ReadRequest(m).None?
  {
    hide EncodeNum, CastToNum, Downwards;
    var n := |m.stack|;
    assert m.stack[n - 1] == EncodeNum(|keys|) && m.stack[n - 2 - |keys|] == EncodeNum(k);
    NumberFits(|keys|);
    NumberFits(k);
  }

  lemma SplitRequest(stack: seq<Item>, k: nat, keys: seq<Item>)
    requires k < |stack|
    ensures stack + [EncodeNum(k)] + keys + [EncodeNum(|keys|)] ==
      Asked(stack[..|stack| - k - 1], stack[|stack| - k - 1], stack[|stack| - k..], keys)
  {
    hide EncodeNum;
    assert stack == stack[..|stack| - k - 1] + [stack[|stack| - k - 1]] + stack[|stack| - k..];
  }

  // What is left once the keys are pushed
  lemma MultisigEnd(ctx: Context, m: Machine, stack: seq<Item>, k: nat, keys: seq<Item>)
    requires m.stack == stack + [EncodeNum(k)] + keys && m.alt == [] && m.opCount == 0 && Fits(m)
    requires k <= |keys| <= 16 && 1 <= |keys| && Short(stack)
    ensures var o := Evaluate(ctx, [OP_RESERVED + |keys|] + [OP_CHECKMULTISIG], [], m);
      && (o.Ok? <==> k < |stack| <= MAX_ITEMS - 2 - |keys|)
      && (o.Ok? ==> o.machine.stack == stack[..|stack| - k - 1] + [Bool(AllSign(ctx, stack[|stack| - k..], keys, m.code))])
  {
    hide Evaluate, EncodeNum, CheckMany, AllSign, Asked;
    var n := |keys|;
    StepConstant(ctx, n, [OP_CHECKMULTISIG], m);
    var m1 := Moved(At(OP_RESERVED + n, [OP_CHECKMULTISIG]), m, m.stack + [EncodeNum(n)]);
    if Fits(m1) {
      assert [OP_CHECKMULTISIG] + [] == [OP_CHECKMULTISIG];
      StepOp(ctx, OP_CHECKMULTISIG, [], m1);
      var m2 := Moved(At(OP_CHECKMULTISIG, []), m1, m1.stack);
      if k < |stack| {
        SplitRequest(stack, k, keys);
        var sigs := stack[|stack| - k..];
        CheckManySigns(ctx, m2, stack[..|stack| - k - 1], stack[|stack| - k - 1], sigs, keys);
        StepEnd(ctx, CheckMany(ctx, OP_CHECKMULTISIG, m2).machine);
      } else {
        TooFew(ctx, m2, stack, k, keys);
      }
    }
  }

  lemma TooFew(ctx: Context, m: Machine, stack: seq<Item>, k: nat, keys: seq<Item>)
    requires m.stack == stack + [EncodeNum(k)] + keys + [EncodeNum(|keys|)]
    requires k <= |keys| <= 16 && m.opCount + |keys| <= MAX_OPS && |stack| <= k
    ensures CheckMany(ctx, OP_CHECKMULTISIG, m).Fail?
  {
    hide ReadRequest;
    RequestOnStack(m, stack, k, keys);
  }

  lemma MultisigRun(ctx: Context, stack: seq<Item>, k: nat, keys: seq<Item>)
    requires 1 <= k <= |keys| <= 16 && Small(keys) && Short(stack)
    ensures var o := Eval(ctx, stack, MultisigScript(k, keys));
      && (o.Ok? <==> k < |stack| <= MAX_ITEMS - 2 - |keys|)
      && (o.Ok? ==> o.machine.stack == stack[..|stack| - k - 1] + [Bool(AllSign(ctx, stack[|stack| - k..], keys, MultisigScript(k, keys)))])
  {
    hide Evaluate, EncodeNum, AllSign, PushAll;
    var script := MultisigScript(k, keys);
    PushAllSize(keys);
    var tail := [OP_RESERVED + |keys|] + [OP_CHECKMULTISIG];
    var m := Start(stack, script);
    StepConstant(ctx, k, PushAll(keys) + tail, m);
    var m1 := Moved(At(OP_RESERVED + k, PushAll(keys) + tail), m, stack + [EncodeNum(k)]);
    if Fits(m1) {
      if |m1.stack| + |keys| <= MAX_ITEMS {
        var m2 := RunPushes(ctx, keys, tail, m1);
        MultisigEnd(ctx, m2, stack, k, keys);
      } else {
        PushesOverflow(ctx, keys, tail, m1);
      }
    }
  }

  /** An m-of-n output is spent exactly if the spending script leaves a dummy item and
      m signatures on top that sign, in the order of the keys, for m of the n keys. */
  lemma PayToMultisig(ctx: Context, scriptSig: seq<byte>, k: nat, keys: seq<Item>)
    requires 1 <= k <= |keys| <= 16 && Small(keys)
    ensures var a := Eval(ctx, [], scriptSig);
      Verify(ctx, scriptSig, MultisigScript(k, keys)).ok <==>
        && a.Ok? && k < |a.machine.stack| <= MAX_ITEMS - 2 - |keys|
        && AllSign(ctx, a.machine.stack[|a.machine.stack| - k..], keys, MultisigScript(k, keys))
  {
    hide Eval, TopHolds, AllSign, PushAll;
    var a := Eval(ctx, [], scriptSig);
    if a.Ok? {
      var stack := a.machine.stack;
      EvalWithinLimits(ctx, [], scriptSig);
      MultisigRun(ctx, stack, k, keys);
      if k < |stack| {
        TruthOfVerdict(stack[..|stack| - k - 1], AllSign(ctx, stack[|stack| - k..], keys, MultisigScript(k, keys)));
      }
    }
  }

  /** In particular by an empty item followed by m such signatures. */
  lemma MultisigSpend(ctx: Context, sigs: seq<Item>, keys: seq<Item>)
    requires 1 <= |sigs| <= |keys| <= 16 && Small(keys) && Small(sigs)
    ensures Verify(ctx, PushAll([[]] + sigs), MultisigScript(|sigs|, keys)).ok <==> AllSign(ctx, sigs, keys, MultisigScript(|sigs|, keys))
  {
    hide Evaluate, Verify, AllSign, PushAll, MultisigScript;
    var items := [[]] + sigs;
    var scriptSig := PushAll(items);
    PushAllSize(items);
    var m := Start([], scriptSig);
    assert scriptSig + [] == scriptSig;
    var m' := RunPushes(ctx, items, [], m);
    StepEnd(ctx, m');
    assert [] + items == items;
    assert items[|items| - |sigs|..] == sigs;
    PayToMultisig(ctx, scriptSig, |sigs|, keys);
  }

  // --- what they count

  lemma {:induction false} ListingParsed(s: seq<byte>)
    ensures |Listing(s)| == |Parse(s).instrs|
    ensures forall i | 0 <= i < |Listing(s)| :: Listing(s)[i].instr == Parse(s).instrs[i]
    decreases |s|
  {
    hide ReadOp, Listing, Parse, Readable;
    if ReadOp(s).None? {
      ListingEnd(s);
      ParseNothing(s);
    } else {
      ListingStep(s);
      ParseStep(s);
      ListingParsed(s[ReadOp(s).value.next..]);
    }
  }

  function PushInstrs(items: seq<Item>): seq<Instr> {
    seq(|items|, i requires 0 <= i < |items| => PushInstr(items[i]))
  }

  lemma {:induction false} PushAllPrints(items: seq<Item>)
    requires Small(items)
    ensures PushAll(items) == PrintAll(PushInstrs(items)) && AllEncodable(PushInstrs(items))
  {
    hide Push, Print, Encodable;
    if items != [] {
      PushIsPrint(items[0]);
      PushAllPrints(items[1..]);
      assert PushInstrs(items)[1..] == PushInstrs(items[1..]);
    }
  }

  lemma {:induction false} PrintAllAppend(a: seq<Instr>, b: seq<Instr>)
    ensures PrintAll(a + b) == PrintAll(a) + PrintAll(b)
  {
    hide Print;
    if a == [] {
      assert [] + b == b;
    } else {
      assert (a + b)[1..] == a[1..] + b;
      PrintAllAppend(a[1..], b);
    }
  }

  lemma PrintOps(op: byte, op': byte)
    requires op > OP_PUSHDATA4 && op' > OP_PUSHDATA4
    ensures PrintAll([Instr(op, [])]) == [op] && PrintAll([Instr(op, []), Instr(op', [])]) == [op, op']
  {
    hide Print, Encodable;
    PrintOp(op);
    PrintOp(op');
    PrintAllStep(Instr(op', []), [], []);
    PrintAllStep(Instr(op, []), [], []);
    PrintAllAppend([Instr(op, [])], [Instr(op', [])]);
    assert PrintAll([]) == [];
    assert [Instr(op, [])] + [Instr(op', [])] == [Instr(op, []), Instr(op', [])];
    assert [Instr(op, [])] + [] == [Instr(op, [])] && [Instr(op', [])] + [] == [Instr(op', [])];
  }

  function MultisigInstrs(k: nat, keys: seq<Item>): seq<Instr>
    requires 1 <= k <= |keys| <= 16
  {
    [Instr(OP_RESERVED + k, [])] + PushInstrs(keys) + [Instr(OP_RESERVED + |keys|, []), Instr(OP_CHECKMULTISIG, [])]
  }

  lemma MultisigParses(k: nat, keys: seq<Item>)
    requires 1 <= k <= |keys| <= 16 && Small(keys)
    ensures Parse(MultisigScript(k, keys)) == Parsed(MultisigInstrs(k, keys), [])
  {
    hide Push, Print, PrintAll, PushAll, Parse, ReadOp;
    var head, tail := [Instr(OP_RESERVED + k, [])], [Instr(OP_RESERVED + |keys|, []), Instr(OP_CHECKMULTISIG, [])];
    PushAllPrints(keys);
    PrintOps(OP_RESERVED + k, OP_CHECKMULTISIG);
    PrintOps(OP_RESERVED + |keys|, OP_CHECKMULTISIG);
    PrintAllAppend(head, PushInstrs(keys));
    PrintAllAppend(head + PushInstrs(keys), tail);
    ReadNothing([]);
    ParsePrinted(MultisigInstrs(k, keys), []);
    assert PrintAll(MultisigInstrs(k, keys)) + [] == MultisigScript(k, keys);
  }

  /** An m-of-n script counts as n signature checks, and as 20 where the number of keys
      is not looked at. */
  lemma MultisigCount(k: nat, keys: seq<Item>)
    requires 1 <= k <= |keys| <= 16 && Small(keys)
    ensures SigOpCount(MultisigScript(k, keys), true) == |keys| && SigOpCount(MultisigScript(k, keys), false) == 20
  {
    hide Listing, Parse, MultisigScript;
    MultisigParses(k, keys);
    var s := MultisigScript(k, keys);
    ListingParsed(s);
    var ps := Listing(s);
    var last := |ps| - 1;
    assert ps == ps[..last] + [ps[last]];
    assert ps[last].instr == Instr(OP_CHECKMULTISIG, []) && ps[last - 1].instr == Instr(OP_RESERVED + |keys|, []);
    forall i | 0 <= i < last ensures !IsCheckSig(ps[i].instr.opcode) && !IsCheckMultisig(ps[i].instr.opcode) {
      assert ps[i].instr == MultisigInstrs(k, keys)[i];
    }
    NoSigOpsAtAll(ps[..last], OP_INVALIDOPCODE);
    forall a: bool ensures SigOpCount(s, a) == Cost(OP_CHECKMULTISIG, OP_RESERVED + |keys|, a) {
      SigOpsAppend(ps[..last], [ps[last]], OP_INVALIDOPCODE, a);
      OneSigOp(ps[last], OP_RESERVED + |keys|, a);
    }
  }

  lemma OneSigOp(p: Placed, last: byte, accurate: bool)
    ensures SigOps([p], last, accurate) == Cost(p.instr.opcode, last, accurate)
  {
    assert SigOps([p][1..], p.instr.opcode, accurate) == 0;
  }

  lemma {:induction false} NoSigOpsAtAll(ps: seq<Placed>, last: byte)
    requires forall i | 0 <= i < |ps| :: !IsCheckSig(ps[i].instr.opcode) && !IsCheckMultisig(ps[i].instr.opcode)
    ensures forall a: bool :: SigOps(ps, last, a) == 0
  {
    if ps != [] {
      NoSigOpsAtAll(ps[1..], ps[0].instr.opcode);
    }
  }
}
