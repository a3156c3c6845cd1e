/**
 The same instructions as a tree of nested conditionals, and the refinement:
 the flat run with its stack of flags does what the tree says.
 */
module ScriptNesting {
  import opened Basics
  import opened ScriptBytes
  import opened ScriptNumbers
  import opened ScriptMachine

  // A sequence of plain instructions and conditionals
  datatype Block =
    | Empty
    | Plain(p: Placed, rest: Block)
    | Conditional(test: Placed, arms: Arms, close: Placed, rest: Block)

  // The arms of a conditional; every OP_ELSE starts another.
  datatype Arms =
    | Last(body: Block)
    | Else(body: Block, sep: Placed, more: Arms)

  predicate Opens(p: Placed) {
    p.instr.opcode == OP_IF || p.instr.opcode == OP_NOTIF
  }

  predicate Separates(p: Placed) {
    p.instr.opcode == OP_ELSE
  }

  predicate Closes(p: Placed) {
    p.instr.opcode == OP_ENDIF
  }

  predicate Nested(b: Block) {
    match b
    case Empty => true
    case Plain(p, rest) => !Opens(p) && !Separates(p) && !Closes(p) && Nested(rest)
    case Conditional(test, arms, close, rest) => Opens(test) && NestedArms(arms) && Closes(close) && Nested(rest)
  }

  predicate NestedArms(a: Arms) {
    match a
    case Last(body) => Nested(body)
    case Else(body, sep, more) => Nested(body) && Separates(sep) && NestedArms(more)
  }

  function Flat(b: Block): seq<Placed> {
    match b
    case Empty => []
    case Plain(p, rest) => [p] + Flat(rest)
    case Conditional(test, arms, close, rest) => [test] + (FlatArms(arms) + ([close] + Flat(rest)))
  }

  function FlatArms(a: Arms): seq<Placed> {
    match a
    case Last(body) => Flat(body)
    case Else(body, sep, more) => Flat(body) + ([sep] + FlatArms(more))
  }

  // --- the meaning of a tree

  function Sized(o: Outcome): Outcome {
    if o.Ok? && !Fits(o.machine) then Fail(o.machine.calls) else o
  }

  // A plain instruction that is executed
  function Perform(ctx: Context, p: Placed, m: Machine): Outcome {
    match Charge(p.instr, m)
    case Fail(calls) => Fail(calls)
    case Ok(m') => Sized(Execute(ctx, p, Record(p, m')))
  }

  // An instruction that only counts: a skipped one, an OP_ELSE or an OP_ENDIF
  function Pass(p: Placed, m: Machine): Outcome {
    if p.instr.opcode == OP_VERIF || p.instr.opcode == OP_VERNOTIF then Fail(m.calls)
    else Sized(Charge(p.instr, m))
  }

  function PassAll(ps: seq<Placed>, m: Machine): Outcome {
    if ps == [] then Ok(m) else
    match Pass(ps[0], m)
    case Fail(calls) => Fail(calls)
    case Ok(m') => PassAll(ps[1..], m')
  }

  // The test takes the condition from the stack.
  function Test(p: Placed, m: Machine): Outcome {
    match Charge(p.instr, m)
    case Fail(calls) => Fail(calls)
    case Ok(m') => if m'.stack == [] then Fail(m'.calls) else Sized(Ok(Record(p, m').(stack := m'.stack[..|m'.stack| - 1])))
  }

  predicate Holds(p: Placed, m: Machine)
    requires m.stack != []
  {
    Truth(m.stack[|m.stack| - 1]) == (p.instr.opcode == OP_IF)
  }

  function Run(ctx: Context, b: Block, m: Machine): Outcome
    decreases b, 0
  {
    match b
    case Empty => Ok(m)
    case Plain(p, rest) => (
      match Perform(ctx, p, m)
      case Fail(calls) => Fail(calls)
      case Ok(m') => Run(ctx, rest, m'))
    case Conditional(test, arms, close, rest) =>
      match Test(test, m)
      case Fail(calls) => Fail(calls)
      case Ok(m1) =>
        match RunArms(ctx, arms, m.stack != [] && Holds(test, m), m1)
        case Fail(calls) => Fail(calls)
        case Ok(m2) =>
          match Pass(close, m2)
          case Fail(calls) => Fail(calls)
          case Ok(m3) => Run(ctx, rest, m3)
  }

  // The arms are executed and skipped in turn; chosen says which way the first goes.
  function RunArms(ctx: Context, a: Arms, chosen: bool, m: Machine): Outcome
    decreases a, 0
  {
    match RunArm(ctx, a.body, chosen, m)
    case Fail(calls) => Fail(calls)
    case Ok(m1) =>
      match a
      case Last(_) => Ok(m1)
      case Else(_, sep, more) =>
        match Pass(sep, m1)
        case Fail(calls) => Fail(calls)
        case Ok(m2) => RunArms(ctx, more, !chosen, m2)
  }

  function RunArm(ctx: Context, b: Block, chosen: bool, m: Machine): Outcome
    decreases b, 1
  {
    if chosen then Run(ctx, b, m) else PassAll(Flat(b), m)
  }

  // --- flat steps seen from the tree

  // The flat run of the rest after an outcome
  function Continue(ctx: Context, o: Outcome, ps: seq<Placed>, exec: seq<bool>): Outcome {
    match o
    case Fail(calls) => Fail(calls)
    case Ok(m) => FlatRun(ctx, ps, exec, m)
  }

  lemma FlatCons(ctx: Context, p: Placed, ps: seq<Placed>, exec: seq<bool>, m: Machine)
    ensures
      var stepped := Step(ctx, p, exec, m);
      FlatRun(ctx, [p] + ps, exec, m) ==
      if stepped.Stop? then Fail(stepped.calls) else FlatRun(ctx, ps, stepped.exec, stepped.machine)
  {
    hide Step;
    assert ([p] + ps)[1..] == ps;
  }

  lemma PlainStep(ctx: Context, p: Placed, ps: seq<Placed>, exec: seq<bool>, m: Machine)
    requires !Opens(p) && !Separates(p) && !Closes(p) && false !in exec
    ensures FlatRun(ctx, [p] + ps, exec, m) == Continue(ctx, Perform(ctx, p, m), ps, exec)
  {
    hide FlatRun, Fits, Execute, Charge;
    FlatCons(ctx, p, ps, exec, m);
    if Charge(p.instr, m).Ok? && (p.instr.opcode == OP_VERIF || p.instr.opcode == OP_VERNOTIF) {
      VerifFails(ctx, p, Record(p, Charge(p.instr, m).machine));
    }
  }

  lemma VerifFails(ctx: Context, p: Placed, m: Machine)
    requires p.instr.opcode == OP_VERIF || p.instr.opcode == OP_VERNOTIF
    ensures Execute(ctx, p, m) == Fail(m.calls)
  {}

  lemma SkippedStep(ctx: Context, p: Placed, ps: seq<Placed>, exec: seq<bool>, m: Machine)
    requires !Opens(p) && !Separates(p) && !Closes(p) && false in exec
    ensures FlatRun(ctx, [p] + ps, exec, m) == Continue(ctx, Pass(p, m), ps, exec)
  {
    hide FlatRun, Execute, Fits;
    FlatCons(ctx, p, ps, exec, m);
  }

  lemma TestStep(ctx: Context, p: Placed, ps: seq<Placed>, exec: seq<bool>, m: Machine)
    requires Opens(p) && false !in exec
    ensures FlatRun(ctx, [p] + ps, exec, m) == Continue(ctx, Test(p, m), ps, exec + [m.stack != [] && Holds(p, m)])
  {
    hide FlatRun, Execute, Fits, Truth;
    FlatCons(ctx, p, ps, exec, m);
  }

  lemma SkippedTestStep(ctx: Context, p: Placed, ps: seq<Placed>, exec: seq<bool>, m: Machine)
    requires Opens(p) && false in exec
    ensures FlatRun(ctx, [p] + ps, exec, m) == Continue(ctx, Pass(p, m), ps, exec + [false])
  {
    hide FlatRun, Execute, Fits, Truth;
    FlatCons(ctx, p, ps, exec, m);
  }

  lemma ElseStep(ctx: Context, p: Placed, ps: seq<Placed>, exec: seq<bool>, flag: bool, m: Machine)
    requires Separates(p)
    ensures FlatRun(ctx, [p] + ps, exec + [flag], m) == Continue(ctx, Pass(p, m), ps, exec + [!flag])
  {
    hide FlatRun, Execute, Fits, Truth;
    FlatCons(ctx, p, ps, exec + [flag], m);
    assert (exec + [flag])[..|exec|] == exec;
  }

  lemma EndifStep(ctx: Context, p: Placed, ps: seq<Placed>, exec: seq<bool>, flag: bool, m: Machine)
    requires Closes(p)
    ensures FlatRun(ctx, [p] + ps, exec + [flag], m) == Continue(ctx, Pass(p, m), ps, exec)
  {
    hide FlatRun, Execute, Fits, Truth;
    FlatCons(ctx, p, ps, exec + [flag], m);
    assert (exec + [flag])[..|exec|] == exec;
  }

  lemma PassCons(p: Placed, ps: seq<Placed>, m: Machine)
    ensures PassAll([p] + ps, m) == if Pass(p, m).Ok? then PassAll(ps, Pass(p, m).machine) else Fail(Pass(p, m).failedAfter)
  {
    hide Pass;
    assert ([p] + ps)[1..] == ps;
  }

  lemma {:induction false} PassConcat(ps: seq<Placed>, qs: seq<Placed>, m: Machine)
    ensures PassAll(ps + qs, m) == if PassAll(ps, m).Ok? then PassAll(qs, PassAll(ps, m).machine) else PassAll(ps, m)
  {
    hide Pass;
    if ps == [] {
      assert ps + qs == qs;
    } else {
      assert ps + qs == [ps[0]] + (ps[1..] + qs);
      PassCons(ps[0], ps[1..] + qs, m);
      if Pass(ps[0], m).Ok? {
        PassConcat(ps[1..], qs, Pass(ps[0], m).machine);
      }
    }
  }

  // --- skipped blocks

  // The flag a skipped conditional ends with
  function Toggled(a: Arms, flag: bool): bool {
    match a
    case Last(_) => flag
    case Else(_, _, more) => Toggled(more, !flag)
  }

  lemma {:induction false} SkipBlock(ctx: Context, b: Block, ps: seq<Placed>, exec: seq<bool>, m: Machine)
    requires Nested(b) && false in exec
    ensures FlatRun(ctx, Flat(b) + ps, exec, m) == Continue(ctx, PassAll(Flat(b), m), ps, exec)
    decreases b, 0
  {
    hide FlatRun, Pass;
    match b
    case Empty =>
      assert Flat(b) + ps == ps;
    case Plain(p, rest) =>
      assert Flat(b) + ps == [p] + (Flat(rest) + ps);
      SkippedStep(ctx, p, Flat(rest) + ps, exec, m);
      PassCons(p, Flat(rest), m);
      if Pass(p, m).Ok? {
        SkipBlock(ctx, rest, ps, exec, Pass(p, m).machine);
      }
    case Conditional(test, arms, close, rest) =>
      SkipConditional(ctx, b, ps, exec, m);
  }

  lemma {:induction false} SkipConditional(ctx: Context, b: Block, ps: seq<Placed>, exec: seq<bool>, m: Machine)
    requires Nested(b) && b.Conditional? && false in exec
    ensures FlatRun(ctx, Flat(b) + ps, exec, m) == Continue(ctx, PassAll(Flat(b), m), ps, exec)
    decreases b, 0, 0
  {
    hide FlatRun, Pass, PassAll;
    var Conditional(test, arms, close, rest) := b;
    var after := Flat(rest) + ps;
    assert Flat(b) + ps == [test] + (FlatArms(arms) + ([close] + after));
    SkippedTestStep(ctx, test, FlatArms(arms) + ([close] + after), exec, m);
    PassCons(test, FlatArms(arms) + ([close] + Flat(rest)), m);
    if Pass(test, m).Ok? {
      var m1 := Pass(test, m).machine;
      SkipArms(ctx, arms, [close] + after, exec, false, m1);
      PassConcat(FlatArms(arms), [close] + Flat(rest), m1);
      if PassAll(FlatArms(arms), m1).Ok? {
        var m2 := PassAll(FlatArms(arms), m1).machine;
        EndifStep(ctx, close, after, exec, Toggled(arms, false), m2);
        PassCons(close, Flat(rest), m2);
        if Pass(close, m2).Ok? {
          SkipBlock(ctx, rest, ps, exec, Pass(close, m2).machine);
        }
      }
    }
  }

  lemma {:induction false} SkipArms(ctx: Context, a: Arms, ps: seq<Placed>, exec: seq<bool>, flag: bool, m: Machine)
    requires NestedArms(a) && false in exec
    ensures FlatRun(ctx, FlatArms(a) + ps, exec + [flag], m) == Continue(ctx, PassAll(FlatArms(a), m), ps, exec + [Toggled(a, flag)])
    decreases a, 0
  {
    hide FlatRun, Pass, PassAll;
    match a
    case Last(body) =>
      SkipBlock(ctx, body, ps, exec + [flag], m);
    case Else(body, sep, more) =>
      assert FlatArms(a) + ps == Flat(body) + ([sep] + (FlatArms(more) + ps));
      SkipBlock(ctx, body, [sep] + (FlatArms(more) + ps), exec + [flag], m);
      PassConcat(Flat(body), [sep] + FlatArms(more), m);
      if PassAll(Flat(body), m).Ok? {
        var m1 := PassAll(Flat(body), m).machine;
        ElseStep(ctx, sep, FlatArms(more) + ps, exec, flag, m1);
        PassCons(sep, FlatArms(more), m1);
        if Pass(sep, m1).Ok? {
          SkipArms(ctx, more, ps, exec, !flag, Pass(sep, m1).machine);
        }
      }
  }

  // --- executed blocks

  lemma {:induction false} RunsBlock(ctx: Context, b: Block, ps: seq<Placed>, exec: seq<bool>, m: Machine)
    requires Nested(b) && false !in exec
    ensures FlatRun(ctx, Flat(b) + ps, exec, m) == Continue(ctx, Run(ctx, b, m), ps, exec)
    decreases b, 0
  {
    hide FlatRun, Perform;
    match b
    case Empty =>
      assert Flat(b) + ps == ps;
    case Plain(p, rest) =>
      assert Flat(b) + ps == [p] + (Flat(rest) + ps);
      PlainStep(ctx, p, Flat(rest) + ps, exec, m);
      if Perform(ctx, p, m).Ok? {
        RunsBlock(ctx, rest, ps, exec, Perform(ctx, p, m).machine);
      }
    case Conditional(test, arms, close, rest) =>
      RunsConditional(ctx, b, ps, exec, m);
  }

  lemma {:induction false} RunsConditional(ctx: Context, b: Block, ps: seq<Placed>, exec: seq<bool>, m: Machine)
    requires Nested(b) && b.Conditional? && false !in exec
    ensures FlatRun(ctx, Flat(b) + ps, exec, m) == Continue(ctx, Run(ctx, b, m), ps, exec)
    decreases b, 0, 0
  {
    hide FlatRun, Pass, Test, Holds, RunArms;
    var Conditional(test, arms, close, rest) := b;
    var after := Flat(rest) + ps;
    var chosen := m.stack != [] && Holds(test, m);
    assert Flat(b) + ps == [test] + (FlatArms(arms) + ([close] + after));
    TestStep(ctx, test, FlatArms(arms) + ([close] + after), exec, m);
    if Test(test, m).Ok? {
      var m1 := Test(test, m).machine;
      RunsArms(ctx, arms, [close] + after, exec, chosen, m1);
      if RunArms(ctx, arms, chosen, m1).Ok? {
        var m2 := RunArms(ctx, arms, chosen, m1).machine;
        EndifStep(ctx, close, after, exec, Toggled(arms, chosen), m2);
        if Pass(close, m2).Ok? {
          RunsBlock(ctx, rest, ps, exec, Pass(close, m2).machine);
        }
      }
    }
  }

  lemma RunsArm(ctx: Context, b: Block, ps: seq<Placed>, exec: seq<bool>, chosen: bool, m: Machine)
    requires Nested(b) && false !in exec
    ensures FlatRun(ctx, Flat(b) + ps, exec + [chosen], m) == Continue(ctx, RunArm(ctx, b, chosen, m), ps, exec + [chosen])
    decreases b, 1
  {
    hide FlatRun, Run, PassAll;
    if chosen {
      RunsBlock(ctx, b, ps, exec + [chosen], m);
    } else {
      SkipBlock(ctx, b, ps, exec + [chosen], m);
    }
  }

  lemma {:induction false} RunsArms(ctx: Context, a: Arms, ps: seq<Placed>, exec: seq<bool>, chosen: bool, m: Machine)
    requires NestedArms(a) && false !in exec
    ensures FlatRun(ctx, FlatArms(a) + ps, exec + [chosen], m) == Continue(ctx, RunArms(ctx, a, chosen, m), ps, exec + [Toggled(a, chosen)])
    decreases a, 0
  {
    hide FlatRun, Pass, RunArm;
    match a
    case Last(body) =>
      RunsArm(ctx, body, ps, exec, chosen, m);
    case Else(body, sep, more) =>
      assert FlatArms(a) + ps == Flat(body) + ([sep] + (FlatArms(more) + ps));
      RunsArm(ctx, body, [sep] + (FlatArms(more) + ps), exec, chosen, m);
      if RunArm(ctx, body, chosen, m).Ok? {
        var m1 := RunArm(ctx, body, chosen, m).machine;
        ElseStep(ctx, sep, FlatArms(more) + ps, exec, chosen, m1);
        if Pass(sep, m1).Ok? {
          RunsArms(ctx, more, ps, exec, !chosen, Pass(sep, m1).machine);
        }
      }
  }

  /** Whatever the tree of a list of instructions, the flat run is the run of
      the tree: the instructions executed are exactly those the tree selects, and
      result and number of signature checks are the same. */
  lemma FlatRefinesTree(ctx: Context, b: Block, m: Machine)
    requires Nested(b)
    ensures FlatRun(ctx, Flat(b), [], m) == Run(ctx, b, m)
  {
    hide Run;
    RunsBlock(ctx, b, [], [], m);
    assert Flat(b) + [] == Flat(b);
  }

  // --- what the flat run accepts is a tree

  // Scanning from a depth of d open conditionals, none is closed or continued
  // outside one, and all are closed at the end.
  predicate Balanced(ps: seq<Placed>, d: nat) {
    if ps == [] then d == 0
    else if Opens(ps[0]) then Balanced(ps[1..], d + 1)
    else if Separates(ps[0]) then d > 0 && Balanced(ps[1..], d)
    else if Closes(ps[0]) then d > 0 && Balanced(ps[1..], d - 1)
    else Balanced(ps[1..], d)
  }

  lemma StepDepth(ctx: Context, p: Placed, exec: seq<bool>, m: Machine)
    requires Step(ctx, p, exec, m).Next?
    ensures |Step(ctx, p, exec, m).exec| == |exec| + (if Opens(p) then 1 else if Closes(p) then -1 else 0)
    ensures Separates(p) || Closes(p) ==> exec != []
  {
    hide Execute, Charge, Fits, Truth;
  }

  lemma {:induction false} AcceptedIsBalanced(ctx: Context, ps: seq<Placed>, exec: seq<bool>, m: Machine)
    requires FlatRun(ctx, ps, exec, m).Ok?
    ensures Balanced(ps, |exec|)
  {
    hide Step;
    if ps != [] {
      StepDepth(ctx, ps[0], exec, m);
      var next := Step(ctx, ps[0], exec, m);
      AcceptedIsBalanced(ctx, ps[1..], next.exec, next.machine);
    }
  }

  // The block at the front, up to the OP_ELSE or OP_ENDIF that ends it
  lemma {:induction false} ReadBlock(ps: seq<Placed>, d: nat) returns (b: Block, rest: seq<Placed>)
    requires Balanced(ps, d)
    ensures Nested(b) && ps == Flat(b) + rest && Balanced(rest, d)
    ensures rest == [] || Separates(rest[0]) || Closes(rest[0])
    decreases |ps|, 0
  {
    hide Opens, Separates, Closes;
    if ps == [] || Separates(ps[0]) || Closes(ps[0]) {
      b, rest := Empty, ps;
      return;
    }
    var p, tail := ps[0], ps[1..];
    assert ps == [p] + tail;
    if Opens(p) {
      var arms, close, after := ReadArms(tail, d);
      var more;
      more, rest := ReadBlock(after, d);
      b := Conditional(p, arms, close, more);
      Reassociate(p, FlatArms(arms), close, Flat(more), rest);
    } else {
      var more;
      more, rest := ReadBlock(tail, d);
      b := Plain(p, more);
      assert [p] + (Flat(more) + rest) == [p] + Flat(more) + rest;
    }
  }

  lemma Reassociate(p: Placed, x: seq<Placed>, q: Placed, y: seq<Placed>, z: seq<Placed>)
    ensures [p] + (x + ([q] + (y + z))) == [p] + (x + ([q] + y)) + z
  {}

  lemma Distinct(p: Placed)
    ensures Separates(p) || Closes(p) ==> !Opens(p)
    ensures Closes(p) ==> !Separates(p)
  {}

  lemma {:induction false} ReadArms(ps: seq<Placed>, d: nat) returns (a: Arms, close: Placed, rest: seq<Placed>)
    requires Balanced(ps, d + 1)
    ensures NestedArms(a) && Closes(close) && ps == FlatArms(a) + ([close] + rest) && Balanced(rest, d)
    decreases |ps|, 1
  {
    hide Opens, Separates, Closes, Nested, Flat;
    var body, after := ReadBlock(ps, d + 1);
    var p, tail := after[0], after[1..];
    Distinct(p);
    assert after == [p] + tail;
    if Separates(p) {
      var more;
      more, close, rest := ReadArms(tail, d);
      a := Else(body, p, more);
      assert Flat(body) + ([p] + (FlatArms(more) + ([close] + rest))) == Flat(body) + ([p] + FlatArms(more)) + ([close] + rest);
    } else {
      a, close, rest := Last(body), p, tail;
    }
  }

  /** The conditionals of an accepted list nest, and it was run as its tree says. */
  lemma AcceptedNests(ctx: Context, ps: seq<Placed>, m: Machine) returns (b: Block)
    requires FlatRun(ctx, ps, [], m).Ok?
    ensures Nested(b) && Flat(b) == ps && Run(ctx, b, m) == FlatRun(ctx, ps, [], m)
  {
    hide Run, FlatRun;
    AcceptedIsBalanced(ctx, ps, [], m);
    var rest;
    b, rest := ReadBlock(ps, 0);
    assert rest == [];
    assert Flat(b) + [] == Flat(b);
    FlatRefinesTree(ctx, b, m);
  }

  /** The interpreter accepts a script exactly if it can be read to its end and
      its instructions form a tree that runs to the end. */
  lemma AcceptsTrees(ctx: Context, s: seq<byte>, m: Machine)
    ensures Evaluate(ctx, s, [], m).Ok? <==>
      Readable(s) && exists b :: Nested(b) && Flat(b) == Listing(s) && Run(ctx, b, m).Ok?
    ensures forall b | Nested(b) && Flat(b) == Listing(s) :: Evaluate(ctx, s, [], m).Calls() == Run(ctx, b, m).Calls()
    ensures forall b | Nested(b) && Flat(b) == Listing(s) && Readable(s) :: Evaluate(ctx, s, [], m) == Run(ctx, b, m)
  {
    hide Run, FlatRun, Readable, Listing;
    forall b | Nested(b) && Flat(b) == Listing(s)
      ensures FlatRun(ctx, Listing(s), [], m) == Run(ctx, b, m)
    {
      FlatRefinesTree(ctx, b, m);
    }
    if Evaluate(ctx, s, [], m).Ok? {
      var b := AcceptedNests(ctx, Listing(s), m);
    }
  }
}
