/**
 Scripts as bytes: reading one instruction, appending data, and deleting a
 pattern.
 */
module ScriptBytes {
  import opened Basics

  const OP_PUSHDATA1: byte := 0x4c
  const OP_PUSHDATA2: byte := 0x4d
  const OP_PUSHDATA4: byte := 0x4e

  datatype Instr = Instr(opcode: byte, data: seq<byte>)

  datatype Read = Read(instr: Instr, next: nat)

  // --- reading

  // The little-endian number in the first n bytes
  function Little(s: seq<byte>, n: nat): nat
    requires n <= |s|
  {
    if n == 0 then 0 else s[0] + 256 * Little(s[1..], n - 1)
  }

  // How many length bytes follow the opcode
  function LengthBytes(opcode: byte): nat {
    if opcode == OP_PUSHDATA1 then 1 else if opcode == OP_PUSHDATA2 then 2 else if opcode == OP_PUSHDATA4 then 4 else 0
  }

  // GetOp2 at the start of s
  function ReadOp(s: seq<byte>): Option<Read> {
    if s == [] then None else
    var opcode := s[0];
    if opcode > OP_PUSHDATA4 then Some(Read(Instr(opcode, []), 1)) else
    var k := LengthBytes(opcode);
    if |s| - 1 < k then None else
    var size: nat := if k == 0 then opcode else Little(s[1..], k);
    if |s| - 1 - k < size then None else
    Some(Read(Instr(opcode, s[1 + k..1 + k + size]), 1 + k + size))
  }

  method GetOp(s: seq<byte>, pc: nat) returns (r: Option<Read>)
    requires pc <= |s|
    ensures r == match ReadOp(s[pc..])
      case None => None
      case Some(read) => Some(Read(read.instr, pc + read.next))
  {
    if pc >= |s| {
      return None;
    }
    var opcode := s[pc];
    var at := pc + 1;
    assert s[pc..][1..] == s[at..];
    var data: seq<byte> := [];
    if opcode <= OP_PUSHDATA4 {
      var size: nat := opcode;
      if opcode >= OP_PUSHDATA1 {
        var k := LengthBytes(opcode);
        if |s| - at < k {
          return None;
        }
        size := Little(s[at..], k);
        at := at + k;
      }
      if |s| - at < size {
        return None;
      }
      SliceOfTail(s, pc, at - pc, at - pc + size);
      data := s[at..at + size];
      at := at + size;
    }
    return Some(Read(Instr(opcode, data), at));
  }

  lemma SliceOfTail(s: seq<byte>, pc: nat, a: nat, b: nat)
    requires a <= b && pc + b <= |s|
    ensures s[pc..][a..b] == s[pc + a..pc + b]
  {}

  // --- writing

  // The n little-endian bytes of x
  function Bytes(x: nat, n: nat): (r: seq<byte>)
    ensures |r| == n
  {
    if n == 0 then [] else [x % 256] + Bytes(x / 256, n - 1)
  }

  function Power(n: nat): nat {
    if n == 0 then 1 else 256 * Power(n - 1)
  }

  lemma {:induction false} LittleBytes(x: nat, n: nat, rest: seq<byte>)
    requires x < Power(n)
    ensures Little(Bytes(x, n) + rest, n) == x
  {
    if n > 0 {
      LittleBytes(x / 256, n - 1, rest);
      assert (Bytes(x, n) + rest)[1..] == Bytes(x / 256, n - 1) + rest;
    }
  }

  lemma LowByte(c: byte, rest: nat)
    ensures (c + 256 * rest) % 256 == c && (c + 256 * rest) / 256 == rest
  {}

  lemma {:induction false} BytesLittle(s: seq<byte>, n: nat)
    requires n <= |s|
    ensures Bytes(Little(s, n), n) == s[..n] && Little(s, n) < Power(n)
  {
    if n > 0 {
      BytesLittle(s[1..], n - 1);
      LowByte(s[0], Little(s[1..], n - 1));
      assert s[..n] == [s[0]] + s[1..][..n - 1];
    }
  }

  // operator<< for data: the shortest of the four forms that holds the length.
  // The length is stored in at most 32 bits.
  function Push(data: seq<byte>): seq<byte> {
    if |data| < OP_PUSHDATA1 then [|data|] + data
    else if |data| <= 0xff then [OP_PUSHDATA1, |data|] + data
    else if |data| <= 0xffff then [OP_PUSHDATA2] + Bytes(|data|, 2) + data
    else [OP_PUSHDATA4] + Bytes(|data| % 0x1_0000_0000, 4) + data
  }

  // An instruction as it stands in a script
  predicate Encodable(i: Instr) {
    if i.opcode < OP_PUSHDATA1 then |i.data| == i.opcode
    else if i.opcode <= OP_PUSHDATA4 then |i.data| < Power(LengthBytes(i.opcode))
    else i.data == []
  }

  function Print(i: Instr): seq<byte> {
    [i.opcode] + Bytes(|i.data|, LengthBytes(i.opcode)) + i.data
  }

  /** Every instruction reads back from its bytes, whatever follows. */
  lemma ReadPrinted(i: Instr, rest: seq<byte>)
    requires Encodable(i)
    ensures ReadOp(Print(i) + rest) == Some(Read(i, |Print(i)|))
  {
    hide Bytes, Little;
    var s := Print(i) + rest;
    var k := LengthBytes(i.opcode);
    Layout(i.opcode, Bytes(|i.data|, k), i.data, rest);
    if 0 < k {
      LittleBytes(|i.data|, k, i.data + rest);
    }
  }

  lemma Layout(opcode: byte, size: seq<byte>, data: seq<byte>, rest: seq<byte>)
    ensures var s := [opcode] + size + data + rest;
      && s[1..] == size + (data + rest)
      && s[1 + |size|..1 + |size| + |data|] == data
  {}

  /** What was read prints as the bytes it was read from. */
  lemma PrintRead(s: seq<byte>)
    requires ReadOp(s).Some?
    ensures var r := ReadOp(s).value;
      r.next <= |s| && Encodable(r.instr) && Print(r.instr) == s[..r.next]
  {
    var r := ReadOp(s).value;
    var k := LengthBytes(s[0]);
    if s[0] <= OP_PUSHDATA4 && k > 0 {
      BytesLittle(s[1..], k);
      assert s[..r.next] == [s[0]] + s[1..][..k] + s[1 + k..r.next];
    }
  }

  /** Appended data reads back as that data exactly if its length is below 2^32:
      beyond, the stored length wraps and only a part is read. */
  lemma PushReads(data: seq<byte>, rest: seq<byte>)
    ensures ReadOp(Push(data) + rest).Some?
    ensures ReadOp(Push(data) + rest).value.instr.data == data <==> |data| < 0x1_0000_0000
    ensures |data| < 0x1_0000_0000 ==> ReadOp(Push(data) + rest).value.next == |Push(data)|
  {
    hide ReadOp, Push, Print;
    if |data| < 0x1_0000_0000 {
      PushIsPrint(data);
      ReadPrinted(Instr(PushOpcode(data), data), rest);
    } else {
      PushWraps(data);
      var n := |data| % 0x1_0000_0000;
      var i := Instr(OP_PUSHDATA4, data[..n]);
      ReadPrinted(i, data[n..] + rest);
      assert Push(data) + rest == Print(i) + (data[n..] + rest);
    }
  }

  // A length that does not fit: the first part reads as an instruction of its own.
  lemma PushWraps(data: seq<byte>)
    requires |data| >= 0x1_0000_0000
    ensures var n := |data| % 0x1_0000_0000;
      var i := Instr(OP_PUSHDATA4, data[..n]);
      n < |data| && Encodable(i) && Push(data) == Print(i) + data[n..]
  {
    hide Bytes;
    PowerValues();
    var n := |data| % 0x1_0000_0000;
    assert data == data[..n] + data[n..];
  }

  function PushOpcode(data: seq<byte>): byte {
    if |data| < OP_PUSHDATA1 then |data|
    else if |data| <= 0xff then OP_PUSHDATA1
    else if |data| <= 0xffff then OP_PUSHDATA2
    else OP_PUSHDATA4
  }

  lemma PushIsPrint(data: seq<byte>)
    requires |data| < 0x1_0000_0000
    ensures Encodable(Instr(PushOpcode(data), data)) && Push(data) == Print(Instr(PushOpcode(data), data))
  {
    hide Bytes, Power;
    PowerValues();
    FewBytes(|data|);
    assert [OP_PUSHDATA1] + [|data| % 256] == [OP_PUSHDATA1, |data| % 256];
    assert [PushOpcode(data)] + [] + data == [PushOpcode(data)] + data;
  }

  /** No instruction that pushes the data is shorter. */
  lemma PushIsShortest(i: Instr)
    requires Encodable(i) && i.opcode <= OP_PUSHDATA4
    ensures |Push(i.data)| <= |Print(i)|
  {
    hide Bytes, Power;
    PowerValues();
  }

  lemma FewBytes(x: nat)
    ensures Bytes(x, 0) == [] && Bytes(x, 1) == [x % 256]
  {
    assert Bytes(x / 256, 0) == [];
  }

  lemma PowerValues()
    ensures Power(1) == 0x100 && Power(2) == 0x1_0000 && Power(4) == 0x1_0000_0000
  {
    assert Power(0) == 1;
    assert Power(3) == 256 * Power(2);
  }

  // --- whole scripts

  // The instructions up to the first place where none can be read
  datatype Parsed = Parsed(instrs: seq<Instr>, tail: seq<byte>)

  lemma ReadAdvances(s: seq<byte>)
    requires ReadOp(s).Some?
    ensures 0 < ReadOp(s).value.next <= |s|
  {}

  function Parse(s: seq<byte>): Parsed
    decreases |s|
  {
    match ReadOp(s)
    case None => Parsed([], s)
    case Some(r) =>
      ReadAdvances(s);
      var rest := Parse(s[r.next..]);
      Parsed([r.instr] + rest.instrs, rest.tail)
  }

  function PrintAll(instrs: seq<Instr>): seq<byte> {
    if instrs == [] then [] else Print(instrs[0]) + PrintAll(instrs[1..])
  }

  predicate AllEncodable(instrs: seq<Instr>) {
    forall i | 0 <= i < |instrs| :: Encodable(instrs[i])
  }

  lemma ParseStep(s: seq<byte>)
    requires ReadOp(s).Some?
    ensures var r := ReadOp(s).value;
      0 < r.next <= |s| && var rest := Parse(s[r.next..]);
      Parse(s) == Parsed([r.instr] + rest.instrs, rest.tail)
  {
    hide Little;
    ReadAdvances(s);
  }

  lemma PrintAllStep(i: Instr, instrs: seq<Instr>, tail: seq<byte>)
    ensures PrintAll([i] + instrs) + tail == Print(i) + (PrintAll(instrs) + tail)
  {
    hide Print;
    assert ([i] + instrs)[1..] == instrs;
  }

  /** Printing what was parsed gives the script back, malformed tail included. */
  lemma {:induction false} PrintParsed(s: seq<byte>)
    ensures var p := Parse(s);
      PrintAll(p.instrs) + p.tail == s && AllEncodable(p.instrs) && ReadOp(p.tail).None?
    decreases |s|
  {
    hide ReadOp, Print, PrintAll, Encodable, Parse;
    if ReadOp(s).Some? {
      var r := ReadOp(s).value;
      ParseStep(s);
      PrintRead(s);
      PrintParsed(s[r.next..]);
      var rest := Parse(s[r.next..]);
      PrintAllStep(r.instr, rest.instrs, rest.tail);
      assert s == s[..r.next] + s[r.next..];
    } else {
      ParseNothing(s);
    }
  }

  lemma ParseNothing(s: seq<byte>)
    requires ReadOp(s).None?
    ensures Parse(s) == Parsed([], s) && PrintAll([]) + s == s
  {
    hide ReadOp, Print;
    assert PrintAll([]) == [];
  }

  /** Parsing what was printed gives the instructions back, up to a malformed tail. */
  lemma {:induction false} ParsePrinted(instrs: seq<Instr>, tail: seq<byte>)
    requires AllEncodable(instrs) && ReadOp(tail).None?
    ensures Parse(PrintAll(instrs) + tail) == Parsed(instrs, tail)
  {
    hide ReadOp, Print, PrintAll, Parse, Encodable;
    if instrs == [] {
      ParseNothing(tail);
    } else {
      var i, more := instrs[0], instrs[1..];
      var rest := PrintAll(more) + tail;
      assert instrs == [i] + more;
      PrintAllStep(i, more, tail);
      ReadPrinted(i, rest);
      ParseStep(Print(i) + rest);
      assert (Print(i) + rest)[|Print(i)|..] == rest;
      ParsePrinted(more, tail);
    }
  }

  // --- deleting a pattern

  predicate StartsWith(s: seq<byte>, b: seq<byte>) {
    |s| >= |b| && s[..|b|] == b
  }

  // What FindAndDelete leaves of s
  function Deleted(s: seq<byte>, b: seq<byte>): seq<byte>
    decreases |s|
  {
    if b != [] && StartsWith(s, b) then Deleted(s[|b|..], b)
    else match ReadOp(s)
      case None => s
      case Some(r) => ReadAdvances(s); s[..r.next] + Deleted(s[r.next..], b)
  }

  class CScript {
    var bytes: seq<byte>

    constructor (bytes: seq<byte>)
      ensures this.bytes == bytes
    {
      this.bytes := bytes;
    }

    // operator<< for data
    method AppendData(data: seq<byte>)
      modifies this
      ensures bytes == old(bytes) + Push(data)
    {
      hide Bytes;
      var size: seq<byte>;
      if |data| < OP_PUSHDATA1 {
        size := [|data|];
      } else if |data| <= 0xff {
        size := [OP_PUSHDATA1, |data|];
      } else if |data| <= 0xffff {
        size := [OP_PUSHDATA2] + Bytes(|data|, 2);
      } else {
        size := [OP_PUSHDATA4] + Bytes(|data| % 0x1_0000_0000, 4);
      }
      bytes := bytes + size;
      bytes := bytes + data;
      assert bytes == old(bytes) + (size + data);
    }

    method FindAndDelete(b: seq<byte>) returns (found: nat)
      modifies this
      ensures bytes == if b == [] then old(bytes) else Deleted(old(bytes), b)
      ensures |bytes| + found * |b| == |old(bytes)|
    {
      hide Deleted, ReadOp;
      found := 0;
      if b == [] {
        return;
      }
      var pc: nat := 0;
      assert Pending(bytes, pc, b) == Deleted(bytes, b);
      while true
        invariant pc <= |bytes|
        invariant Pending(bytes, pc, b) == Deleted(old(bytes), b)
        invariant |bytes| + found * |b| == |old(bytes)|
        decreases |bytes| - pc
      {
        while |bytes| - pc >= |b| && bytes[pc..pc + |b|] == b
          invariant pc <= |bytes|
          invariant Pending(bytes, pc, b) == Deleted(old(bytes), b)
          invariant |bytes| + found * |b| == |old(bytes)|
          decreases |bytes|
        {
          Erase(bytes, pc, b);
          bytes := bytes[..pc] + bytes[pc + |b|..];
          found := found + 1;
        }
        assert !StartsWith(bytes[pc..], b) by {
          if StartsWith(bytes[pc..], b) {
            SliceOfTail(bytes, pc, 0, |b|);
          }
        }
        var r := GetOp(bytes, pc);
        if r.None? {
          Stop(bytes, pc, b);
          return;
        }
        Skip(bytes, pc, b);
        pc := r.value.next;
      }
    }
  }

  // What remains of s when the deletion has reached pc
  ghost function Pending(s: seq<byte>, pc: nat, b: seq<byte>): seq<byte>
    requires pc <= |s|
  {
    s[..pc] + Deleted(s[pc..], b)
  }

  lemma Erase(s: seq<byte>, pc: nat, b: seq<byte>)
    requires b != [] && pc + |b| <= |s| && s[pc..pc + |b|] == b
    ensures Pending(s[..pc] + s[pc + |b|..], pc, b) == Pending(s, pc, b)
  {
    hide ReadOp;
    SliceOfTail(s, pc, 0, |b|);
    assert s[pc..][|b|..] == s[pc + |b|..];
    var s' := s[..pc] + s[pc + |b|..];
    assert s'[pc..] == s[pc + |b|..] && s'[..pc] == s[..pc];
  }

  lemma DeletedSkips(s: seq<byte>, b: seq<byte>)
    requires !StartsWith(s, b) && ReadOp(s).Some?
    ensures var n := ReadOp(s).value.next;
      0 < n <= |s| && Deleted(s, b) == s[..n] + Deleted(s[n..], b)
  {
    hide Little;
    ReadAdvances(s);
  }

  lemma Stop(s: seq<byte>, pc: nat, b: seq<byte>)
    requires pc <= |s| && !StartsWith(s[pc..], b) && ReadOp(s[pc..]).None?
    ensures Pending(s, pc, b) == s
  {
    hide ReadOp;
    assert s[..pc] + s[pc..] == s;
  }

  lemma Skip(s: seq<byte>, pc: nat, b: seq<byte>)
    requires pc <= |s| && !StartsWith(s[pc..], b) && ReadOp(s[pc..]).Some?
    ensures var n := ReadOp(s[pc..]).value.next;
      0 < n && pc + n <= |s| && Pending(s, pc + n, b) == Pending(s, pc, b)
  {
    hide ReadOp, Deleted, StartsWith;
    DeletedSkips(s[pc..], b);
    var n := ReadOp(s[pc..]).value.next;
    SliceOfTail(s, pc, 0, n);
    assert s[pc..][n..] == s[pc + n..];
    Associates(s, pc, pc + n, Deleted(s[pc + n..], b));
  }

  lemma Associates(s: seq<byte>, a: nat, b: nat, rest: seq<byte>)
    requires a <= b <= |s|
    ensures s[..a] + (s[a..b] + rest) == s[..b] + rest
  {}

  // --- deleting a single instruction

  function Without(instrs: seq<Instr>, i: Instr): seq<Instr> {
    if instrs == [] then []
    else if instrs[0] == i then Without(instrs[1..], i)
    else [instrs[0]] + Without(instrs[1..], i)
  }

  // Where an instruction can be read, the script starts with the bytes of i
  // exactly if that instruction is i.
  lemma StartsWithInstr(s: seq<byte>, i: Instr)
    requires Encodable(i)
    ensures StartsWith(s, Print(i)) <==> ReadOp(s).Some? && ReadOp(s).value.instr == i
    ensures StartsWith(s, Print(i)) ==> ReadOp(s).value.next == |Print(i)|
  {
    if StartsWith(s, Print(i)) {
      assert s == Print(i) + s[|Print(i)|..];
      ReadPrinted(i, s[|Print(i)|..]);
    }
    if ReadOp(s).Some? && ReadOp(s).value.instr == i {
      PrintRead(s);
    }
  }

  lemma DeletedErases(s: seq<byte>, b: seq<byte>)
    requires b != [] && StartsWith(s, b)
    ensures Deleted(s, b) == Deleted(s[|b|..], b)
  {
    hide ReadOp;
  }

  lemma DeletedStops(s: seq<byte>, b: seq<byte>)
    requires !StartsWith(s, b) && ReadOp(s).None?
    ensures Deleted(s, b) == s
  {
    hide ReadOp;
  }

  lemma WithoutCons(first: Instr, instrs: seq<Instr>, i: Instr)
    ensures Without([first] + instrs, i) == if first == i then Without(instrs, i) else [first] + Without(instrs, i)
  {
    assert ([first] + instrs)[1..] == instrs;
  }

  lemma PrintNotEmpty(i: Instr)
    ensures Print(i) != [] && PrintAll([]) == []
  {}

  /** Deleting the bytes of one instruction is filtering the instruction list; a
      malformed tail stays as it is. */
  lemma {:induction false} DeletedIsFiltered(s: seq<byte>, i: Instr)
    requires Encodable(i)
    ensures Deleted(s, Print(i)) == PrintAll(Without(Parse(s).instrs, i)) + Parse(s).tail
    decreases |s|
  {
    hide ReadOp, Print, PrintAll, Parse, Encodable, Deleted, Without, StartsWith;
    StartsWithInstr(s, i);
    PrintNotEmpty(i);
    if ReadOp(s).None? {
      ParseNothing(s);
      DeletedStops(s, Print(i));
      WithoutNothing(i);
    } else {
      var r := ReadOp(s).value;
      ParseStep(s);
      PrintRead(s);
      var rest := Parse(s[r.next..]);
      DeletedIsFiltered(s[r.next..], i);
      WithoutCons(r.instr, rest.instrs, i);
      if r.instr == i {
        DeletedErases(s, Print(i));
      } else {
        DeletedSkips(s, Print(i));
        PrintAllStep(r.instr, Without(rest.instrs, i), rest.tail);
      }
    }
  }

  lemma WithoutNothing(i: Instr)
    ensures Without([], i) == []
  {}

  lemma {:induction false} WithoutTwice(instrs: seq<Instr>, i: Instr)
    ensures Without(Without(instrs, i), i) == Without(instrs, i)
    ensures AllEncodable(instrs) ==> AllEncodable(Without(instrs, i))
  {
    if instrs != [] {
      WithoutTwice(instrs[1..], i);
      if instrs[0] != i {
        assert ([instrs[0]] + Without(instrs[1..], i))[1..] == Without(instrs[1..], i);
      }
    }
  }

  /** A second deletion of the same instruction changes nothing. */
  lemma DeletedTwice(s: seq<byte>, i: Instr)
    requires Encodable(i)
    ensures Deleted(Deleted(s, Print(i)), Print(i)) == Deleted(s, Print(i))
  {
    var p := Parse(s);
    PrintParsed(s);
    WithoutTwice(p.instrs, i);
    DeletedIsFiltered(s, i);
    ParsePrinted(Without(p.instrs, i), p.tail);
    DeletedIsFiltered(Deleted(s, Print(i)), i);
  }
}
