/** Instructions and their bytes: what the encoders emit and what the interpreter's decoder reads. */
module Bytecode {
  import opened Bytes

  datatype Instr =
    | PushInstance(n: nat)
    | PushArgument(n: nat)
    | PushTemporary(n: nat)
    | PushLiteral(n: nat)
    | PushConstant(n: nat)
    | AssignInstance(n: nat)
    | AssignTemporary(n: nat)
    | MarkArguments(n: nat)
    | SendMessage(n: nat)
    | SendUnary(n: nat)
    | SendBinary(n: nat)
    | PushBlock(argLoc: nat, target: nat)
    | DoPrimitive(argCount: nat, number: nat)
    | SelfReturn
    | StackReturn
    | BlockReturn
    | Duplicate
    | PopTop
    | Branch(target: nat)
    | BranchIfTrue(target: nat)
    | BranchIfFalse(target: nat)
    | SendToSuper(n: nat)
    | Breakpoint

  const NIL_CONST := 10
  const TRUE_CONST := 11
  const FALSE_CONST := 12

  /** The opcode and the operand in the low half of the first byte (or in a byte of its own). */
  function HighLow(i: Instr): (nat, nat) {
    match i
    case PushInstance(n) => (1, n)
    case PushArgument(n) => (2, n)
    case PushTemporary(n) => (3, n)
    case PushLiteral(n) => (4, n)
    case PushConstant(n) => (5, n)
    case AssignInstance(n) => (6, n)
    case AssignTemporary(n) => (7, n)
    case MarkArguments(n) => (8, n)
    case SendMessage(n) => (9, n)
    case SendUnary(n) => (10, n)
    case SendBinary(n) => (11, n)
    case PushBlock(argLoc, _) => (12, argLoc)
    case DoPrimitive(argCount, _) => (13, argCount)
    case SelfReturn => (15, 1)
    case StackReturn => (15, 2)
    case BlockReturn => (15, 3)
    case Duplicate => (15, 4)
    case PopTop => (15, 5)
    case Branch(_) => (15, 6)
    case BranchIfTrue(_) => (15, 7)
    case BranchIfFalse(_) => (15, 8)
    case SendToSuper(_) => (15, 11)
    case Breakpoint => (15, 12)
  }

  /** A 16-bit code location, low byte first; a byte array keeps only the low 8 bits of what is stored. */
  function Location(v: nat): seq<byte> {
    [v % 256, v / 256 % 256]
  }

  /** Bytes that follow the opcode and its operand. */
  function Operands(i: Instr): seq<byte> {
    match i
    case PushBlock(_, target) => Location(target)
    case Branch(target) => Location(target)
    case BranchIfTrue(target) => Location(target)
    case BranchIfFalse(target) => Location(target)
    case DoPrimitive(_, number) => [number % 256]
    case SendToSuper(n) => [n % 256]
    case _ => []
  }

  /** genHigh:low: -- an operand of 16 or more takes a byte of its own, after the opcode as operand of opcode 0. */
  function OpBytes(high: nat, low: nat): seq<byte> {
    if low >= 16 then [high % 256, low % 256] else [(high * 16 + low) % 256]
  }

  function Encode(i: Instr): seq<byte> {
    OpBytes(HighLow(i).0, HighLow(i).1) + Operands(i)
  }

  /** Operands fit their bytes. */
  predicate Encodable(i: Instr) {
    && HighLow(i).1 < 256
    && match i
       case PushBlock(_, target) => target < 65536
       case Branch(target) => target < 65536
       case BranchIfTrue(target) => target < 65536
       case BranchIfFalse(target) => target < 65536
       case DoPrimitive(_, number) => number < 256
       case SendToSuper(n) => n < 256
       case _ => true
  }

  // ---- Decoding -------------------------------------------------------------------------------

  datatype Decoded = Decoded(instr: Instr, next: nat) | Invalid

  function ByteAt(code: seq<byte>, pos: nat): byte {
    if pos < |code| then code[pos] else 0
  }

  /** VAL */
  function Val(code: seq<byte>, pos: nat): nat {
    ByteAt(code, pos) + 256 * ByteAt(code, pos + 1)
  }

  /** The interpreter's decoder: split the byte, and once more when the high half is 0. */
  function Decode(code: seq<byte>, pos: nat): Decoded {
    var b := ByteAt(code, pos);
    if b / 16 == 0 then Dispatch(code, b % 16, ByteAt(code, pos + 1), pos + 2)
    else Dispatch(code, b / 16, b % 16, pos + 1)
  }

  function Dispatch(code: seq<byte>, high: nat, low: nat, p: nat): Decoded {
    match high
    case 1 => Decoded(PushInstance(low), p)
    case 2 => Decoded(PushArgument(low), p)
    case 3 => Decoded(PushTemporary(low), p)
    case 4 => Decoded(PushLiteral(low), p)
    case 5 => if low <= 12 then Decoded(PushConstant(low), p) else Invalid
    case 6 => Decoded(AssignInstance(low), p)
    case 7 => Decoded(AssignTemporary(low), p)
    case 8 => Decoded(MarkArguments(low), p)
    case 9 => Decoded(SendMessage(low), p)
    case 10 => if low <= 1 then Decoded(SendUnary(low), p) else Invalid
    case 11 => if low <= 2 then Decoded(SendBinary(low), p) else Invalid
    case 12 => Decoded(PushBlock(low, Val(code, p)), p + 2)
    case 13 => Decoded(DoPrimitive(low, ByteAt(code, p)), p + 1)
    case 15 => DispatchSpecial(code, low, p)
    case _ => Invalid
  }

  function DispatchSpecial(code: seq<byte>, low: nat, p: nat): Decoded {
    match low
    case 1 => Decoded(SelfReturn, p)
    case 2 => Decoded(StackReturn, p)
    case 3 => Decoded(BlockReturn, p)
    case 4 => Decoded(Duplicate, p)
    case 5 => Decoded(PopTop, p)
    case 6 => Decoded(Branch(Val(code, p)), p + 2)
    case 7 => Decoded(BranchIfTrue(Val(code, p)), p + 2)
    case 8 => Decoded(BranchIfFalse(Val(code, p)), p + 2)
    case 11 => Decoded(SendToSuper(ByteAt(code, p)), p + 1)
    case 12 => Decoded(Breakpoint, p)
    case _ => Invalid
  }

  /** Operands the interpreter accepts. */
  predicate Known(i: Instr) {
    match i
    case PushConstant(n) => n <= 12
    case SendUnary(n) => n <= 1
    case SendBinary(n) => n <= 2
    case _ => true
  }

  ghost predicate BytesAt(code: seq<byte>, pos: nat, bs: seq<byte>) {
    pos + |bs| <= |code| && code[pos..pos + |bs|] == bs
  }

  lemma BytesAtSplit(code: seq<byte>, pos: nat, a: seq<byte>, b: seq<byte>)
    ensures BytesAt(code, pos, a + b) <==> BytesAt(code, pos, a) && BytesAt(code, pos + |a|, b)
  {
    if BytesAt(code, pos, a + b) {
      assert code[pos..pos + |a|] == (a + b)[..|a|];
      assert code[pos + |a|..pos + |a| + |b|] == (a + b)[|a|..];
    }
    if BytesAt(code, pos, a) && BytesAt(code, pos + |a|, b) {
      assert code[pos..pos + |a + b|] == code[pos..pos + |a|] + code[pos + |a|..pos + |a| + |b|];
    }
  }

  lemma LocationVal(code: seq<byte>, p: nat, v: nat)
    requires BytesAt(code, p, Location(v)) && v < 65536
    ensures Val(code, p) == v
  {
    assert code[p] == Location(v)[0] && code[p + 1] == code[p..p + 2][1] == Location(v)[1];
  }

  lemma DecodeOp(code: seq<byte>, pos: nat, high: nat, low: nat)
    requires 0 < high < 16 && low < 256 && BytesAt(code, pos, OpBytes(high, low))
    ensures Decode(code, pos) == Dispatch(code, high, low, pos + |OpBytes(high, low)|)
  {
    hide Dispatch;
    var op := OpBytes(high, low);
    assert ByteAt(code, pos) == code[pos..pos + |op|][0] == op[0];
    if low >= 16 {
      assert ByteAt(code, pos + 1) == code[pos..pos + |op|][1] == op[1];
    }
  }

  lemma DispatchOp(code: seq<byte>, p: nat, i: Instr)
    requires Encodable(i) && Known(i) && BytesAt(code, p, Operands(i))
    ensures Dispatch(code, HighLow(i).0, HighLow(i).1, p) == Decoded(i, p + |Operands(i)|)
  {
    match i
    case PushBlock(_, target) => LocationVal(code, p, target);
    case Branch(target) => LocationVal(code, p, target);
    case BranchIfTrue(target) => LocationVal(code, p, target);
    case BranchIfFalse(target) => LocationVal(code, p, target);
    case DoPrimitive(_, number) => assert code[p..p + 1][0] == Operands(i)[0];
    case SendToSuper(n) => assert code[p..p + 1][0] == Operands(i)[0];
    case _ =>
  }

  /** An instruction is decoded as it was encoded, wherever it stands. */
  lemma DecodeEncode(code: seq<byte>, pos: nat, i: Instr)
    requires Encodable(i) && Known(i) && BytesAt(code, pos, Encode(i))
    ensures Decode(code, pos) == Decoded(i, pos + |Encode(i)|)
  {
    hide Decode, Dispatch, OpBytes, Operands, BytesAt;
    var (high, low) := HighLow(i);
    BytesAtSplit(code, pos, OpBytes(high, low), Operands(i));
    DecodeOp(code, pos, high, low);
    DispatchOp(code, pos + |OpBytes(high, low)|, i);
  }

  lemma EncodeSize(i: Instr)
    ensures 1 <= |Encode(i)| <= 4
  {}

  /** An operand up to 15 shares a byte with the opcode; a larger one takes the byte after it. */
  function Coded(opcode: nat, n: nat): seq<byte>
    requires opcode < 16 && n < 256
  {
    if n < 16 then [16 * opcode + n] else [opcode, n]
  }

  lemma {:induction false} OpCoded(n: nat)
    requires n < 256
    ensures forall opcode: nat {:trigger OpBytes(opcode, n)} | opcode < 16 :: OpBytes(opcode, n) == Coded(opcode, n)
  {}

  /** The bytes of each instruction with an operand. */
  lemma {:induction false} OperandBytes(n: nat, target: nat)
    requires n < 256 && target < 65536
    ensures Encode(PushInstance(n)) == Coded(1, n) && Encode(PushArgument(n)) == Coded(2, n)
    ensures Encode(PushTemporary(n)) == Coded(3, n) && Encode(PushLiteral(n)) == Coded(4, n)
    ensures Encode(PushConstant(n)) == Coded(5, n) && Encode(AssignInstance(n)) == Coded(6, n)
    ensures Encode(AssignTemporary(n)) == Coded(7, n) && Encode(MarkArguments(n)) == Coded(8, n)
    ensures Encode(SendMessage(n)) == Coded(9, n) && Encode(SendUnary(n)) == Coded(10, n)
    ensures Encode(SendBinary(n)) == Coded(11, n)
    ensures Encode(PushBlock(n, target)) == Coded(12, n) + [target % 256, target / 256]
    ensures forall number: byte :: Encode(DoPrimitive(n, number)) == Coded(13, n) + [number]
  {
    hide OpBytes, Coded, Location;
    OpCoded(n);
    LocationBytes(target);
  }

  /** Those of opcode 15. */
  lemma {:induction false} SpecialBytes(n: byte, target: nat)
    requires target < 65536
    ensures var location := [target % 256, target / 256];
            && Encode(SelfReturn) == [0xF1] && Encode(StackReturn) == [0xF2] && Encode(BlockReturn) == [0xF3]
            && Encode(Duplicate) == [0xF4] && Encode(PopTop) == [0xF5]
            && Encode(Branch(target)) == [0xF6] + location
            && Encode(BranchIfTrue(target)) == [0xF7] + location
            && Encode(BranchIfFalse(target)) == [0xF8] + location
            && Encode(SendToSuper(n)) == [0xFB, n] && Encode(Breakpoint) == [0xFC]
  {
    hide OpBytes, Coded, Location;
    Specials();
    LocationBytes(target);
  }

  lemma {:induction false} LocationBytes(target: nat)
    requires target < 65536
    ensures Location(target) == [target % 256, target / 256]
  {}

  lemma {:induction false} Specials()
    ensures forall low: nat {:trigger OpBytes(15, low)} | low < 16 :: OpBytes(15, low) == [0xF0 + low]
  {}

  /** A small operand after opcode 0 is taken as well, and these are no instructions. */
  lemma {:induction false} OtherBytes(code: seq<byte>, pos: nat)
    requires pos < |code|
    ensures var b, n := code[pos], if pos + 1 < |code| then code[pos + 1] else 0;
            && (b == 1 ==> Decode(code, pos) == Decoded(PushInstance(n), pos + 2))
            && (b == 2 ==> Decode(code, pos) == Decoded(PushArgument(n), pos + 2))
            && (b == 0 || b == 14 || (b == 5 && n > 12) || (b == 10 && n > 1) || (b == 11 && n > 2) ==> Decode(code, pos).Invalid?)
            && (0xE0 <= b < 0xF1 || b == 0xF9 || b == 0xFA || b > 0xFC || 0x5C < b < 0x60 || 0xA1 < b < 0xB0 || 0xB2 < b < 0xC0 ==>
                  Decode(code, pos).Invalid?)
  {}

  // ---- Streams --------------------------------------------------------------------------------

  function Assemble(code: seq<Instr>): seq<byte> {
    if code == [] then [] else Encode(code[0]) + Assemble(code[1..])
  }

  /** Instructions decoded one after the other, from pos up to end. */
  function Disassemble(code: seq<byte>, pos: nat, end: nat): seq<Instr>
    decreases if pos < end then end - pos else 0
  {
    if pos >= end then []
    else
      match Decode(code, pos)
      case Invalid => []
      case Decoded(i, next) => if next <= pos then [] else [i] + Disassemble(code, next, end)
  }

  lemma {:induction false} AssembleAppend(a: seq<Instr>, b: seq<Instr>)
    ensures Assemble(a + b) == Assemble(a) + Assemble(b)
  {
    hide Encode;
    if a == [] {
      assert a + b == b;
    } else {
      assert (a + b)[0] == a[0] && (a + b)[1..] == a[1..] + b;
      AssembleAppend(a[1..], b);
      assert Encode(a[0]) + (Assemble(a[1..]) + Assemble(b)) == (Encode(a[0]) + Assemble(a[1..])) + Assemble(b);
    }
  }

  ghost predicate AllEncodable(code: seq<Instr>) {
    forall i | i in code :: Encodable(i) && Known(i)
  }

  lemma DisassembleStep(bytes: seq<byte>, pos: nat, end: nat, i: Instr, next: nat)
    requires pos < end && Decode(bytes, pos) == Decoded(i, next) && pos < next
    ensures Disassemble(bytes, pos, end) == [i] + Disassemble(bytes, next, end)
  {
    hide Decode;
  }

  /** A stream of instructions decodes to exactly those instructions. */
  lemma {:induction false} DisassembleAssemble(bytes: seq<byte>, pos: nat, end: nat, code: seq<Instr>)
    requires AllEncodable(code) && BytesAt(bytes, pos, Assemble(code)) && end == pos + |Assemble(code)|
    ensures Disassemble(bytes, pos, end) == code
    decreases code
  {
    hide Encode, Decode, BytesAt;
    if code != [] {
      var i, rest := code[0], code[1..];
      EncodeSize(i);
      BytesAtSplit(bytes, pos, Encode(i), Assemble(rest));
      DecodeEncode(bytes, pos, i);
      hide Disassemble, Encodable, Known;
      DisassembleAssemble(bytes, pos + |Encode(i)|, end, rest);
      DisassembleStep(bytes, pos, end, i, pos + |Encode(i)|);
      assert code == [i] + rest;
    }
  }
}
