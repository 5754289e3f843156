/** The bootstrap's code buffer: a fixed array of bytes, jumps patched in place. */
module ByteBuffers {
  import opened Bytes
  import opened Bytecode
  import opened CodeGen
  import opened Streams

  const BYTE_BUFFER_TOP := 2048

  class ByteBuffer {
    var byteBuffer: array<byte>
    var byteTop: nat

    ghost predicate Valid()
      reads this
    {
      byteBuffer.Length == BYTE_BUFFER_TOP && byteTop < BYTE_BUFFER_TOP
    }

    ghost function Code(): seq<byte>
      requires Valid()
      reads this, byteBuffer
    {
      byteBuffer[..byteTop]
    }

    constructor ()
      ensures Valid() && Code() == [] && fresh(byteBuffer) && byteBuffer.Length == 2048
    {
      byteBuffer := new byte[BYTE_BUFFER_TOP];
      byteTop := 0;
    }

    /** The buffer has room for n more bytes: genByte complains when the last one is taken. */
    ghost predicate Room(n: nat)
      reads this
    {
      byteTop + n < BYTE_BUFFER_TOP
    }

    method GenByte(v: nat)
      requires Valid() && Room(1)
      modifies `byteTop, byteBuffer
      ensures Valid() && Code() == old(Code()) + [v % 256]
    {
      byteBuffer[byteTop] := v % 256;
      byteTop := byteTop + 1;
      assert byteBuffer[..byteTop] == byteBuffer[..byteTop - 1] + [v % 256];
    }

    /** False is its complaint about a value of more than 16 bits. */
    method GenVal(v: int) returns (ok: bool)
      requires Valid() && Room(2)
      modifies `byteTop, byteBuffer
      ensures Valid() && ok == (0 <= v <= 0xFFFF)
      ensures Code() == if ok then old(Code()) + Location(v) else old(Code())
    {
      if v < 0 || v > 0xFFFF { return false; }
      GenByte(v % 256);
      GenByte(v / 256);
      return true;
    }

    method GenValPos(pos: nat, v: int) returns (ok: bool)
      requires Valid() && pos + 1 < byteTop
      modifies byteBuffer
      ensures Valid() && ok == (0 <= v <= 0xFFFF)
      ensures Code() == if ok then old(Code()[..pos] + Location(v) + Code()[pos + 2..]) else old(Code())
    {
      if v < 0 || v > 0xFFFF { return false; }
      byteBuffer[pos] := v % 256;
      byteBuffer[pos + 1] := v / 256;
      return true;
    }

    method GenInstruction(a: nat, b: nat)
      requires Valid() && a < 16 && Room(2)
      modifies `byteTop, byteBuffer
      ensures Valid() && Code() == old(Code()) + OpBytes(a, b)
    {
      if b < 16 {
        GenByte(a * 16 + b);
      } else {
        GenInstruction(0, a);
        GenByte(b);
      }
    }

    /** An instruction with its operands. */
    method Emit(i: Instr)
      requires Valid() && Encodable(i) && Room(4)
      modifies `byteTop, byteBuffer
      ensures Valid() && Code() == old(Code()) + Encode(i)
    {
      GenInstruction(HighLow(i).0, HighLow(i).1);
      match i {
        case PushBlock(_, target) => var _ := GenVal(target);
        case Branch(target) => var _ := GenVal(target);
        case BranchIfTrue(target) => var _ := GenVal(target);
        case BranchIfFalse(target) => var _ := GenVal(target);
        case DoPrimitive(_, number) => GenByte(number);
        case SendToSuper(n) => GenByte(n);
        case _ =>
      }
    }

    /** Any instructions that can be encoded: the bytes decode to exactly these. */
    method EmitAll(code: seq<Instr>)
      requires Valid() && AllEncodable(code) && Room(4 * |code|)
      modifies `byteTop, byteBuffer
      ensures Valid() && Code() == old(Code()) + Assemble(code)
      ensures Disassemble(Code(), old(byteTop), byteTop) == code
      ensures byteTop <= old(byteTop) + 4 * |code|
    {
      hide Encode, Assemble, Disassemble;
      ghost var c := Code();
      var i := 0;
      NoCode();
      assert c + [] == c && code[..0] == [];
      while i < |code|
        invariant i <= |code| && Valid() && byteTop <= old(byteTop) + 4 * i && byteBuffer == old(byteBuffer)
        invariant Code() == c + Assemble(code[..i])
      {
        assert code[i] in code;
        EncodeSize(code[i]);
        Emit(code[i]);
        assert code[..i + 1] == code[..i] + [code[i]];
        AssembleAppend(code[..i], [code[i]]);
        AssembleOne(code[i]);
        i := i + 1;
      }
      assert code[..i] == code;
      assert Code()[|c|..|c| + |Assemble(code)|] == Assemble(code);
      DisassembleAssemble(Code(), old(byteTop), byteTop, code);
    }

    /** A jump with no location yet; the answer is where that will go. */
    method EmitOpen(i: Instr) returns (saved: nat)
      requires Valid() && Jump(i) && HighLow(i).1 < 256 && Room(4)
      modifies `byteTop, byteBuffer
      ensures Valid() && Code() == old(Code()) + Opened(i) && saved + 2 == byteTop
    {
      GenInstruction(HighLow(i).0, HighLow(i).1);
      saved := byteTop;
      var _ := GenVal(0);
    }

    /** The jump at `saved` gets the location reached. */
    method PatchHere(saved: nat)
      requires Valid() && saved + 1 < byteTop
      modifies byteBuffer
      ensures Valid() && Code() == PatchBytes(old(Code()), saved + 1)
    {
      var _ := GenValPos(saved, byteTop);
    }

    /** parseBlock, its statements being given as their code. */
    method GenBlock(tempTop: nat, body: seq<Instr>)
      requires Valid() && tempTop < 256 && AllEncodable(body) && Room(4 * |body| + 8)
      modifies `byteTop, byteBuffer
      ensures Valid()
      ensures var at := |old(Code())|;
              var entry := at + Len([PushBlock(tempTop, 0)]);
              Code() == old(Code()) + Assemble([PushBlock(tempTop, entry + Len(body) + 1)] + body + [StackReturn])
    {
      hide Encode, Assemble, Opened, PatchBytes;
      ghost var c := Code();
      BlockBytes(c, tempTop, body);
      OpenedSize(PushBlock(tempTop, 0));
      EncodeSize(PushBlock(tempTop, 0));
      var saved := EmitOpen(PushBlock(tempTop, 0));
      EmitAll(body);
      Emit(StackReturn);
      PatchHere(saved);
    }

    /** The first half of controlFlow: the jump over a block, the block, the jump at its end still open, and the
        first jump patched to come after it. The answer is where the open jump's location goes. */
    method Guard(skipOn: bool, block: seq<Instr>) returns (saved: nat)
      requires Valid() && AllEncodable(block) && Room(4 * |block| + 8)
      modifies `byteTop, byteBuffer
      ensures Valid() && saved + 2 == byteTop && byteTop <= old(byteTop) + 4 * |block| + 6
      ensures var c1 := old(Code()) + Opened(BranchOn(skipOn, 0));
              Code() == PatchBytes(c1 + Assemble(block) + Opened(Branch(0)), |c1| - 1)
    {
      hide Encode, Assemble, Opened, PatchBytes, Location;
      OpenedThree(BranchOn(skipOn, 0));
      OpenedThree(Branch(0));
      var save1 := EmitOpen(BranchOn(skipOn, 0));
      EmitAll(block);
      saved := EmitOpen(Branch(0));
      PatchHere(save1);
      PatchSize(old(Code()) + Opened(BranchOn(skipOn, 0)) + Assemble(block) + Opened(Branch(0)), save1 + 1);
    }

    /** controlFlow, the two blocks being given as their code: the jump over the first is patched to the
        second, and the one at its end past it. */
    method ControlFlow(skipOn: bool, block: seq<Instr>, other: seq<Instr>)
      requires Valid() && AllEncodable(block) && AllEncodable(other) && Room(4 * |block| + 4 * |other| + 8)
      modifies `byteTop, byteBuffer
      ensures Valid()
      ensures var there := |old(Code())| + 3 + Len(block) + 3;
              Code() == old(Code()) + Assemble([BranchOn(skipOn, there)] + block + [Branch(there + Len(other))] + other)
    {
      hide Encode, Assemble, Opened, PatchBytes, Location;
      GuardBytes(Code(), skipOn, block, other);
      var saved := Guard(skipOn, block);
      EmitAll(other);
      PatchHere(saved);
    }

    /** optimizeLoop up to its result: the condition, the jump out, the body, the jump back, and the jump out
        patched to come after it. */
    method LoopOpen(skipOn: bool, condition: seq<Instr>, body: seq<Instr>)
      requires Valid() && AllEncodable(condition) && AllEncodable(body) && Room(4 * |condition| + 4 * |body| + 16)
      modifies `byteTop, byteBuffer
      ensures Valid() && byteTop <= old(byteTop) + 4 * |condition| + 4 * |body| + 11
      ensures var c2 := old(Code()) + Assemble(condition) + Opened(BranchOn(skipOn, 0));
              Code() == PatchBytes(c2 + Assemble(body) + Encode(PopTop) + Encode(Branch(old(byteTop))), |c2| - 1)
    {
      hide Encode, Assemble, Opened, PatchBytes, Location;
      var start := byteTop;
      OpenedThree(BranchOn(skipOn, 0));
      EmitAll(condition);
      var saved := EmitOpen(BranchOn(skipOn, 0));
      EmitAll(body);
      EmitBack(start);
      PatchSize(Code(), saved + 1);
      PatchHere(saved);
    }

    /** The end of a loop's body: its value goes, and so does control. */
    method EmitBack(start: nat)
      requires Valid() && start < BYTE_BUFFER_TOP && Room(8)
      modifies `byteTop, byteBuffer
      ensures Valid() && Code() == old(Code()) + Encode(PopTop) + Encode(Branch(start)) && byteTop == old(byteTop) + 4
    {
      hide Encode;
      BackSize(start);
      Emit(PopTop);
      Emit(Branch(start));
    }

    /** optimizeLoop, condition and body being given as their code: out on skipOn, else back to the condition. The
        value it leaves is the integer 0, where the image's own compiler leaves nil. */
    method OptimizeLoop(skipOn: bool, condition: seq<Instr>, body: seq<Instr>)
      requires Valid() && AllEncodable(condition) && AllEncodable(body) && Room(4 * |condition| + 4 * |body| + 16)
      modifies `byteTop, byteBuffer
      ensures Valid()
      ensures var start := |old(Code())|;
              var exit := start + Len(condition) + 3 + Len(body) + 4;
              Code() == old(Code())
                + Assemble(condition + [BranchOn(skipOn, exit)] + body + [PopTop, Branch(start)] + [PushConstant(0)])
    {
      hide Encode, Assemble, Opened, PatchBytes, Location;
      WhileBytes(Code(), skipOn, condition, body, 0);
      LoopOpen(skipOn, condition, body);
      Emit(PushConstant(0));
    }
  }

  lemma {:induction false} NoCode()
    ensures Assemble([]) == []
  {}

  lemma {:induction false} OpenedSize(i: Instr)
    requires Jump(i)
    ensures |Opened(i)| <= 4
  {}

  lemma {:induction false} OpenedThree(i: Instr)
    requires Jump(i) && HighLow(i).1 < 16
    ensures |Opened(i)| == 3
  {}

  lemma {:induction false} BackSize(start: nat)
    ensures |Encode(PopTop)| == 1 && |Encode(Branch(start))| == 3
  {}
}
