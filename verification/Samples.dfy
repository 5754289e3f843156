/** A few small methods and the bytes the compiler makes of them. */
module Samples {
  import opened Bytes
  import opened Bytecode
  import opened Syntax
  import opened Values
  import opened CodeGen

  const THIS := Node.Argument(1)

  /** run  ^ self start value */
  const RUN_SOURCE := [Return(Message(Message(THIS, "start", []), "value", []))]
  const RUN: seq<byte> := [32, 129, 144, 129, 145, 242, 245, 241]

  /** start  ^ self make; yourself */
  const START_SOURCE := [Return(Cascade(Message(THIS, "make", []), [Message(Top, "yourself", [])]))]
  const START: seq<byte> := [32, 129, 144, 244, 129, 145, 245, 242, 245, 241]

  /** make  ^ [ ^ true ] */
  const MAKE_SOURCE := [Return(Block(0, [Return(Literal(True))]))]
  const MAKE: seq<byte> := [192, 6, 0, 91, 243, 242, 242, 245, 241]

  /** yourself  ^ self */
  const YOURSELF_SOURCE := [Return(THIS)]
  const YOURSELF: seq<byte> := [32, 242, 245, 241]

  /** value  <8 self> */
  const VALUE_SOURCE := [Primitive(8, [THIS])]
  const VALUE: seq<byte> := [32, 209, 8, 245, 241]

  /** fails  <99 5>. ^ self */
  const FAILS_SOURCE := [Primitive(99, [Literal(SmallInt(5))]), Return(THIS)]
  const FAILS: seq<byte> := [85, 209, 99, 245, 32, 242, 245, 241]

  /** probe: aBlock | t |  <8 7 aBlock>. ^ t */
  const PROBE_SOURCE := [Primitive(8, [Literal(SmallInt(7)), Node.Argument(2)]), Return(Temporary(1))]
  const PROBE: seq<byte> := [87, 33, 210, 8, 245, 48, 242, 245, 241]

  /** flush  self isNil. <34> */
  const FLUSH_SOURCE := [Message(THIS, "isNil", []), Primitive(34, [])]
  const FLUSH: seq<byte> := [32, 160, 245, 208, 34, 245, 241]

  /** What the compiler gives for a method. */
  ghost predicate Compiles(stmts: seq<Node>, code: seq<byte>, lits: seq<Value>) {
    var g := GenBody(stmts, 0, []);
    Assemble(g.code) == code && g.lits == lits
  }

  lemma {:induction false} AssembleFirst(i: Instr, code: seq<Instr>)
    ensures Assemble([i] + code) == Encode(i) + Assemble(code)
  {
    assert ([i] + code)[1..] == code;
    hide Encode;
  }

  lemma {:induction false} AssembleTwo(i: Instr, j: Instr, code: seq<Instr>)
    ensures Assemble([i, j] + code) == Encode(i) + Encode(j) + Assemble(code)
  {
    assert [i, j] + code == [i] + ([j] + code);
    AssembleFirst(i, [j] + code);
    AssembleFirst(j, code);
    hide Encode;
  }

  lemma {:induction false} AssembleThree(i: Instr, j: Instr, l: Instr, code: seq<Instr>)
    ensures Assemble([i, j, l] + code) == Encode(i) + Encode(j) + Encode(l) + Assemble(code)
  {
    assert [i, j, l] + code == [i, j] + ([l] + code);
    AssembleTwo(i, j, [l] + code);
    AssembleFirst(l, code);
    hide Encode;
  }

  // ---- Statements ------------------------------------------------------------------------------------

  /** One statement, then the others. */
  lemma {:induction false} BodyOf(n: Node, rest: seq<Node>, at: nat, lits: seq<Value>)
    ensures var g := GenNode(n, false, at, lits);
            var t := GenBody(rest, at + Len(g.code) + 1, g.lits);
            GenBody([n] + rest, at, lits) == Gen(g.code + [PopTop] + t.code, t.lits, g.sites + t.sites)
  {
    assert ([n] + rest)[1..] == rest;
    hide GenNode, Len;
  }

  /** The last statement answers something. */
  lemma {:induction false} AnswerBody(e: Node, at: nat, lits: seq<Value>)
    ensures var g := GenNode(e, false, at, lits); GenBody([Return(e)], at, lits) == Gen(g.code + END, g.lits, g.sites)
  {
    var g := GenNode(e, false, at, lits);
    ReturnCode(e, at, lits);
    BodyOf(Return(e), [], at, lits);
    assert [Return(e)] + [] == [Return(e)] && g.code + [StackReturn] + [PopTop] + [SelfReturn] == g.code + END;
    hide GenNode, Len;
  }

  lemma {:induction false} ReturnCode(e: Node, at: nat, lits: seq<Value>)
    ensures var g := GenNode(e, false, at, lits); GenNode(Return(e), false, at, lits) == Gen(g.code + [StackReturn], g.lits, g.sites)
  {}

  const END := [StackReturn, PopTop, SelfReturn]

  lemma {:induction false} EndBytes()
    ensures Assemble(END) == [242, 245, 241] && Assemble([PopTop, SelfReturn]) == [245, 241]
  {
    assert END == [StackReturn] + [PopTop, SelfReturn] && [PopTop, SelfReturn] == [PopTop, SelfReturn] + [];
    AssembleFirst(StackReturn, [PopTop, SelfReturn]);
    AssembleTwo(PopTop, SelfReturn, []);
  }

  lemma {:induction false} Encodings()
    ensures Encode(PushArgument(0)) == [32] && Encode(MarkArguments(1)) == [129] && Encode(SendMessage(0)) == [144] && Encode(SendMessage(1)) == [145]
  {}

  lemma {:induction false} PushEncodings()
    ensures Encode(PushArgument(1)) == [33] && Encode(PushTemporary(0)) == [48]
    ensures Encode(PushConstant(5)) == [85] && Encode(PushConstant(7)) == [87] && Encode(PushConstant(TRUE_CONST)) == [91]
  {}

  lemma {:induction false} SpecialEncodings()
    ensures Encode(Duplicate) == [244] && Encode(PopTop) == [245] && Encode(BlockReturn) == [243] && Encode(StackReturn) == [242]
    ensures Encode(SendUnary(0)) == [160]
  {}

  lemma {:induction false} LongEncodings()
    ensures Encode(PushBlock(0, 6)) == [192, 6, 0] && Encode(DoPrimitive(1, 8)) == [209, 8] && Encode(DoPrimitive(1, 99)) == [209, 99]
    ensures Encode(DoPrimitive(2, 8)) == [210, 8] && Encode(DoPrimitive(0, 34)) == [208, 34]
  {}

  // ---- Messages --------------------------------------------------------------------------------------

  lemma {:induction false} SendCode(name: string, at: nat, lits: seq<Value>)
    requires name !in BINARY_NAMES && Symbol(name) !in lits
    ensures GenMessage([], name, false, at, lits) == GenSend([], name, false, false, at, lits)
    ensures GenSend([], name, false, false, at, lits) == Gen([MarkArguments(1), SendMessage(|lits|)], lits + [Symbol(name)], [])
  {}

  const TO_SELF := [PushArgument(0), MarkArguments(1), SendMessage(0)]

  lemma {:induction false} ToSelf(name: string)
    requires name !in BINARY_NAMES && name != "isNil" && name != "notNil"
    ensures GenNode(Message(THIS, name, []), false, 0, []) == Gen(TO_SELF, [Symbol(name)], [])
  {
    SendCode(name, Len([PushArgument(0)]), []);
    hide GenMessage, GenSend, Len;
  }

  lemma {:induction false} ThenSend(r: Node, name: string)
    requires r.Message? && name != "isNil" && name != "notNil" && name != "whileTrue:"
    ensures var g := GenNode(r, false, 0, []);
            var rest := GenMessage([], name, false, Len(g.code), g.lits);
            GenNode(Message(r, name, []), false, 0, []) == Gen(g.code + rest.code, rest.lits, g.sites + rest.sites)
  {
    hide GenMessage, Len;
  }

  // ---- run and start ---------------------------------------------------------------------------------

  lemma {:induction false} RunBody()
    ensures GenBody(RUN_SOURCE, 0, []) == Gen(TO_SELF + [MarkArguments(1), SendMessage(1)] + END, [Symbol("start"), Symbol("value")], [])
  {
    hide GenMessage, GenSend, Len, GenNode, GenBody;
    var first := Message(THIS, "start", []);
    AnswerBody(Message(first, "value", []), 0, []);
    ThenSend(first, "value");
    ToSelf("start");
    SendCode("value", Len(TO_SELF), [Symbol("start")]);
  }

  lemma {:induction false} RunCompiled()
    ensures Compiles(RUN_SOURCE, RUN, [Symbol("start"), Symbol("value")])
  {
    RunBody();
    EndBytes();
    Encodings();
    hide Assemble, Encode, GenBody;
    var second := [MarkArguments(1), SendMessage(1)];
    AssembleThree(PushArgument(0), MarkArguments(1), SendMessage(0), second + END);
    AssembleTwo(MarkArguments(1), SendMessage(1), END);
    Regroup(TO_SELF, second, END, []);
  }

  const YOURSELF_SENT := [Duplicate, MarkArguments(1), SendMessage(1)]

  lemma {:induction false} CascadeCode(at: nat)
    ensures GenCascade([Message(Top, "yourself", [])], false, at, [Symbol("make")]) ==
            Gen(YOURSELF_SENT + [PopTop], [Symbol("make"), Symbol("yourself")], [])
  {
    SendCode("yourself", at + 1, [Symbol("make")]);
    assert [Message(Top, "yourself", [])][1..] == [];
    hide GenSend, Len;
    assert [Duplicate] + [MarkArguments(1), SendMessage(1)] + [PopTop] + [] == YOURSELF_SENT + [PopTop];
  }

  lemma {:induction false} HeadFirst(h: Node, l: seq<Node>)
    ensures var g := GenNode(h, false, 0, []);
            var rest := GenCascade(l, false, Len(g.code), g.lits);
            GenNode(Cascade(h, l), false, 0, []) == Gen(g.code + rest.code, rest.lits, g.sites + rest.sites)
  {
    hide GenCascade, Len;
  }

  lemma {:induction false} Regroup(a: seq<Instr>, b: seq<Instr>, c: seq<Instr>, d: seq<Instr>)
    ensures a + (b + c) + d == a + b + (c + d)
    ensures a + b + c == a + (b + c)
  {}

  lemma {:induction false} StartBody()
    ensures GenBody(START_SOURCE, 0, []) == Gen(TO_SELF + YOURSELF_SENT + ([PopTop] + END), [Symbol("make"), Symbol("yourself")], [])
  {
    var h, l := Message(THIS, "make", []), [Message(Top, "yourself", [])];
    AnswerBody(Cascade(h, l), 0, []);
    HeadFirst(h, l);
    ToSelf("make");
    CascadeCode(Len(TO_SELF));
    hide GenCascade, Len, GenNode, GenBody;
    Regroup(TO_SELF, YOURSELF_SENT, [PopTop], END);
  }

  lemma {:induction false} StartCompiled()
    ensures Compiles(START_SOURCE, START, [Symbol("make"), Symbol("yourself")])
  {
    StartBody();
    EndBytes();
    Encodings();
    hide Assemble, Encode, GenBody;
    var last := [PopTop] + END;
    AssembleThree(PushArgument(0), MarkArguments(1), SendMessage(0), YOURSELF_SENT + last);
    AssembleThree(Duplicate, MarkArguments(1), SendMessage(1), last);
    SpecialEncodings();
    AssembleFirst(PopTop, END);
    Regroup(TO_SELF, YOURSELF_SENT, last, []);
  }

  // ---- make, value, yourself -------------------------------------------------------------------------

  lemma {:induction false} BlockSize()
    ensures Len([PushBlock(0, 0)]) == 3 && Len([PushConstant(TRUE_CONST)] + [BlockReturn]) == 2
  {
    AssembleFirst(PushBlock(0, 0), []);
    assert [PushBlock(0, 0)] + [] == [PushBlock(0, 0)] && [BlockReturn] + [] == [BlockReturn];
    AssembleFirst(PushConstant(TRUE_CONST), [BlockReturn]);
    AssembleFirst(BlockReturn, []);
  }

  const INSIDE := [PushConstant(TRUE_CONST)] + [BlockReturn]

  lemma {:induction false} InsideCode()
    ensures GenInline([Return(Literal(True))], true, 3, []) == Gen(INSIDE, [], [])
  {
    hide GenInline, GenNode;
    InlineOne(Return(Literal(True)), 3, []);
    BlockAnswerCode(Literal(True), 3, []);
    TrueCode(3, []);
  }

  lemma {:induction false} InlineOne(n: Node, at: nat, lits: seq<Value>)
    ensures GenInline([n], true, at, lits) == GenNode(n, true, at, lits)
  {
    hide GenNode;
  }

  lemma {:induction false} BlockAnswerCode(e: Node, at: nat, lits: seq<Value>)
    ensures var g := GenNode(e, true, at, lits); GenNode(Return(e), true, at, lits) == Gen(g.code + [BlockReturn], g.lits, g.sites)
  {}

  lemma {:induction false} TrueCode(at: nat, lits: seq<Value>)
    ensures GenNode(Literal(True), true, at, lits) == Gen([PushConstant(TRUE_CONST)], lits, [])
  {}

  lemma {:induction false} BlockCode(stmts: seq<Node>)
    ensures var at := Len([PushBlock(0, 0)]);
            var g := GenInline(stmts, true, at, []);
            GenNode(Block(0, stmts), false, 0, []) ==
            Gen([PushBlock(0, at + Len(g.code) + 1)] + g.code + [StackReturn], g.lits, [Site(at, stmts, [])] + g.sites)
  {
    hide GenInline, Len;
  }

  lemma {:induction false} MakeCode()
    ensures var g := GenNode(Block(0, [Return(Literal(True))]), false, 0, []);
            g.code == [PushBlock(0, 6)] + INSIDE + [StackReturn] && g.lits == []
  {
    hide Len, GenInline, GenNode;
    BlockSize();
    InsideCode();
    BlockCode([Return(Literal(True))]);
  }

  lemma {:induction false} MakeBody()
    ensures GenBody(MAKE_SOURCE, 0, []).code == [PushBlock(0, 6)] + INSIDE + ([StackReturn] + END) && GenBody(MAKE_SOURCE, 0, []).lits == []
  {
    hide Len, GenNode, GenBody;
    MakeCode();
    AnswerBody(Block(0, [Return(Literal(True))]), 0, []);
    Regroup([PushBlock(0, 6)] + INSIDE, [StackReturn], END, []);
  }

  lemma {:induction false} MakeCompiled()
    ensures Compiles(MAKE_SOURCE, MAKE, [])
  {
    MakeBody();
    EndBytes();
    PushEncodings();
    SpecialEncodings();
    LongEncodings();
    hide Assemble, Encode, GenBody;
    var rest := [StackReturn] + END;
    Regroup([PushBlock(0, 6)], INSIDE, rest, []);
    AssembleFirst(PushBlock(0, 6), INSIDE + rest);
    AssembleTwo(PushConstant(TRUE_CONST), BlockReturn, rest);
    AssembleFirst(StackReturn, END);
    assert INSIDE == [PushConstant(TRUE_CONST), BlockReturn];
  }

  lemma {:induction false} ThisCode(at: nat, lits: seq<Value>)
    ensures GenNode(THIS, false, at, lits) == Gen([PushArgument(0)], lits, [])
    ensures GenArgs([THIS], false, at, lits) == Gen([PushArgument(0)], lits, [])
  {
    assert [THIS][1..] == [];
  }

  lemma {:induction false} YourselfCompiled()
    ensures Compiles(YOURSELF_SOURCE, YOURSELF, [])
  {
    hide Assemble, Encode, GenBody, GenNode;
    ThisCode(0, []);
    AnswerBody(THIS, 0, []);
    EndBytes();
    Encodings();
    AssembleFirst(PushArgument(0), END);
  }

  lemma {:induction false} PrimitiveCode(number: nat, args: seq<Node>, at: nat, lits: seq<Value>)
    ensures var g := GenArgs(args, false, at, lits);
            GenNode(Primitive(number, args), false, at, lits) == Gen(g.code + [DoPrimitive(|args|, number)], g.lits, g.sites)
  {}

  lemma {:induction false} LastBody(at: nat, lits: seq<Value>)
    ensures GenBody([], at, lits) == Gen([SelfReturn], lits, [])
  {}

  lemma {:induction false} ValueBody()
    ensures GenBody(VALUE_SOURCE, 0, []).code == [PushArgument(0), DoPrimitive(1, 8)] + [PopTop, SelfReturn] && GenBody(VALUE_SOURCE, 0, []).lits == []
  {
    ThisCode(0, []);
    PrimitiveCode(8, [THIS], 0, []);
    BodyOf(Primitive(8, [THIS]), [], 0, []);
    LastBody(Len([PushArgument(0)] + [DoPrimitive(1, 8)]) + 1, []);
    hide GenBody, GenNode, GenArgs, Len;
    assert [Primitive(8, [THIS])] + [] == VALUE_SOURCE;
  }

  lemma {:induction false} ValueCompiled()
    ensures Compiles(VALUE_SOURCE, VALUE, [])
  {
    ValueBody();
    EndBytes();
    Encodings();
    LongEncodings();
    hide Assemble, Encode, GenBody;
    AssembleTwo(PushArgument(0), DoPrimitive(1, 8), [PopTop, SelfReturn]);
  }

  // ---- fails, probe, flush ---------------------------------------------------------------------------

  lemma {:induction false} ConstantCode(c: nat, at: nat, lits: seq<Value>)
    requires c < 10
    ensures GenNode(Literal(SmallInt(c)), false, at, lits) == Gen([PushConstant(c)], lits, [])
  {}

  lemma {:induction false} OneArgument(a: Node, at: nat, lits: seq<Value>)
    ensures var g := GenNode(a, false, at, lits); GenArgs([a], false, at, lits) == Gen(g.code, g.lits, g.sites)
  {
    hide GenNode;
    assert [a][1..] == [];
  }

  /** A primitive, then an answer. */
  lemma {:induction false} TryThenAnswer(number: nat, args: seq<Node>, e: Node, given: seq<Instr>, answered: seq<Instr>)
    requires GenArgs(args, false, 0, []).code == given && GenArgs(args, false, 0, []).lits == []
    requires forall at: nat :: GenNode(e, false, at, []).code == answered && GenNode(e, false, at, []).lits == []
    ensures var g := GenBody([Primitive(number, args), Return(e)], 0, []);
            g.code == given + [DoPrimitive(|args|, number)] + [PopTop] + (answered + END) && g.lits == []
  {
    hide GenBody, GenNode, GenArgs, Len;
    var n := Primitive(number, args);
    PrimitiveCode(number, args, 0, []);
    BodyOf(n, [Return(e)], 0, []);
    AnswerBody(e, Len(given + [DoPrimitive(|args|, number)]) + 1, []);
    assert [n] + [Return(e)] == [n, Return(e)];
  }

  lemma {:induction false} FailsCompiled()
    ensures Compiles(FAILS_SOURCE, FAILS, [])
  {
    hide Assemble, Encode, GenBody, GenNode, GenArgs;
    ConstantCode(5, 0, []);
    OneArgument(Literal(SmallInt(5)), 0, []);
    forall at: nat ensures GenNode(THIS, false, at, []) == Gen([PushArgument(0)], [], []) { ThisCode(at, []); }
    TryThenAnswer(99, [Literal(SmallInt(5))], THIS, [PushConstant(5)], [PushArgument(0)]);
    FailsBytes();
  }

  lemma {:induction false} FailsBytes()
    ensures Assemble([PushConstant(5)] + [DoPrimitive(1, 99)] + [PopTop] + ([PushArgument(0)] + END)) == FAILS
  {
    hide Assemble, Encode;
    EndBytes();
    Encodings();
    PushEncodings();
    LongEncodings();
    SpecialEncodings();
    var rest := [PushArgument(0)] + END;
    AssembleThree(PushConstant(5), DoPrimitive(1, 99), PopTop, rest);
    AssembleFirst(PushArgument(0), END);
    assert [PushConstant(5)] + [DoPrimitive(1, 99)] + [PopTop] == [PushConstant(5), DoPrimitive(1, 99), PopTop];
  }

  lemma {:induction false} ProbeArguments()
    ensures GenArgs([Literal(SmallInt(7)), Node.Argument(2)], false, 0, []) == Gen([PushConstant(7)] + [PushArgument(1)], [], [])
  {
    hide GenNode;
    ConstantCode(7, 0, []);
    var a, at := Node.Argument(2), Len([PushConstant(7)]);
    assert GenNode(a, false, at, []) == Gen([PushArgument(1)], [], []) by { SecondArgument(at); }
    OneArgument(a, at, []);
    assert [Literal(SmallInt(7)), a][1..] == [a];
    hide Len;
  }

  lemma {:induction false} SecondArgument(at: nat)
    ensures GenNode(Node.Argument(2), false, at, []) == Gen([PushArgument(1)], [], [])
    ensures GenNode(Temporary(1), false, at, []) == Gen([PushTemporary(0)], [], [])
  {}

  lemma {:induction false} ProbeCompiled()
    ensures Compiles(PROBE_SOURCE, PROBE, [])
  {
    hide Assemble, Encode, GenBody, GenNode, GenArgs;
    ProbeArguments();
    forall at: nat ensures GenNode(Temporary(1), false, at, []) == Gen([PushTemporary(0)], [], []) { SecondArgument(at); }
    TryThenAnswer(8, [Literal(SmallInt(7)), Node.Argument(2)], Temporary(1), [PushConstant(7)] + [PushArgument(1)], [PushTemporary(0)]);
    ProbeBytes();
  }

  lemma {:induction false} ProbeBytes()
    ensures Assemble([PushConstant(7)] + [PushArgument(1)] + [DoPrimitive(2, 8)] + [PopTop] + ([PushTemporary(0)] + END)) == PROBE
  {
    hide Assemble, Encode;
    EndBytes();
    PushEncodings();
    LongEncodings();
    SpecialEncodings();
    var rest := [PushTemporary(0)] + END;
    AssembleThree(PushConstant(7), PushArgument(1), DoPrimitive(2, 8), [PopTop] + rest);
    AssembleTwo(PopTop, PushTemporary(0), END);
    var first := [PushConstant(7)] + [PushArgument(1)] + [DoPrimitive(2, 8)];
    assert first == [PushConstant(7), PushArgument(1), DoPrimitive(2, 8)] && [PopTop] + rest == [PopTop, PushTemporary(0)] + END;
    Regroup(first, [PopTop], rest, []);
  }

  lemma {:induction false} IsNilCode()
    ensures GenNode(Message(THIS, "isNil", []), false, 0, []) == Gen([PushArgument(0)] + [SendUnary(0)], [], [])
  {
    ThisCode(0, []);
  }

  lemma {:induction false} FlushBody()
    ensures GenBody(FLUSH_SOURCE, 0, []).code == [PushArgument(0), SendUnary(0), PopTop] + ([DoPrimitive(0, 34)] + [PopTop, SelfReturn])
    ensures GenBody(FLUSH_SOURCE, 0, []).lits == []
  {
    hide GenBody, GenNode, Len;
    var n, p := Message(THIS, "isNil", []), Primitive(34, []);
    IsNilCode();
    BodyOf(n, [p], 0, []);
    assert [n] + [p] == FLUSH_SOURCE && [p] + [] == [p];
    var at := Len([PushArgument(0)] + [SendUnary(0)]) + 1;
    PrimitiveCode(34, [], at, []);
    BodyOf(p, [], at, []);
    LastBody(at + Len([DoPrimitive(0, 34)]) + 1, []);
    assert GenNode(p, false, at, []).code == [DoPrimitive(0, 34)];
    assert [DoPrimitive(0, 34)] + [PopTop] + [SelfReturn] == [DoPrimitive(0, 34)] + [PopTop, SelfReturn];
    assert [PushArgument(0)] + [SendUnary(0)] + [PopTop] == [PushArgument(0), SendUnary(0), PopTop];
  }

  lemma {:induction false} FlushCompiled()
    ensures Compiles(FLUSH_SOURCE, FLUSH, [])
  {
    hide Assemble, Encode, GenBody;
    FlushBody();
    EndBytes();
    Encodings();
    LongEncodings();
    SpecialEncodings();
    AssembleThree(PushArgument(0), SendUnary(0), PopTop, [DoPrimitive(0, 34)] + [PopTop, SelfReturn]);
    AssembleFirst(DoPrimitive(0, 34), [PopTop, SelfReturn]);
  }
}
