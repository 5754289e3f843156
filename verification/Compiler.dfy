/** The compile methods of the parse nodes, driving an encoder.  Each of them adds to the stream exactly
    the code, literals and stack count that the node stands for. */
module Compiler {
  import opened Bytecode
  import opened Syntax
  import opened Values
  import opened CodeGen
  import opened StackDepth
  import opened StackTracker
  import opened Simulation
  import opened Streams
  import opened Encoding

  predicate Plain(i: Instr) {
    !i.PushBlock? && !i.DoPrimitive? && !i.Branch? && !i.BranchIfTrue? && !i.BranchIfFalse? && !i.SendToSuper?
  }

  /** genHigh:low: with an instruction that has no further operands. */
  method Emit(e: Encoder, i: Instr)
    requires e.Valid() && Plain(i)
    modifies e, e.byteCodes
    ensures e.Became(Put(old(e.Now()), i))
  {
    e.GenHighLow(HighLow(i).0, HighLow(i).1);
    assert Encode(i) == OpBytes(HighLow(i).0, HighLow(i).1);
  }

  /** A jump with its location left open. */
  method EmitOpen(e: Encoder, i: Instr) returns (loc: nat)
    requires e.Valid() && Jump(i)
    modifies e, e.byteCodes
    ensures e.Became(PutOpen(old(e.Now()), i)) && loc == |e.Now().code| - 1
  {
    e.GenHighLow(HighLow(i).0, HighLow(i).1);
    loc := e.GenVal(0);
  }

  method PatchTo(e: Encoder, loc: nat)
    requires e.Valid() && 1 <= loc < |e.Now().code|
    modifies e.byteCodes
    ensures e.Became(Patched(old(e.Now()), loc))
  {
    e.Patch(loc);
  }

  method CompileLiteral(v: Value, e: Encoder)
    requires e.Valid()
    modifies e, e.byteCodes
    ensures e.Became(PutLiteral(old(e.Now()), v))
  {
    ghost var s := e.Now();
    ghost var g := GenLiteralNode(v, s.literals);
    AssembleOne(g.code[0]);
    assert g.code == [g.code[0]];
    hide Encode, Assemble, IndexOf, WithLiteral;
    if v == Nil { Emit(e, PushConstant(NIL_CONST)); return; }
    if v == True { Emit(e, PushConstant(TRUE_CONST)); return; }
    if v == False { Emit(e, PushConstant(FALSE_CONST)); return; }
    if v.SmallInt? && v.i < 10 && v.i >= 0 { Emit(e, PushConstant(v.i)); return; }
    var n := e.GenLiteral(v);
    Emit(e, PushLiteral(n));
  }

  method CompileNode(n: Node, e: Encoder, b: bool)
    requires e.Valid() && (Closed(n) || Open(n))
    modifies e, e.byteCodes
    ensures e.Became(PutNode(old(e.Now()), n, b))
    decreases n, 4
  {
    hide PutNode, Closed, Open;
    Accepted(n);
    match n {
      case Argument(_) => CompileVariable(n, e, b);
      case Temporary(_) => CompileVariable(n, e, b);
      case Instance(_) => CompileVariable(n, e, b);
      case Literal(v) =>
        NodeLiteral(e.Now(), n, b);
        CompileLiteral(v, e);
      case Assign(_, _) => CompileAssign(n, e, b);
      case Message(_, _, _) => CompileMessage(n, e, b);
      case Cascade(_, _) => CompileCascade(n, e, b);
      case Primitive(_, _) => CompilePrimitive(n, e, b);
      case Block(_, _) => CompileBlock(n, e, b);
      case Return(_) => CompileReturn(n, e, b);
    }
  }

  lemma {:induction false} Accepted(n: Node)
    requires Closed(n) || Open(n)
    ensures !n.Top? && (Open(n) ==> n.Message?)
  {}

  method CompileVariable(n: Node, e: Encoder, b: bool)
    requires e.Valid() && (n.Argument? || n.Temporary? || n.Instance?) && Closed(n)
    modifies e, e.byteCodes
    ensures e.Became(PutNode(old(e.Now()), n, b))
  {
    NodeVariable(e.Now(), n, b);
    hide PutNode;
    match n {
      case Argument(p) =>
        if p == 0 { Emit(e, PushArgument(0)); } else { Emit(e, PushArgument(p - 1)); }
      case Temporary(p) => Emit(e, PushTemporary(p - 1));
      case Instance(p) => Emit(e, PushInstance(p - 1));
    }
  }

  method CompileAssign(n: Node, e: Encoder, b: bool)
    requires e.Valid() && n.Assign? && Closed(n)
    modifies e, e.byteCodes
    ensures e.Became(PutNode(old(e.Now()), n, b))
    decreases n, 3
  {
    NodeAssign(e.Now(), n, b);
    assert Closed(n.expression);
    hide PutNode, Closed, Open, Put;
    CompileNode(n.expression, e, b);
    Emit(e, AssignTo(n.target));
  }

  method CompileReturn(n: Node, e: Encoder, b: bool)
    requires e.Valid() && n.Return? && Closed(n)
    modifies e, e.byteCodes
    ensures e.Became(PutNode(old(e.Now()), n, b))
    decreases n, 3
  {
    NodeReturn(e.Now(), n, b);
    assert Closed(n.expression);
    hide PutNode, Closed, Open, Put;
    CompileNode(n.expression, e, b);
    Emit(e, if b then BlockReturn else StackReturn);
  }

  method CompilePrimitive(n: Node, e: Encoder, b: bool)
    requires e.Valid() && n.Primitive? && Closed(n)
    modifies e, e.byteCodes
    ensures e.Became(PutNode(old(e.Now()), n, b))
    decreases n, 3
  {
    NodePrimitive(e.Now(), n, b);
    assert AllClosed(n.arguments);
    hide PutNode, PutArguments, Closed, AllClosed, Open;
    var argsize := |n.arguments|;
    e.CountArgs(argsize);
    CompileArguments(n.arguments, e, b);
    EmitPrimitive(e, argsize, n.number);
    e.DiscountArgs(argsize);
  }

  method EmitPrimitive(e: Encoder, argsize: nat, number: nat)
    requires e.Valid()
    modifies e, e.byteCodes
    ensures e.Became(Put(old(e.Now()), DoPrimitive(argsize, number)))
  {
    e.GenHighLow(13, argsize);
    e.GenCode(number);
  }

  /** The arguments, in order. */
  method CompileArguments(args: seq<Node>, e: Encoder, b: bool)
    requires e.Valid() && AllClosed(args)
    modifies e, e.byteCodes
    ensures e.Became(PutArguments(old(e.Now()), args, b))
    decreases args, 0
  {
    hide PutNode, PutArguments, Closed, Open;
    ghost var s0 := e.Now();
    var i := 0;
    assert args[0..] == args;
    while i < |args|
      invariant i <= |args| && e.Valid() && e.Kept() && AllClosed(args[i..])
      invariant PutArguments(e.Now(), args[i..], b) == PutArguments(s0, args, b)
    {
      assert args[i..][0] == args[i] && args[i..][1..] == args[i + 1..];
      ArgumentsStep(e.Now(), args[i..], b);
      CompileNode(args[i], e, b);
      i := i + 1;
    }
    assert args[i..] == [];
    ArgumentsStep(e.Now(), args[i..], b);
  }

  method EvaluateArguments(args: seq<Node>, e: Encoder, b: bool)
    requires e.Valid() && AllClosed(args)
    modifies e, e.byteCodes
    ensures e.Became(var s := old(e.Now()); PutArguments(s.(count := PushArgs(s.count, 1 + |args|)), args, b))
    decreases args, 1
  {
    hide PutArguments, AllClosed;
    e.CountArgs(1 + |args|);
    CompileArguments(args, e, b);
  }

  /** sendMessage: and sendToSuper: -- the arguments in an array, the selector among the literals. */
  method SendMessageNode(args: seq<Node>, name: string, e: Encoder, b: bool)
    requires e.Valid() && AllClosed(args)
    modifies e, e.byteCodes
    ensures e.Became(Sent(old(e.Now()), args, name, false, false, b))
    decreases args, 2
  {
    SentSteps(e.Now(), args, name, false, false, b);
    hide PutArguments, AllClosed, Sent, IndexOf, WithLiteral, Encode;
    EvaluateArguments(args, e, b);
    e.DiscountArgs(|args|);
    Emit(e, MarkArguments(1 + |args|));
    var k := e.GenLiteral(Symbol(name));
    Emit(e, SendMessage(k));
  }

  method SendToSuperNode(args: seq<Node>, name: string, e: Encoder, b: bool)
    requires e.Valid() && AllClosed(args)
    modifies e, e.byteCodes
    ensures e.Became(Sent(old(e.Now()), args, name, true, true, b))
    decreases args, 2
  {
    SentSteps(e.Now(), args, name, true, true, b);
    hide PutArguments, AllClosed, Sent, IndexOf, WithLiteral, Encode;
    EvaluateArguments(args, e, b);
    Emit(e, MarkArguments(1 + |args|));
    EmitSuper(e, name);
  }

  /** The opcode first, and then the literal. */
  method EmitSuper(e: Encoder, name: string)
    requires e.Valid()
    modifies e, e.byteCodes
    ensures var s := old(e.Now());
            e.Became(Put(s.(literals := WithLiteral(s.literals, Symbol(name))), SendToSuper(IndexOf(s.literals, Symbol(name)))))
  {
    hide IndexOf, WithLiteral;
    e.GenHighLow(15, 11);
    var k := e.GenLiteral(Symbol(name));
    e.GenCode(k);
  }

  /** compileInLine: -- every statement popped, and the last pop taken back. */
  method CompileInLine(stmts: seq<Node>, e: Encoder, b: bool)
    requires e.Valid() && stmts != [] && AllClosed(stmts)
    modifies e, e.byteCodes
    ensures e.Became(PutStatements(old(e.Now()), stmts, b))
    decreases stmts, 1
  {
    hide PutNode, PutStatements, AllClosed, Encode, Popped;
    PoppedStatements(e.Now(), stmts, b);
    CompilePopped(stmts, e, b);
    PopSize();
    ghost var s := e.Now();
    e.BackUp();
    assert s.code[..|s.code| - 1] == e.Now().code;
  }

  method CompilePopped(stmts: seq<Node>, e: Encoder, b: bool)
    requires e.Valid() && AllClosed(stmts)
    modifies e, e.byteCodes
    ensures e.Became(Popped(old(e.Now()), stmts, b))
    decreases stmts, 0
  {
    hide PutNode, Put, Closed, Open;
    ghost var s0 := e.Now();
    var i := 0;
    assert stmts[0..] == stmts;
    while i < |stmts|
      invariant i <= |stmts| && e.Valid() && e.Kept() && AllClosed(stmts[i..])
      invariant Popped(e.Now(), stmts[i..], b) == Popped(s0, stmts, b)
    {
      assert stmts[i..][0] == stmts[i] && stmts[i..][1..] == stmts[i + 1..];
      CompileNode(stmts[i], e, b);
      Emit(e, PopTop);
      i := i + 1;
    }
    assert stmts[i..] == [];
  }

  /** BodyNode compile: -- a whole method, with a fresh encoder. */
  method CompileBody(stmts: seq<Node>) returns (e: Encoder)
    requires AllClosed(stmts)
    ensures e.Valid() && fresh(e)
    ensures e.Code() == Assemble(GenBody(stmts, 0, []).code)
    ensures e.literals == GenBody(stmts, 0, []).lits && e.maxStack == MaxStack(stmts)
  {
    e := new Encoder();
    assert e.Now() == Stream([], [], FRESH);
    PoppedBody(e.Now(), stmts);
    hide Popped, GenBody, TrackStatements, Assemble;
    CompilePopped(stmts, e, false);
    Emit(e, SelfReturn);
    assert [] + Assemble(GenBody(stmts, 0, []).code) == Assemble(GenBody(stmts, 0, []).code);
  }

  method CompileCascade(n: Node, e: Encoder, b: bool)
    requires e.Valid() && n.Cascade? && Closed(n)
    modifies e, e.byteCodes
    ensures e.Became(PutNode(old(e.Now()), n, b))
    decreases n, 3
  {
    NodeCascade(e.Now(), n, b);
    assert Closed(n.head) && AllOpen(n.list);
    hide PutNode, PutMessages, Closed, Open, AllOpen;
    CompileNode(n.head, e, b);
    CompileMessages(n.list, e, b);
  }

  method CompileMessages(l: seq<Node>, e: Encoder, b: bool)
    requires e.Valid() && AllOpen(l)
    modifies e, e.byteCodes
    ensures e.Became(PutMessages(old(e.Now()), l, b))
    decreases l, 0
  {
    hide PutNode, PutMessages, Put, Closed, Open;
    ghost var s0 := e.Now();
    var i := 0;
    assert l[0..] == l;
    while i < |l|
      invariant i <= |l| && e.Valid() && e.Kept() && AllOpen(l[i..])
      invariant PutMessages(e.Now(), l[i..], b) == PutMessages(s0, l, b)
    {
      assert l[i..][0] == l[i] && l[i..][1..] == l[i + 1..];
      MessagesStep(e.Now(), l[i..], b);
      Emit(e, Duplicate);
      CompileNode(l[i], e, b);
      Emit(e, PopTop);
      i := i + 1;
    }
    assert l[i..] == [];
    MessagesStep(e.Now(), l[i..], b);
  }

  /** A block, its jump still open, and where that is patched. */
  ghost function BlockOpen(s: Stream, n: Node): Stream
    requires n.Block?
  {
    Put(PutStatements(PutOpen(s, PushBlock(n.temporaryLocation, 0)), n.statements, true), StackReturn)
  }

  ghost function BlockJump(s: Stream, n: Node): nat
    requires n.Block?
  {
    var code := PutOpen(s, PushBlock(n.temporaryLocation, 0)).code;
    if code == [] then 0 else |code| - 1
  }

  lemma {:induction false} BlockPlan(s: Stream, n: Node, b: bool)
    requires n.Block?
    ensures 1 <= BlockJump(s, n) < |BlockOpen(s, n).code| && Patched(BlockOpen(s, n), BlockJump(s, n)) == PutNode(s, n, b)
  {
    hide PutNode, PutStatements, PutOpen, Patched, Put;
    BlockSteps(s, n, b);
    StatementsGrow(PutOpen(s, PushBlock(n.temporaryLocation, 0)), n.statements, true, StackReturn);
  }

  method CompileBlock(n: Node, e: Encoder, b: bool)
    requires e.Valid() && n.Block? && Closed(n)
    modifies e, e.byteCodes
    ensures e.Became(PutNode(old(e.Now()), n, b))
    decreases n, 3
  {
    assert n.statements != [] && AllClosed(n.statements);
    hide PutNode, Patched, Closed, AllClosed, BlockOpen, BlockJump;
    BlockPlan(e.Now(), n, b);
    var loc := CompileOpenBlock(n, e);
    PatchTo(e, loc);
  }

  method CompileOpenBlock(n: Node, e: Encoder) returns (loc: nat)
    requires e.Valid() && n.Block? && n.statements != [] && AllClosed(n.statements)
    modifies e, e.byteCodes
    ensures e.Became(BlockOpen(old(e.Now()), n)) && loc == BlockJump(old(e.Now()), n)
    decreases n, 2
  {
    hide PutStatements, PutOpen, Put, AllClosed;
    loc := EmitOpen(e, PushBlock(n.temporaryLocation, 0));
    CompileInLine(n.statements, e, true);
    Emit(e, StackReturn);
  }

  method CompileGuarded(i: Instr, stmts: seq<Node>, e: Encoder, b: bool) returns (ssave: nat)
    requires e.Valid() && (i.BranchIfTrue? || i.BranchIfFalse?) && stmts != [] && AllClosed(stmts)
    modifies e, e.byteCodes
    ensures e.Became(Guarded(old(e.Now()), i, stmts, b)) && ssave == |e.Now().code| - 1 && ssave >= 1
    decreases stmts, 2
  {
    hide PutStatements, PutOpen, Patched, AllClosed;
    GuardedSizes(e.Now(), i, stmts, b);
    var save := EmitOpen(e, i);
    CompileInLine(stmts, e, b);
    ssave := EmitOpen(e, Branch(0));
    PatchTo(e, save);
  }

  /** ifTrue:, ifFalse:, and:, or: */
  method CompileTest(skipOn: bool, constant: nat, stmts: seq<Node>, e: Encoder, b: bool)
    requires e.Valid() && constant < 16 && stmts != [] && AllClosed(stmts)
    modifies e, e.byteCodes
    ensures var s := old(e.Now());
            e.Became(Add(s, GenTest(skipOn, constant, stmts, b, |s.code|, s.literals), TrackStatements(stmts, s.count)))
    decreases stmts, 3
  {
    hide Add, GenTest, TrackStatements, Guarded, Patched, Put, AllClosed;
    TestSteps(e.Now(), skipOn, constant, stmts, b);
    var ssave := CompileGuarded(BranchOn(skipOn, 0), stmts, e, b);
    Emit(e, PushConstant(constant));
    PatchTo(e, ssave);
  }

  lemma {:induction false} GuardedGrows(s: Stream, stmts: seq<Node>, more: seq<Node>, b: bool)
    ensures var s4 := Guarded(s, BranchIfTrue(0), stmts, b);
            |s4.code| <= |PutStatements(s4, more, b).code|
  {
    hide Guarded, PutStatements;
    StatementsGrow(Guarded(s, BranchIfTrue(0), stmts, b), more, b, PopTop);
  }

  /** optimizeIf: -- the block for false comes first. */
  method OptimizeIf(args: seq<Node>, e: Encoder, b: bool)
    requires e.Valid() && |args| == 2 && ArgumentsAreBlock(args)
    requires args[0].Block? && args[0].statements != [] && AllClosed(args[0].statements)
    requires args[1].Block? && args[1].statements != [] && AllClosed(args[1].statements)
    modifies e, e.byteCodes
    ensures var s := old(e.Now());
            e.Became(Add(s, GenIf(args, b, |s.code|, s.literals),
                         TrackStatements(args[0].statements, TrackStatements(args[1].statements, s.count))))
    decreases args, 2
  {
    hide Add, GenIf, TrackStatements, Guarded, PutStatements, Patched, AllClosed;
    IfSteps(e.Now(), args, b);
    GuardedGrows(e.Now(), args[1].statements, args[0].statements, b);
    var ssave := CompileGuarded(BranchIfTrue(0), args[1].statements, e, b);
    CompileInLine(args[0].statements, e, b);
    PatchTo(e, ssave);
  }

  /** optimizeWhile: */
  method OptimizeWhile(n: Node, e: Encoder, b: bool)
    requires e.Valid() && IsWhile(n) && Closed(n)
    modifies e, e.byteCodes
    ensures e.Became(PutNode(old(e.Now()), n, b))
    decreases n, 1
  {
    hide PutNode, PutStatements, PutOpen, Patched, Put, Closed, AllClosed, Looped;
    ghost var s := e.Now();
    WhileSteps(s, n, b);
    LoopBlocks(n);
    LoopSizes(s, n.receiver.statements, n.arguments[0].statements, b, |s.code|);
    var start := e.index;
    var save := CompileLoop(n, start, e, b);
    PatchTo(e, save);
    Emit(e, PushConstant(NIL_CONST));
  }

  /** The condition, the jump out, the body, and the jump back. */
  ghost function Looped(s: Stream, cond: seq<Node>, body: seq<Node>, start: nat, b: bool): Stream {
    Put(Put(PutStatements(PutOpen(PutStatements(s, cond, b), BranchIfFalse(0)), body, b), PopTop), Branch(start))
  }

  method CompileLoop(n: Node, start: nat, e: Encoder, b: bool) returns (save: nat)
    requires e.Valid() && GoodLoop(n)
    modifies e, e.byteCodes
    ensures e.Became(Looped(old(e.Now()), n.receiver.statements, n.arguments[0].statements, start, b))
    ensures save == |PutOpen(PutStatements(old(e.Now()), n.receiver.statements, b), BranchIfFalse(0)).code| - 1
    decreases n, 0
  {
    hide PutStatements, PutOpen, Put, AllClosed;
    CompileInLine(n.receiver.statements, e, b);
    save := EmitOpen(e, BranchIfFalse(0));
    CompileInLine(n.arguments[0].statements, e, b);
    Emit(e, PopTop);
    EmitBranch(e, start);
  }

  lemma {:induction false} LoopSizes(s: Stream, cond: seq<Node>, body: seq<Node>, b: bool, start: nat)
    ensures var s2 := PutOpen(PutStatements(s, cond, b), BranchIfFalse(0));
            2 <= |s2.code| < |Looped(s, cond, body, start, b).code|
    ensures Looped(s, cond, body, start, b) ==
            Put(Put(PutStatements(PutOpen(PutStatements(s, cond, b), BranchIfFalse(0)), body, b), PopTop), Branch(start))
  {
    var s2 := PutOpen(PutStatements(s, cond, b), BranchIfFalse(0));
    BranchBytes(BranchIfFalse(0), BranchIfFalse(0));
    LocationSize(0);
    StatementsGrow(s2, body, b, PopTop);
    hide PutStatements, Encode, Opened, Location;
  }

  method EmitBranch(e: Encoder, target: nat)
    requires e.Valid()
    modifies e, e.byteCodes
    ensures e.Became(Put(old(e.Now()), Branch(target)))
  {
    e.GenHighLow(15, 6);
    var _ := e.GenVal(target);
  }

  /** compile2: */
  method CompileRest(r: Node, args: seq<Node>, name: string, e: Encoder, b: bool)
    requires e.Valid() && AllClosed(args) && GoodMessage(r, name, args)
    modifies e, e.byteCodes
    ensures e.Became(Told(old(e.Now()), args, name, b))
    decreases args, 4
  {
    ghost var s := e.Now();
    hide Add, GenTest, GenIf, GenSend, GenArgs, TrackStatements, TrackSend, PutArguments, Sent, AllClosed, Encode;
    if InLine(name, args) {
      InLineBlocks(args, name);
      if name == "ifTrue:" { CompileTest(false, NIL_CONST, args[0].statements, e, b); return; }
      if name == "ifFalse:" { CompileTest(true, NIL_CONST, args[0].statements, e, b); return; }
      if name == "and:" { CompileTest(false, FALSE_CONST, args[0].statements, e, b); return; }
      if name == "or:" { CompileTest(true, TRUE_CONST, args[0].statements, e, b); return; }
      OptimizeIf(args, e, b);
    } else if name in BINARY_NAMES {
      ToldBinary(s, args, name, b);
      EvaluateArguments(args, e, b);
      Emit(e, SendBinary(BinaryIndex(name)));
    } else {
      ToldSend(s, args, name, b);
      SendMessageNode(args, name, e, b);
    }
  }

  method CompileMessage(n: Node, e: Encoder, b: bool)
    requires e.Valid() && n.Message? && (Closed(n) || Open(n))
    modifies e, e.byteCodes
    ensures e.Became(PutNode(old(e.Now()), n, b))
    decreases n, 3
  {
    ghost var s := e.Now();
    var args := n.arguments;
    MessageAccepted(n);
    hide PutNode, Put, Sent, Told, Closed, Open, AllClosed;
    if n.receiver.Top? {
      NodeToTop(s, n, b);
      SendMessageNode(args, n.name, e, b);
      return;
    }
    if n.receiver.Block? && ArgumentsAreBlock(args) && (n.name == "whileTrue:" || n.name == "whileFalse") {
      OptimizeWhile(n, e, b);
      return;
    }
    NodeMessage(s, n, b);
    CompileNode(n.receiver, e, b);
    if n.receiver.IsSuper() { SendToSuperNode(args, n.name, e, b); return; }
    if n.name == "isNil" { Emit(e, SendUnary(0)); return; }
    if n.name == "notNil" { Emit(e, SendUnary(1)); return; }
    CompileRest(n.receiver, args, n.name, e, b);
  }

  lemma {:induction false} OpenIsMessage(n: Node)
    ensures Open(n) ==> n.Message?
  {}

  lemma {:induction false} MessageAccepted(n: Node)
    requires n.Message? && (Closed(n) || Open(n))
    ensures AllClosed(n.arguments) && GoodMessage(n.receiver, n.name, n.arguments)
    ensures !n.receiver.Top? ==> Closed(n.receiver) || Open(n.receiver)
    ensures n.receiver.Block? ==> Closed(n)
    ensures n.receiver.Block? && ArgumentsAreBlock(n.arguments) && (n.name == "whileTrue:" || n.name == "whileFalse") ==> IsWhile(n)
    ensures IsWhile(n) ==> ArgumentsAreBlock(n.arguments)
  {
    OpenIsMessage(n.receiver);
  }
}
