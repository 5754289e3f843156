/** The stream an encoder holds, and what compiling a node adds to it: the steps of each compile method,
    jumps left open and patched later included, come to the code of module CodeGen. */
module Streams {
  import opened Bytes
  import opened Bytecode
  import opened Syntax
  import opened Values
  import opened CodeGen
  import opened StackDepth
  import opened StackTracker
  import opened Simulation

  /** What an encoder holds: the bytes up to its index, the literals, the stack count. */
  datatype Stream = Stream(code: seq<byte>, literals: seq<Value>, count: Tracker)

  // ---- What the compile methods do to the stream ---------------------------------------------------

  function Put(s: Stream, i: Instr): Stream {
    s.(code := s.code + Encode(i))
  }

  ghost function Add(s: Stream, g: Gen, t: Tracker): Stream {
    Stream(s.code + Assemble(g.code), g.lits, t)
  }

  ghost function PutNode(s: Stream, n: Node, b: bool): Stream {
    Add(s, GenNode(n, b, |s.code|, s.literals), TrackNode(n, s.count))
  }

  ghost function PutArguments(s: Stream, args: seq<Node>, b: bool): Stream {
    Add(s, GenArgs(args, b, |s.code|, s.literals), TrackArgs(args, s.count))
  }

  ghost function PutStatements(s: Stream, stmts: seq<Node>, b: bool): Stream {
    Add(s, GenInline(stmts, b, |s.code|, s.literals), TrackStatements(stmts, s.count))
  }

  /** Statements, every one of them popped. */
  ghost function Popped(s: Stream, stmts: seq<Node>, b: bool): Stream
    decreases stmts
  {
    if stmts == [] then s else Popped(Put(PutNode(s, stmts[0], b), PopTop), stmts[1..], b)
  }

  ghost function PutMessages(s: Stream, l: seq<Node>, b: bool): Stream {
    Add(s, GenCascade(l, b, |s.code|, s.literals), TrackMessages(l, s.count))
  }

  ghost function PutLiteral(s: Stream, v: Value): Stream {
    Add(s, GenLiteralNode(v, s.literals), s.count)
  }

  lemma {:induction false} AssembleOne(i: Instr)
    ensures Assemble([i]) == Encode(i)
  {
    hide Encode;
    assert [i][1..] == [] && Assemble([i]) == Encode(i) + Assemble([]);
  }

  lemma {:induction false} AddPut(s: Stream, g: Gen, t: Tracker, i: Instr)
    ensures Put(Add(s, g, t), i) == Add(s, Gen(g.code + [i], g.lits, g.sites), t)
  {
    hide Encode, Assemble;
    AssembleAppend(g.code, [i]);
    AssembleOne(i);
    assert s.code + (Assemble(g.code) + Encode(i)) == s.code + Assemble(g.code) + Encode(i);
  }

  /** g, and then h where g ends. */
  lemma {:induction false} AddAdd(s: Stream, g: Gen, t: Tracker, h: Gen, u: Tracker)
    ensures Add(Add(s, g, t), h, u) == Add(s, Gen(g.code + h.code, h.lits, g.sites + h.sites), u)
    ensures |Add(s, g, t).code| == |s.code| + Len(g.code)
  {
    hide Assemble;
    AssembleAppend(g.code, h.code);
    assert s.code + (Assemble(g.code) + Assemble(h.code)) == s.code + Assemble(g.code) + Assemble(h.code);
  }

  lemma {:induction false} NodeAssign(s: Stream, n: Node, b: bool)
    requires n.Assign?
    ensures PutNode(s, n, b) == Put(PutNode(s, n.expression, b), AssignTo(n.target))
  {
    hide Assemble, Encode;
    AddPut(s, GenNode(n.expression, b, |s.code|, s.literals), TrackNode(n.expression, s.count), AssignTo(n.target));
  }

  lemma {:induction false} NodeReturn(s: Stream, n: Node, b: bool)
    requires n.Return?
    ensures PutNode(s, n, b) == Put(PutNode(s, n.expression, b), if b then BlockReturn else StackReturn)
  {
    hide Assemble, Encode;
    AddPut(s, GenNode(n.expression, b, |s.code|, s.literals), TrackNode(n.expression, s.count), if b then BlockReturn else StackReturn);
  }

  lemma {:induction false} NodeVariable(s: Stream, n: Node, b: bool)
    requires n.Argument? || n.Temporary? || n.Instance?
    ensures PutNode(s, n, b) == Put(s, if n.Argument? then PushArgument(Pred(n.position))
                                    else if n.Temporary? then PushTemporary(Pred(n.position)) else PushInstance(Pred(n.position)))
  {
    AssembleOne(GenNode(n, b, |s.code|, s.literals).code[0]);
    hide Assemble, Encode;
    assert GenNode(n, b, |s.code|, s.literals).code == [GenNode(n, b, |s.code|, s.literals).code[0]];
  }

  lemma {:induction false} NodeLiteral(s: Stream, n: Node, b: bool)
    requires n.Literal?
    ensures PutNode(s, n, b) == PutLiteral(s, n.value)
  {
    hide Assemble, GenLiteralNode;
  }

  lemma {:induction false} NodePrimitive(s: Stream, n: Node, b: bool)
    requires n.Primitive?
    ensures var s1 := PutArguments(s.(count := PushArgs(s.count, |n.arguments|)), n.arguments, b);
            PutNode(s, n, b) == Put(s1, DoPrimitive(|n.arguments|, n.number)).(count := PopArgs(s1.count, |n.arguments|))
  {
    hide Assemble, Encode, GenArgs, TrackArgs;
    var g := GenArgs(n.arguments, b, |s.code|, s.literals);
    AddPut(s, g, TrackArgs(n.arguments, PushArgs(s.count, |n.arguments|)), DoPrimitive(|n.arguments|, n.number));
  }

  lemma {:induction false} ArgumentsStep(s: Stream, args: seq<Node>, b: bool)
    ensures PutArguments(s, args, b) == if args == [] then s else PutArguments(PutNode(s, args[0], b), args[1..], b)
  {
    hide GenNode, TrackNode;
    if args == [] {
      assert s.code + [] == s.code;
    } else {
      var g := GenNode(args[0], b, |s.code|, s.literals);
      var t := TrackNode(args[0], s.count);
      hide Assemble;
      AddAdd(s, g, t, GenArgs(args[1..], b, |s.code| + Len(g.code), g.lits), TrackArgs(args[1..], t));
    }
  }

  lemma {:induction false} MessagesStep(s: Stream, l: seq<Node>, b: bool)
    ensures PutMessages(s, l, b) ==
            if l == [] then s else PutMessages(Put(PutNode(Put(s, Duplicate), l[0], b), PopTop), l[1..], b)
  {
    hide GenNode, TrackNode, Assemble, Encode, GenCascade, TrackMessages;
    if l == [] {
      NoMessagesLeft(s, b);
    } else {
      var g := GenNode(l[0], b, |s.code| + 1, s.literals);
      var t := TrackNode(l[0], s.count);
      OneMessage(s, g, t);
      DuplicateFirst(s, l[0], b);
      FirstAndRest(s, l, b);
      LenSum3(g.code);
      var head := Gen([Duplicate] + g.code + [PopTop], g.lits, g.sites);
      AddAdd(s, head, t, GenCascade(l[1..], b, |s.code| + 1 + Len(g.code) + 1, g.lits), TrackMessages(l[1..], t));
    }
  }

  lemma {:induction false} NoMessagesLeft(s: Stream, b: bool)
    ensures PutMessages(s, [], b) == s
  {
    assert s.code + [] == s.code;
  }

  lemma {:induction false} DuplicateFirst(s: Stream, n: Node, b: bool)
    ensures PutNode(Put(s, Duplicate), n, b) == Add(Put(s, Duplicate), GenNode(n, b, |s.code| + 1, s.literals), TrackNode(n, s.count))
  {
    assert |Encode(Duplicate)| == 1;
    hide GenNode, TrackNode, Assemble, Encode;
  }

  lemma {:induction false} FirstAndRest(s: Stream, l: seq<Node>, b: bool)
    requires l != []
    ensures var g := GenNode(l[0], b, |s.code| + 1, s.literals);
            var rest := GenCascade(l[1..], b, |s.code| + 1 + Len(g.code) + 1, g.lits);
            PutMessages(s, l, b) == Add(s, Gen([Duplicate] + g.code + [PopTop] + rest.code, rest.lits, g.sites + rest.sites),
                                     TrackMessages(l[1..], TrackNode(l[0], s.count)))
  {
    hide GenNode, TrackNode, Assemble, Encode;
  }

  lemma {:induction false} LenSum3(code: seq<Instr>)
    ensures Len([Duplicate] + code + [PopTop]) == 1 + Len(code) + 1
  {
    JumpSizes(0, true, 0);
    hide Assemble;
    AssembleAppend([Duplicate], code);
    AssembleAppend([Duplicate] + code, [PopTop]);
  }

  lemma {:induction false} OneMessage(s: Stream, g: Gen, t: Tracker)
    ensures Put(Add(Put(s, Duplicate), g, t), PopTop) == Add(s, Gen([Duplicate] + g.code + [PopTop], g.lits, g.sites), t)
  {
    AssembleOne(Duplicate);
    AssembleOne(PopTop);
    hide Assemble, Encode;
    AssembleAppend([Duplicate], g.code);
    AssembleAppend([Duplicate] + g.code, [PopTop]);
    var d, m, p := Encode(Duplicate), Assemble(g.code), Encode(PopTop);
    assert s.code + d + m + p == s.code + (d + m + p);
  }

  lemma {:induction false} NodeCascade(s: Stream, n: Node, b: bool)
    requires n.Cascade?
    ensures PutNode(s, n, b) == PutMessages(PutNode(s, n.head, b), n.list, b)
  {
    hide Assemble, GenCascade, TrackMessages;
    var g, t := GenNode(n.head, b, |s.code|, s.literals), TrackNode(n.head, s.count);
    AddAdd(s, g, t, GenCascade(n.list, b, |s.code| + Len(g.code), g.lits), TrackMessages(n.list, t));
  }

  ghost function Sent(s: Stream, args: seq<Node>, name: string, super: bool, keeps: bool, b: bool): Stream {
    Add(s, GenSend(args, name, super, b, |s.code|, s.literals), TrackSend(args, keeps, s.count))
  }

  /** A send: arguments, MarkArguments, and the send with the number of its selector. */
  lemma {:induction false} SentSteps(s: Stream, args: seq<Node>, name: string, super: bool, keeps: bool, b: bool)
    ensures var s1 := PutArguments(s.(count := PushArgs(s.count, 1 + |args|)), args, b);
            var s2 := Put(s1, MarkArguments(1 + |args|));
            var k := IndexOf(s2.literals, Symbol(name));
            Sent(s, args, name, super, keeps, b) ==
            Put(s2.(literals := WithLiteral(s2.literals, Symbol(name))), if super then SendToSuper(k) else SendMessage(k))
              .(count := if keeps then s1.count else PopArgs(s1.count, |args|))
  {
    hide Assemble, Encode, GenArgs, TrackArgs, IndexOf, WithLiteral;
    var s0 := s.(count := PushArgs(s.count, 1 + |args|));
    var g := GenArgs(args, b, |s.code|, s.literals);
    var t := TrackArgs(args, s0.count);
    var k := IndexOf(g.lits, Symbol(name));
    var mark, send := MarkArguments(1 + |args|), if super then SendToSuper(k) else SendMessage(k);
    AddPut(s0, g, t, mark);
    AddPut(s0, Gen(g.code + [mark], g.lits, g.sites), t, send);
    assert g.code + [mark] + [send] == g.code + [mark, send];
  }

  ghost function Told(s: Stream, args: seq<Node>, name: string, b: bool): Stream {
    Add(s, GenMessage(args, name, b, |s.code|, s.literals), TrackMessage(args, name, s.count))
  }

  lemma {:induction false} ToldSend(s: Stream, args: seq<Node>, name: string, b: bool)
    requires !InLine(name, args) && name !in BINARY_NAMES
    ensures Told(s, args, name, b) == Sent(s, args, name, false, false, b)
  {
    hide Assemble, GenSend, TrackSend;
  }

  lemma {:induction false} ToldBinary(s: Stream, args: seq<Node>, name: string, b: bool)
    requires !InLine(name, args) && name in BINARY_NAMES
    ensures Told(s, args, name, b) ==
            Put(PutArguments(s.(count := PushArgs(s.count, 1 + |args|)), args, b), SendBinary(BinaryIndex(name)))
  {
    hide Assemble, Encode, GenArgs, TrackArgs;
    var g := GenArgs(args, b, |s.code|, s.literals);
    assert GenMessage(args, name, b, |s.code|, s.literals) == Gen(g.code + [SendBinary(BinaryIndex(name))], g.lits, g.sites);
    assert TrackMessage(args, name, s.count) == TrackArgs(args, PushArgs(s.count, 1 + |args|));
    AddPut(s, g, TrackArgs(args, PushArgs(s.count, 1 + |args|)), SendBinary(BinaryIndex(name)));
  }

  lemma {:induction false} NodeToTop(s: Stream, n: Node, b: bool)
    requires n.Message? && n.receiver.Top?
    ensures PutNode(s, n, b) == Sent(s, n.arguments, n.name, false, false, b)
  {
    hide Assemble, GenSend, TrackSend;
  }

  lemma {:induction false} NodeMessage(s: Stream, n: Node, b: bool)
    requires n.Message? && !n.receiver.Top? && !IsWhile(n)
    ensures var s1 := PutNode(s, n.receiver, b);
            PutNode(s, n, b) == if n.receiver.IsSuper() then Sent(s1, n.arguments, n.name, true, true, b)
                             else if n.name == "isNil" then Put(s1, SendUnary(0))
                             else if n.name == "notNil" then Put(s1, SendUnary(1))
                             else Told(s1, n.arguments, n.name, b)
  {
    hide Assemble, Encode, GenSend, GenMessage, TrackSend, TrackMessage;
    var g, t := GenNode(n.receiver, b, |s.code|, s.literals), TrackNode(n.receiver, s.count);
    var at := |s.code| + Len(g.code);
    if n.receiver.IsSuper() {
      AddAdd(s, g, t, GenSend(n.arguments, n.name, true, b, at, g.lits), TrackSend(n.arguments, true, t));
    } else if n.name == "isNil" {
      AddPut(s, g, t, SendUnary(0));
    } else if n.name == "notNil" {
      AddPut(s, g, t, SendUnary(1));
    } else {
      AddAdd(s, g, t, GenMessage(n.arguments, n.name, b, at, g.lits), TrackMessage(n.arguments, n.name, t));
    }
  }

  // ---- Statements ----------------------------------------------------------------------------------

  /** Backing up over the last pop leaves the statements with the last value in place. */
  lemma {:induction false} PoppedStatements(s: Stream, stmts: seq<Node>, b: bool)
    requires stmts != []
    ensures Popped(s, stmts, b) == Put(PutStatements(s, stmts, b), PopTop)
    decreases stmts
  {
    hide GenNode, TrackNode, Assemble, Encode, GenInline, TrackStatements;
    FirstStatement(s, stmts, b);
    if |stmts| == 1 {
      assert stmts[1..] == [];
    } else {
      PoppedStatements(Put(PutNode(s, stmts[0], b), PopTop), stmts[1..], b);
    }
  }

  lemma {:induction false} FirstStatement(s: Stream, stmts: seq<Node>, b: bool)
    requires stmts != []
    ensures PutStatements(s, stmts, b) ==
            if |stmts| == 1 then PutNode(s, stmts[0], b) else PutStatements(Put(PutNode(s, stmts[0], b), PopTop), stmts[1..], b)
  {
    hide GenNode, TrackNode, Assemble, Encode, GenInline, TrackStatements;
    if |stmts| > 1 {
      MoreStatements(s, stmts, b);
    } else {
      OneStatement(s, stmts, b);
    }
  }

  lemma {:induction false} OneStatement(s: Stream, stmts: seq<Node>, b: bool)
    requires |stmts| == 1
    ensures PutStatements(s, stmts, b) == PutNode(s, stmts[0], b)
  {
    hide GenNode, TrackNode, Assemble;
    assert stmts[1..] == [];
    assert TrackStatements([], TrackNode(stmts[0], s.count)) == TrackNode(stmts[0], s.count);
  }

  lemma {:induction false} MoreStatements(s: Stream, stmts: seq<Node>, b: bool)
    requires |stmts| > 1
    ensures PutStatements(s, stmts, b) == PutStatements(Put(PutNode(s, stmts[0], b), PopTop), stmts[1..], b)
  {
    hide GenNode, TrackNode, Assemble, Encode, GenInline, TrackStatements;
    var g, t := GenNode(stmts[0], b, |s.code|, s.literals), TrackNode(stmts[0], s.count);
    AddPut(s, g, t, PopTop);
    MoreCode(s, stmts, b);
    var rest := GenInline(stmts[1..], b, |s.code| + Len(g.code) + 1, g.lits);
    AddAdd(s, Gen(g.code + [PopTop], g.lits, g.sites), t, rest, TrackStatements(stmts[1..], t));
  }

  lemma {:induction false} MoreCode(s: Stream, stmts: seq<Node>, b: bool)
    requires |stmts| > 1
    ensures var g, t := GenNode(stmts[0], b, |s.code|, s.literals), TrackNode(stmts[0], s.count);
            var rest := GenInline(stmts[1..], b, |s.code| + Len(g.code) + 1, g.lits);
            && PutStatements(s, stmts, b) == Add(s, Gen(g.code + [PopTop] + rest.code, rest.lits, g.sites + rest.sites), TrackStatements(stmts[1..], t))
            && Len(g.code + [PopTop]) == Len(g.code) + 1
  {
    hide GenNode, TrackNode, Assemble;
    var g := GenNode(stmts[0], b, |s.code|, s.literals);
    AssembleAppend(g.code, [PopTop]);
    AssembleOne(PopTop);
  }

  ghost function Body(s: Stream, stmts: seq<Node>): Stream {
    Add(s, GenBody(stmts, |s.code|, s.literals), TrackStatements(stmts, s.count))
  }

  /** A body is its statements, every one popped, and the return of self. */
  lemma {:induction false} PoppedBody(s: Stream, stmts: seq<Node>)
    ensures Body(s, stmts) == Put(Popped(s, stmts, false), SelfReturn)
    decreases stmts
  {
    hide GenNode, TrackNode, Assemble, Encode, GenBody, TrackStatements;
    FirstOfBody(s, stmts);
    if stmts != [] {
      PoppedBody(Put(PutNode(s, stmts[0], false), PopTop), stmts[1..]);
    }
  }

  lemma {:induction false} FirstOfBody(s: Stream, stmts: seq<Node>)
    ensures Body(s, stmts) ==
            if stmts == [] then Put(s, SelfReturn) else Body(Put(PutNode(s, stmts[0], false), PopTop), stmts[1..])
  {
    hide GenNode, TrackNode, Assemble, Encode, GenBody, TrackStatements;
    if stmts == [] {
      EmptyBody(s);
    } else {
      var g, t := GenNode(stmts[0], false, |s.code|, s.literals), TrackNode(stmts[0], s.count);
      AddPut(s, g, t, PopTop);
      BodyCode(s, stmts);
      var rest := GenBody(stmts[1..], |s.code| + Len(g.code) + 1, g.lits);
      AddAdd(s, Gen(g.code + [PopTop], g.lits, g.sites), t, rest, TrackStatements(stmts[1..], t));
    }
  }

  lemma {:induction false} EmptyBody(s: Stream)
    ensures Body(s, []) == Put(s, SelfReturn)
  {
    AssembleOne(SelfReturn);
    hide Assemble, Encode;
  }

  lemma {:induction false} BodyCode(s: Stream, stmts: seq<Node>)
    requires stmts != []
    ensures var g, t := GenNode(stmts[0], false, |s.code|, s.literals), TrackNode(stmts[0], s.count);
            var rest := GenBody(stmts[1..], |s.code| + Len(g.code) + 1, g.lits);
            && Body(s, stmts) == Add(s, Gen(g.code + [PopTop] + rest.code, rest.lits, g.sites + rest.sites), TrackStatements(stmts[1..], t))
            && Len(g.code + [PopTop]) == Len(g.code) + 1
  {
    hide GenNode, TrackNode, Assemble;
    var g := GenNode(stmts[0], false, |s.code|, s.literals);
    AssembleAppend(g.code, [PopTop]);
    AssembleOne(PopTop);
  }

  // ---- Jumps ---------------------------------------------------------------------------------------

  predicate Jump(i: Instr) {
    i.Branch? || i.BranchIfTrue? || i.BranchIfFalse? || i.PushBlock?
  }

  /** A jump before its location is known. */
  function Opened(i: Instr): seq<byte> {
    OpBytes(HighLow(i).0, HighLow(i).1) + Location(0)
  }

  /** The location reached is put in the two bytes at loc, counted from 1. */
  function PatchBytes(code: seq<byte>, loc: nat): seq<byte> {
    if 1 <= loc < |code| then code[..loc - 1] + Location(|code|) + code[loc + 1..] else code
  }

  function PutOpen(s: Stream, i: Instr): Stream {
    s.(code := s.code + Opened(i))
  }

  function Patched(s: Stream, loc: nat): Stream {
    s.(code := PatchBytes(s.code, loc))
  }

  lemma {:induction false} PatchOne(pre: seq<byte>, op: seq<byte>, more: seq<byte>)
    ensures PatchBytes(pre + (op + Location(0)) + more, |pre + (op + Location(0))| - 1)
            == pre + (op + Location(|pre| + |op| + 2 + |more|)) + more
  {
    var code := pre + (op + Location(0)) + more;
    var loc := |pre| + |op| + 1;
    assert code[..loc - 1] == pre + op;
    assert code[loc + 1..] == more;
  }

  lemma {:induction false} Assoc(a: seq<byte>, b: seq<byte>, c: seq<byte>)
    ensures a + b + c == a + (b + c)
  {}

  lemma {:induction false} PatchFirst(c: seq<byte>, op: seq<byte>, m: seq<byte>, more: seq<byte>)
    ensures var c1 := c + (op + Location(0));
            var c3 := c1 + m + more;
            PatchBytes(c3, |c1| - 1) == c + (op + Location(|c3|)) + m + more && |c1| >= 2
  {
    LocationSize(0);
    PatchOne(c, op, m + more);
    hide PatchBytes, Location;
    var c1 := c + (op + Location(0));
    Assoc(c1, m, more);
    Assoc(c + (op + Location(|c1 + m + more|)), m, more);
  }

  /** Two jumps, each patched to where the code has come to. */
  lemma {:induction false} PatchTwo(c: seq<byte>, op1: seq<byte>, m: seq<byte>, op2: seq<byte>, d: seq<byte>)
    ensures var c1 := c + (op1 + Location(0));
            var c3 := c1 + m + (op2 + Location(0));
            var c5 := PatchBytes(c3, |c1| - 1) + d;
            && |c1| >= 2 && |c3| >= 2
            && PatchBytes(c5, |c3| - 1) == c + ((op1 + Location(|c3|)) + m + (op2 + Location(|c3| + |d|)) + d)
  {
    hide PatchBytes, Location;
    var zero := op2 + Location(0);
    var c3 := c + (op1 + Location(0)) + m + zero;
    var first, last := op1 + Location(|c3|), op2 + Location(|c3| + |d|);
    PatchFirst(c, op1, m, zero);
    LocationSize(0);
    LocationSize(|c3|);
    var x := c + first + m;
    PatchOne(x, op2, d);
    assert |x| + |op2| + 2 + |d| == |c3| + |d|;
    Assoc5(c, first, m, last, d);
  }

  lemma {:induction false} Assoc5(c: seq<byte>, a: seq<byte>, m: seq<byte>, b: seq<byte>, d: seq<byte>)
    ensures c + a + m + b + d == c + (a + m + b + d)
  {
    Assoc(c, a, m);
    Assoc(c, a + m, b);
    Assoc(c, a + m + b, d);
  }

  lemma {:induction false} LocationSize(v: nat)
    ensures |Location(v)| == 2
  {}

  lemma {:induction false} AssembleFour(a: Instr, m: seq<Instr>, c: Instr, d: seq<Instr>)
    ensures Assemble([a] + m + [c] + d) == Encode(a) + Assemble(m) + Encode(c) + Assemble(d)
  {
    AssembleOne(a);
    AssembleOne(c);
    hide Assemble, Encode;
    AssembleAppend([a], m);
    AssembleAppend([a] + m, [c]);
    AssembleAppend([a] + m + [c], d);
  }

  function JumpOp(i: Instr): seq<byte> {
    OpBytes(HighLow(i).0, HighLow(i).1)
  }

  /** The three-byte jumps: their opcode does not depend on the location. */
  lemma {:induction false} BranchBytes(i: Instr, j: Instr)
    requires (i.Branch? && j.Branch?) || (i.BranchIfTrue? && j.BranchIfTrue?) || (i.BranchIfFalse? && j.BranchIfFalse?)
    ensures Opened(i) == JumpOp(j) + Location(0) && Encode(j) == JumpOp(j) + Location(j.target) && |JumpOp(j)| == 1
  {}

  lemma {:induction false} ConstantSize(n: nat)
    requires n < 16
    ensures |Encode(PushConstant(n))| == 1 && Assemble([PushConstant(n)]) == Encode(PushConstant(n))
  {
    AssembleOne(PushConstant(n));
  }

  /** A stretch of code to be jumped over, a jump over what comes after it, and that; both jumps patched. */
  lemma {:induction false} GuardBytes(c: seq<byte>, skipOn: bool, m: seq<Instr>, d: seq<Instr>)
    ensures var other := |c| + 3 + Len(m) + 3;
            var c1 := c + Opened(BranchOn(skipOn, 0));
            var c3 := c1 + Assemble(m) + Opened(Branch(0));
            var c4 := PatchBytes(c3, |c1| - 1);
            && |c1| == |c| + 3 && |c4| == |c3| == other
            && PatchBytes(c4 + Assemble(d), |c3| - 1) == c + Assemble([BranchOn(skipOn, other)] + m + [Branch(other + Len(d))] + d)
  {
    hide Encode, Assemble, Opened, PatchBytes, Location, JumpOp;
    var other := |c| + 3 + Len(m) + 3;
    var test, exit := BranchOn(skipOn, other), Branch(other + Len(d));
    BranchBytes(BranchOn(skipOn, 0), test);
    BranchBytes(Branch(0), exit);
    LocationSize(0);
    AssembleFour(test, m, exit, d);
    PatchTwo(c, JumpOp(test), Assemble(m), JumpOp(exit), Assemble(d));
    var c1 := c + Opened(BranchOn(skipOn, 0));
    PatchSize(c1 + Assemble(m) + Opened(Branch(0)), |c1| - 1);
  }

  lemma {:induction false} PatchSize(code: seq<byte>, loc: nat)
    ensures |PatchBytes(code, loc)| == |code|
  {
    if 1 <= loc < |code| {
      LocationSize(|code|);
      hide Location;
      assert |code[..loc - 1]| + |code[loc + 1..]| == |code| - 2;
    }
  }

  /** What is added stays beyond what was there. */
  lemma {:induction false} StatementsGrow(s: Stream, stmts: seq<Node>, b: bool, i: Instr)
    ensures |PutStatements(s, stmts, b).code| >= |s.code|
    ensures |Put(PutStatements(s, stmts, b), i).code| > |s.code|
  {
    hide GenInline, TrackStatements, Encode;
    EncodeSize(i);
  }

  /** A block to be jumped over, and the jump over what comes after it. */
  ghost function Guarded(s: Stream, i: Instr, stmts: seq<Node>, b: bool): Stream {
    var s1 := PutOpen(s, i);
    if |s1.code| == 0 then s1 else Patched(PutOpen(PutStatements(s1, stmts, b), Branch(0)), |s1.code| - 1)
  }

  lemma {:induction false} GuardedSizes(s: Stream, i: Instr, stmts: seq<Node>, b: bool)
    requires i.BranchIfTrue? || i.BranchIfFalse?
    ensures var s1 := PutOpen(s, i);
            var s3 := PutOpen(PutStatements(s1, stmts, b), Branch(0));
            2 <= |s1.code| < |s3.code| && |Guarded(s, i, stmts, b).code| == |s3.code|
  {
    var s1 := PutOpen(s, i);
    BranchBytes(i, i);
    BranchBytes(Branch(0), Branch(0));
    LocationSize(0);
    StatementsGrow(s1, stmts, b, PopTop);
    PatchSize(PutOpen(PutStatements(s1, stmts, b), Branch(0)).code, |s1.code| - 1);
    hide PutStatements, Encode, PatchBytes, Opened, Location;
  }

  /** ifTrue: and its like: the jump over the block, the block, the jump over the constant, the constant. */
  lemma {:induction false} TestSteps(s: Stream, skipOn: bool, constant: nat, stmts: seq<Node>, b: bool)
    requires constant < 16
    ensures var s4 := Guarded(s, BranchOn(skipOn, 0), stmts, b);
            var s5 := Put(s4, PushConstant(constant));
            && 1 <= |s4.code| - 1 < |s5.code|
            && Patched(s5, |s4.code| - 1) == Add(s, GenTest(skipOn, constant, stmts, b, |s.code|, s.literals), TrackStatements(stmts, s.count))
  {
    hide Assemble, Encode, Opened, GenInline, TrackStatements, PatchBytes;
    GuardBytes(s.code, skipOn, GenInline(stmts, b, |s.code| + 3, s.literals).code, [PushConstant(constant)]);
    ConstantSize(constant);
  }

  /** ifTrue:ifFalse: */
  lemma {:induction false} IfSteps(s: Stream, args: seq<Node>, b: bool)
    requires |args| == 2 && args[0].Block? && args[1].Block?
    ensures var s4 := Guarded(s, BranchIfTrue(0), args[1].statements, b);
            var s5 := PutStatements(s4, args[0].statements, b);
            && 1 <= |s4.code| - 1
            && Patched(s5, |s4.code| - 1) ==
               Add(s, GenIf(args, b, |s.code|, s.literals), TrackStatements(args[0].statements, TrackStatements(args[1].statements, s.count)))
  {
    hide Assemble, Opened, GenInline, TrackStatements, PatchBytes;
    var f := GenInline(args[1].statements, b, |s.code| + 3, s.literals);
    var t := GenInline(args[0].statements, b, |s.code| + 3 + Len(f.code) + 3, f.lits);
    GuardBytes(s.code, true, f.code, t.code);
  }

  lemma {:induction false} WhileBytes(c: seq<byte>, skipOn: bool, cond: seq<Instr>, body: seq<Instr>, result: nat)
    ensures var exit := |c| + Len(cond) + 3 + Len(body) + 4;
            var c2 := c + Assemble(cond) + Opened(BranchOn(skipOn, 0));
            var c5 := c2 + Assemble(body) + Encode(PopTop) + Encode(Branch(|c|));
            && |c2| == |c| + Len(cond) + 3
            && PatchBytes(c5, |c2| - 1) + Encode(PushConstant(result)) ==
               c + Assemble(cond + [BranchOn(skipOn, exit)] + body + [PopTop, Branch(|c|)] + [PushConstant(result)])
  {
    hide Encode, Assemble, Opened, PatchBytes, Location, JumpOp;
    var exit := |c| + Len(cond) + 3 + Len(body) + 4;
    var test := BranchOn(skipOn, exit);
    BranchBytes(BranchOn(skipOn, 0), test);
    BranchBytes(Branch(0), Branch(|c|));
    AssembleFive(cond, test, body, PopTop, Branch(|c|), PushConstant(result));
    LocationSize(0);
    LocationSize(|c|);
    PopSize();
    WhilePatch(c, Assemble(cond), JumpOp(test), Assemble(body), Encode(PopTop) + Encode(Branch(|c|)), Encode(PushConstant(result)));
    var c2 := c + Assemble(cond) + Opened(BranchOn(skipOn, 0));
    Assoc(c2 + Assemble(body), Encode(PopTop), Encode(Branch(|c|)));
  }

  lemma {:induction false} PopSize()
    ensures |Encode(PopTop)| == 1
  {}

  lemma {:induction false} WhilePatch(c: seq<byte>, cond: seq<byte>, op: seq<byte>, body: seq<byte>, back: seq<byte>, nil: seq<byte>)
    ensures var c2 := c + cond + (op + Location(0));
            var c5 := c2 + body + back;
            && |c2| >= 2
            && PatchBytes(c5, |c2| - 1) + nil == c + (cond + (op + Location(|c5|)) + body + back + nil)
  {
    hide PatchBytes, Location;
    PatchFirst(c + cond, op, body, back);
    var c5 := c + cond + (op + Location(0)) + body + back;
    var first := op + Location(|c5|);
    Assoc5(c, cond, first, body, back);
    Assoc(c, cond + first + body + back, nil);
  }

  lemma {:induction false} AssembleFive(m: seq<Instr>, a: Instr, n: seq<Instr>, c: Instr, d: Instr, e: Instr)
    ensures Assemble(m + [a] + n + [c, d] + [e]) == Assemble(m) + Encode(a) + Assemble(n) + (Encode(c) + Encode(d)) + Encode(e)
  {
    AssembleOne(a);
    AssembleOne(c);
    AssembleOne(d);
    AssembleOne(e);
    hide Assemble, Encode;
    assert [c, d] == [c] + [d];
    AssembleAppend([c], [d]);
    AssembleAppend(m, [a]);
    AssembleAppend(m + [a], n);
    AssembleAppend(m + [a] + n, [c, d]);
    AssembleAppend(m + [a] + n + [c, d], [e]);
  }

  /** whileTrue: */
  lemma {:induction false} WhileSteps(s: Stream, n: Node, b: bool)
    requires IsWhile(n)
    ensures var s2 := PutOpen(PutStatements(s, n.receiver.statements, b), BranchIfFalse(0));
            var s5 := Put(Put(PutStatements(s2, n.arguments[0].statements, b), PopTop), Branch(|s.code|));
            && |s2.code| >= 2
            && Put(Patched(s5, |s2.code| - 1), PushConstant(NIL_CONST)) == PutNode(s, n, b)
  {
    hide Assemble, Encode, Opened, GenInline, TrackStatements, PatchBytes;
    var c := GenInline(n.receiver.statements, b, |s.code|, s.literals);
    var d := GenInline(n.arguments[0].statements, b, |s.code| + Len(c.code) + 3, c.lits);
    WhileBytes(s.code, false, c.code, d.code, NIL_CONST);
    assert GenNode(n, b, |s.code|, s.literals) == GenWhile(n, b, |s.code|, s.literals);
  }

  lemma {:induction false} BlockBytes(c: seq<byte>, tl: nat, m: seq<Instr>)
    ensures var entry := |c| + Len([PushBlock(tl, 0)]);
            var c1 := c + Opened(PushBlock(tl, 0));
            var c3 := c1 + Assemble(m) + Encode(StackReturn);
            && |c1| == entry && |c1| >= 2
            && PatchBytes(c3, |c1| - 1) == c + Assemble([PushBlock(tl, entry + Len(m) + 1)] + m + [StackReturn])
  {
    AssembleOne(PushBlock(tl, 0));
    var entry := |c| + Len([PushBlock(tl, 0)]);
    var push := PushBlock(tl, entry + Len(m) + 1);
    AssembleOne(push);
    AssembleOne(StackReturn);
    LocationSize(0);
    BlockOp(tl, push.target);
    hide Encode, Assemble, Opened, PatchBytes, Location, JumpOp;
    AssembleAppend([push], m);
    AssembleAppend([push] + m, [StackReturn]);
    PatchFirst(c, JumpOp(push), Assemble(m), Encode(StackReturn));
    Assoc(c, Encode(push), Assemble(m));
    Assoc(c, Encode(push) + Assemble(m), Encode(StackReturn));
  }

  lemma {:induction false} BlockOp(tl: nat, target: nat)
    ensures var i, j := PushBlock(tl, 0), PushBlock(tl, target);
            && Opened(i) == JumpOp(j) + Location(0) && Encode(j) == JumpOp(j) + Location(target) && Encode(i) == Opened(i)
            && |Encode(StackReturn)| == 1
  {}

  /** A block that is not compiled in line. */
  lemma {:induction false} BlockSteps(s: Stream, n: Node, b: bool)
    requires n.Block?
    ensures var s1 := PutOpen(s, PushBlock(n.temporaryLocation, 0));
            var s3 := Put(PutStatements(s1, n.statements, true), StackReturn);
            && |s1.code| >= 2
            && Patched(s3, |s1.code| - 1) == PutNode(s, n, b)
  {
    BlockBytes(s.code, n.temporaryLocation, GenInline(n.statements, true, |s.code| + Len([PushBlock(n.temporaryLocation, 0)]), s.literals).code);
    hide Assemble, Encode, Opened, GenInline, TrackStatements, PatchBytes;
  }
}
