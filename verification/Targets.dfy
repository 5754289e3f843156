/** Every jump of compiled code, and the end of every block that PushBlock skips, is where an instruction
    starts (or where the code ends). */
module Targets {
  import opened Bytecode
  import opened Syntax
  import opened Values
  import opened CodeGen
  import opened Simulation

  predicate Jumps(i: Instr) {
    i.PushBlock? || i.Branch? || i.BranchIfTrue? || i.BranchIfFalse?
  }

  /** t is a boundary between instructions of code, which starts at `at`. */
  ghost predicate Boundary(code: seq<Instr>, at: nat, t: nat) {
    exists k {:trigger Len(code[..k])} :: 0 <= k <= |code| && t == at + Len(code[..k])
  }

  /** The jumps in `part` lead to boundaries of `whole`. */
  ghost predicate LandIn(whole: seq<Instr>, at: nat, part: seq<Instr>) {
    forall i | i in part && Jumps(i) :: Boundary(whole, at, i.target)
  }

  ghost predicate WellTargeted(g: Gen, at: nat) {
    LandIn(g.code, at, g.code)
  }

  lemma {:induction false} LenSum(a: seq<Instr>, b: seq<Instr>)
    ensures Len(a + b) == Len(a) + Len(b)
  {
    hide Encode, Assemble;
    AssembleAppend(a, b);
  }

  lemma {:induction false} JumpLen(i: Instr)
    requires i.Branch? || i.BranchIfTrue? || i.BranchIfFalse?
    ensures Len([i]) == 3
  {
    LenOne(i);
  }

  lemma {:induction false} ByteLen(i: Instr)
    requires (i.PushConstant? && i.n < 16) || i.PopTop? || i.Duplicate? || i.StackReturn?
    ensures Len([i]) == 1
  {
    LenOne(i);
  }

  /** Boundaries of a stretch of code are boundaries of the whole. */
  lemma {:induction false} BoundaryWithin(pre: seq<Instr>, mid: seq<Instr>, post: seq<Instr>, at: nat, t: nat)
    requires Boundary(mid, at + Len(pre), t)
    ensures Boundary(pre + mid + post, at, t)
  {
    hide Len;
    var k :| 0 <= k <= |mid| && t == at + Len(pre) + Len(mid[..k]);
    LenSum(pre, mid[..k]);
    assert (pre + mid + post)[..|pre| + k] == pre + mid[..k];
  }

  lemma {:induction false} LandWithin(pre: seq<Instr>, mid: seq<Instr>, post: seq<Instr>, at: nat, part: seq<Instr>)
    requires LandIn(mid, at + Len(pre), part)
    ensures LandIn(pre + mid + post, at, part)
  {
    hide Len, Boundary;
    forall i | i in part && Jumps(i) ensures Boundary(pre + mid + post, at, i.target) {
      BoundaryWithin(pre, mid, post, at, i.target);
    }
  }

  /** The boundary between two stretches. */
  lemma {:induction false} Between(a: seq<Instr>, b: seq<Instr>, at: nat)
    ensures Boundary(a + b, at, at + Len(a))
  {
    hide Len;
    assert (a + b)[..|a|] == a;
  }

  lemma {:induction false} Joined(a: seq<Instr>, b: seq<Instr>, at: nat)
    requires LandIn(a, at, a) && LandIn(b, at + Len(a), b)
    ensures LandIn(a + b, at, a + b)
  {
    assert Len([]) == 0;
    hide Len, Boundary;
    assert [] + a + b == a + b && a + b + [] == a + b;
    LandWithin([], a, b, at, a);
    LandWithin(a, b, [], at, b);
  }

  lemma {:induction false} Straight(at: nat, code: seq<Instr>)
    requires forall i | i in code :: !Jumps(i)
    ensures LandIn(code, at, code)
  {}

  lemma {:induction false} LandSplit(whole: seq<Instr>, at: nat, a: seq<Instr>, b: seq<Instr>)
    requires LandIn(whole, at, a) && LandIn(whole, at, b)
    ensures LandIn(whole, at, a + b)
  {
    hide Boundary;
  }

  lemma {:induction false} LandOne(whole: seq<Instr>, at: nat, i: Instr)
    requires Jumps(i) ==> Boundary(whole, at, i.target)
    ensures LandIn(whole, at, [i])
  {
    hide Boundary;
  }

  /** first + mid + last, where the jumps of first and last lead to boundaries of the whole. */
  lemma {:induction false} Framed(first: seq<Instr>, mid: seq<Instr>, last: seq<Instr>, at: nat)
    requires LandIn(mid, at + Len(first), mid)
    requires LandIn(first + mid + last, at, first) && LandIn(first + mid + last, at, last)
    ensures LandIn(first + mid + last, at, first + mid + last)
  {
    hide Len, Boundary;
    LandWithin(first, mid, last, at, mid);
  }

  // ---- The compiler, one way of compiling after the other ------------------------------------------

  lemma {:induction false} NodeTargets(n: Node, b: bool, at: nat, lits: seq<Value>)
    ensures WellTargeted(GenNode(n, b, at, lits), at)
    decreases n, 3
  {
    match n
    case Assign(_, _) => AssignTargets(n, b, at, lits);
    case Message(_, _, _) => MessageTargets(n, b, at, lits);
    case Cascade(_, _) => CascadeTargets(n, b, at, lits);
    case Primitive(_, _) => PrimitiveTargets(n, b, at, lits);
    case Block(_, _) => BlockTargets(n, b, at, lits);
    case Return(_) => ReturnTargets(n, b, at, lits);
    case _ => hide Boundary; Straight(at, GenNode(n, b, at, lits).code);
  }

  lemma {:induction false} AssignTargets(n: Node, b: bool, at: nat, lits: seq<Value>)
    requires n.Assign?
    ensures WellTargeted(GenNode(n, b, at, lits), at)
    decreases n, 2
  {
    hide Len, LandIn;
    var g := GenNode(n.expression, b, at, lits);
    NodeTargets(n.expression, b, at, lits);
    Straight(at + Len(g.code), [AssignTo(n.target)]);
    Joined(g.code, [AssignTo(n.target)], at);
  }

  lemma {:induction false} ReturnTargets(n: Node, b: bool, at: nat, lits: seq<Value>)
    requires n.Return?
    ensures WellTargeted(GenNode(n, b, at, lits), at)
    decreases n, 2
  {
    hide Len, LandIn;
    var g := GenNode(n.expression, b, at, lits);
    var i := if b then BlockReturn else StackReturn;
    NodeTargets(n.expression, b, at, lits);
    Straight(at + Len(g.code), [i]);
    Joined(g.code, [i], at);
  }

  lemma {:induction false} PrimitiveTargets(n: Node, b: bool, at: nat, lits: seq<Value>)
    requires n.Primitive?
    ensures WellTargeted(GenNode(n, b, at, lits), at)
    decreases n, 2
  {
    hide Len, LandIn;
    var g := GenArgs(n.arguments, b, at, lits);
    var i := DoPrimitive(|n.arguments|, n.number);
    ArgsTargets(n.arguments, b, at, lits);
    Straight(at + Len(g.code), [i]);
    Joined(g.code, [i], at);
  }

  lemma {:induction false} ArgsTargets(args: seq<Node>, b: bool, at: nat, lits: seq<Value>)
    ensures WellTargeted(GenArgs(args, b, at, lits), at)
    decreases args, 0
  {
    hide Len, LandIn, GenNode, GenArgs;
    ArgsCode(args, b, at, lits);
    if args == [] {
      Straight(at, []);
    } else {
      var g := GenNode(args[0], b, at, lits);
      NodeTargets(args[0], b, at, lits);
      ArgsTargets(args[1..], b, at + Len(g.code), g.lits);
      Joined(g.code, GenArgs(args[1..], b, at + Len(g.code), g.lits).code, at);
    }
  }

  lemma {:induction false} ArgsCode(args: seq<Node>, b: bool, at: nat, lits: seq<Value>)
    ensures GenArgs(args, b, at, lits).code ==
            if args == [] then []
            else var g := GenNode(args[0], b, at, lits); g.code + GenArgs(args[1..], b, at + Len(g.code), g.lits).code
  {
    hide Len, GenNode;
  }

  lemma {:induction false} SendTargets(args: seq<Node>, name: string, super: bool, b: bool, at: nat, lits: seq<Value>)
    ensures WellTargeted(GenSend(args, name, super, b, at, lits), at)
    decreases args, 1
  {
    hide Len, LandIn, IndexOf, WithLiteral;
    var g := GenArgs(args, b, at, lits);
    var k := IndexOf(g.lits, Symbol(name));
    var tail := [MarkArguments(1 + |args|), if super then SendToSuper(k) else SendMessage(k)];
    ArgsTargets(args, b, at, lits);
    Straight(at + Len(g.code), tail);
    Joined(g.code, tail, at);
  }

  lemma {:induction false} BlockTargets(n: Node, b: bool, at: nat, lits: seq<Value>)
    requires n.Block?
    ensures WellTargeted(GenNode(n, b, at, lits), at)
    decreases n, 2
  {
    var tl := n.temporaryLocation;
    var entry := at + Len([PushBlock(tl, 0)]);
    var g := GenInline(n.statements, true, entry, lits);
    assert GenNode(n, b, at, lits).code == AroundBlock(tl, g.code, at);
    hide Len, GenNode, GenInline, LandIn, AroundBlock;
    InlineTargets(n.statements, true, entry, lits);
    BlockShape(tl, g.code, at);
  }

  function AroundBlock(tl: nat, code: seq<Instr>, at: nat): seq<Instr> {
    [PushBlock(tl, at + Len([PushBlock(tl, 0)]) + Len(code) + 1)] + code + [StackReturn]
  }

  /** The code of a block stands between PushBlock, which leads past it, and the return at its end. */
  lemma {:induction false} BlockShape(tl: nat, code: seq<Instr>, at: nat)
    requires LandIn(code, at + Len([PushBlock(tl, 0)]), code)
    ensures LandIn(AroundBlock(tl, code, at), at, AroundBlock(tl, code, at))
  {
    var push := PushBlock(tl, at + Len([PushBlock(tl, 0)]) + Len(code) + 1);
    LenOne(PushBlock(tl, 0));
    LenOne(push);
    ByteLen(StackReturn);
    hide Len, LandIn, Boundary;
    var whole := [push] + code + [StackReturn];
    LenSum([push] + code, [StackReturn]);
    LenSum([push], code);
    AtEnd(whole, at);
    LandOne(whole, at, push);
    LandOne(whole, at, StackReturn);
    Framed([push], code, [StackReturn], at);
  }

  lemma {:induction false} AtEnd(code: seq<Instr>, at: nat)
    ensures Boundary(code, at, at + Len(code)) && Boundary(code, at, at)
  {
    LenNothing();
    hide Len;
    assert code[..|code|] == code && code[..0] == [];
  }

  lemma {:induction false} InlineTargets(stmts: seq<Node>, b: bool, at: nat, lits: seq<Value>)
    ensures WellTargeted(GenInline(stmts, b, at, lits), at)
    decreases stmts, 0
  {
    hide Len, LandIn, GenNode, GenInline;
    InlineCode(stmts, b, at, lits);
    if stmts == [] {
      Straight(at, []);
    } else {
      var g := GenNode(stmts[0], b, at, lits);
      NodeTargets(stmts[0], b, at, lits);
      InlineTargets(stmts[1..], b, at + Len(g.code) + 1, g.lits);
      Popped(g.code, GenInline(stmts[1..], b, at + Len(g.code) + 1, g.lits).code, at);
    }
  }

  lemma {:induction false} InlineCode(stmts: seq<Node>, b: bool, at: nat, lits: seq<Value>)
    ensures GenInline(stmts, b, at, lits).code ==
            if stmts == [] then []
            else
              var g := GenNode(stmts[0], b, at, lits);
              if |stmts| == 1 then g.code else g.code + [PopTop] + GenInline(stmts[1..], b, at + Len(g.code) + 1, g.lits).code
  {
    hide Len, GenNode;
  }

  lemma {:induction false} Popped(a: seq<Instr>, rest: seq<Instr>, at: nat)
    requires LandIn(a, at, a) && LandIn(rest, at + Len(a) + 1, rest)
    ensures LandIn(a + [PopTop] + rest, at, a + [PopTop] + rest)
  {
    hide Len, LandIn;
    ByteLen(PopTop);
    Straight(at + Len(a), [PopTop]);
    Joined(a, [PopTop], at);
    LenSum(a, [PopTop]);
    Joined(a + [PopTop], rest, at);
  }

  lemma {:induction false} TestTargets(skipOn: bool, constant: nat, stmts: seq<Node>, b: bool, at: nat, lits: seq<Value>)
    requires constant < 16
    ensures WellTargeted(GenTest(skipOn, constant, stmts, b, at, lits), at)
    decreases stmts, 1
  {
    var g := GenInline(stmts, b, at + 3, lits);
    assert GenTest(skipOn, constant, stmts, b, at, lits).code == AroundTest(skipOn, constant, g.code, at);
    hide Len, GenInline, LandIn, GenTest, AroundTest;
    InlineTargets(stmts, b, at + 3, lits);
    TestShape(skipOn, constant, g.code, at);
  }

  function AroundTest(skipOn: bool, constant: nat, code: seq<Instr>, at: nat): seq<Instr> {
    var other := at + 3 + Len(code) + 3;
    [BranchOn(skipOn, other)] + code + [Branch(other + 1)] + [PushConstant(constant)]
  }

  /** A jump over a stretch of code to a constant, and one over the constant at its end. */
  lemma {:induction false} TestShape(skipOn: bool, constant: nat, code: seq<Instr>, at: nat)
    requires constant < 16 && LandIn(code, at + 3, code)
    ensures LandIn(AroundTest(skipOn, constant, code, at), at, AroundTest(skipOn, constant, code, at))
  {
    var other := at + 3 + Len(code) + 3;
    var test, exit, push := BranchOn(skipOn, other), Branch(other + 1), PushConstant(constant);
    var whole := [test] + code + [exit] + [push];
    TestBoundaries(test, code, exit, push, at);
    JumpLen(test);
    hide Len, LandIn, Boundary;
    LandOne(whole, at, test);
    LandOne(whole, at, exit);
    LandOne(whole, at, push);
    LandSplit(whole, at, [exit], [push]);
    assert whole == [test] + code + ([exit] + [push]);
    Framed([test], code, [exit] + [push], at);
  }

  lemma {:induction false} TestBoundaries(test: Instr, code: seq<Instr>, exit: Instr, push: Instr, at: nat)
    requires (test.BranchIfTrue? || test.BranchIfFalse?) && test.target == at + 3 + Len(code) + 3
    requires exit == Branch(test.target + 1) && push.PushConstant? && push.n < 16
    ensures var whole := [test] + code + [exit] + [push]; Boundary(whole, at, test.target) && Boundary(whole, at, exit.target)
  {
    JumpLen(test);
    JumpLen(exit);
    ByteLen(push);
    hide Len, Boundary;
    var before := [test] + code + [exit];
    LenSum([test], code);
    LenSum([test] + code, [exit]);
    LenSum(before, [push]);
    Between(before, [push], at);
    AtEnd(before + [push], at);
  }

  lemma {:induction false} IfTargets(args: seq<Node>, b: bool, at: nat, lits: seq<Value>)
    requires |args| == 2 && args[0].Block? && args[1].Block?
    ensures WellTargeted(GenIf(args, b, at, lits), at)
    decreases args, 1
  {
    var f := GenInline(args[1].statements, b, at + 3, lits);
    var other := at + 3 + Len(f.code) + 3;
    var t := GenInline(args[0].statements, b, other, f.lits);
    assert GenIf(args, b, at, lits).code == AroundIf(f.code, t.code, at);
    hide Len, GenInline, LandIn, GenIf, AroundIf;
    InlineTargets(args[1].statements, b, at + 3, lits);
    InlineTargets(args[0].statements, b, other, f.lits);
    IfShape(f.code, t.code, at);
  }

  function AroundIf(f: seq<Instr>, t: seq<Instr>, at: nat): seq<Instr> {
    var other := at + 3 + Len(f) + 3;
    [BranchIfTrue(other)] + f + [Branch(other + Len(t))] + t
  }

  /** Two stretches with a jump before each, as ifTrue:ifFalse: has them. */
  lemma {:induction false} IfShape(f: seq<Instr>, t: seq<Instr>, at: nat)
    requires LandIn(f, at + 3, f) && LandIn(t, at + 3 + Len(f) + 3, t)
    ensures LandIn(AroundIf(f, t, at), at, AroundIf(f, t, at))
  {
    var other := at + 3 + Len(f) + 3;
    var exit := other + Len(t);
    var skip, leave := BranchIfTrue(other), Branch(exit);
    var whole := [skip] + f + [leave] + t;
    IfBoundaries(f, t, at, skip, leave);
    JumpLen(skip);
    JumpLen(leave);
    hide Len, LandIn, Boundary;
    LandOne(whole, at, skip);
    LandOne(whole, at, leave);
    LenSum([skip], f);
    LenSum([skip] + f, [leave]);
    assert whole + [] == whole && whole == [skip] + f + ([leave] + t);
    LandWithin([skip] + f + [leave], t, [], at, t);
    LandSplit(whole, at, [leave], t);
    Framed([skip], f, [leave] + t, at);
  }

  lemma {:induction false} IfBoundaries(f: seq<Instr>, t: seq<Instr>, at: nat, skip: Instr, leave: Instr)
    requires skip == BranchIfTrue(at + 3 + Len(f) + 3) && leave == Branch(at + 3 + Len(f) + 3 + Len(t))
    ensures Boundary([skip] + f + [leave] + t, at, skip.target) && Boundary([skip] + f + [leave] + t, at, leave.target)
  {
    JumpLen(skip);
    JumpLen(leave);
    hide Len, Boundary;
    var before := [skip] + f + [leave];
    LenSum([skip], f);
    LenSum([skip] + f, [leave]);
    LenSum(before, t);
    Between(before, t, at);
    AtEnd(before + t, at);
  }

  lemma {:induction false} WhileTargets(n: Node, b: bool, at: nat, lits: seq<Value>)
    requires IsWhile(n)
    ensures WellTargeted(GenWhile(n, b, at, lits), at)
    decreases n, 1
  {
    var c := GenInline(n.receiver.statements, b, at, lits);
    var inside := at + Len(c.code) + 3;
    var d := GenInline(n.arguments[0].statements, b, inside, c.lits);
    assert GenWhile(n, b, at, lits).code == AroundWhile(c.code, d.code, at);
    hide Len, GenInline, LandIn, GenWhile, AroundWhile;
    InlineTargets(n.receiver.statements, b, at, lits);
    InlineTargets(n.arguments[0].statements, b, inside, c.lits);
    WhileShape(c.code, d.code, at);
  }

  function AroundWhile(c: seq<Instr>, d: seq<Instr>, at: nat): seq<Instr> {
    c + [BranchIfFalse(at + Len(c) + 3 + Len(d) + 4)] + d + [PopTop, Branch(at)] + [PushConstant(NIL_CONST)]
  }

  /** A condition, a jump out, a body, and a jump back to the condition. */
  lemma {:induction false} WhileShape(c: seq<Instr>, d: seq<Instr>, at: nat)
    requires LandIn(c, at, c) && LandIn(d, at + Len(c) + 3, d)
    ensures LandIn(AroundWhile(c, d, at), at, AroundWhile(c, d, at))
  {
    var exit := at + Len(c) + 3 + Len(d) + 4;
    var test, back, nil := [BranchIfFalse(exit)], [PopTop, Branch(at)], [PushConstant(NIL_CONST)];
    var whole := c + test + d + back + nil;
    WhileBoundaries(c, test, d, back, nil, at);
    JumpLen(test[0]);
    hide Len, LandIn, Boundary;
    LandOne(whole, at, BranchIfFalse(exit));
    LandOne(whole, at, PopTop);
    LandOne(whole, at, Branch(at));
    LandOne(whole, at, PushConstant(NIL_CONST));
    assert back == [PopTop] + [Branch(at)];
    LandSplit(whole, at, [PopTop], [Branch(at)]);
    LandSplit(whole, at, back, nil);
    WhileInside(c, test, d, back + nil, at, whole);
  }

  lemma {:induction false} WhileBoundaries(c: seq<Instr>, test: seq<Instr>, d: seq<Instr>, back: seq<Instr>, nil: seq<Instr>, at: nat)
    requires test == [BranchIfFalse(at + Len(c) + 3 + Len(d) + 4)] && back == [PopTop, Branch(at)] && nil == [PushConstant(NIL_CONST)]
    ensures var whole := c + test + d + back + nil;
            Boundary(whole, at, test[0].target) && Boundary(whole, at, at)
  {
    JumpLen(test[0]);
    JumpLen(back[1]);
    ByteLen(PopTop);
    hide Len, Boundary;
    assert back == [PopTop] + [Branch(at)];
    LenSum([PopTop], [Branch(at)]);
    LenSum(c, test);
    LenSum(c + test, d);
    LenSum(c + test + d, back);
    Between(c + test + d + back, nil, at);
    AtEnd(c + test + d + back + nil, at);
  }

  lemma {:induction false} WhileInside(c: seq<Instr>, test: seq<Instr>, d: seq<Instr>, last: seq<Instr>, at: nat, whole: seq<Instr>)
    requires whole == c + test + d + last
    requires LandIn(c, at, c) && LandIn(d, at + Len(c) + Len(test), d) && LandIn(whole, at, test) && LandIn(whole, at, last)
    ensures LandIn(whole, at, whole)
  {
    LenNothing();
    LenSum(c, test);
    hide Len, LandIn, Boundary;
    assert [] + c + (test + d + last) == whole;
    LandWithin([], c, test + d + last, at, c);
    LandSplit(whole, at, c, test);
    Framed(c + test, d, last, at);
  }

  lemma {:induction false} RestTargets(args: seq<Node>, name: string, b: bool, at: nat, lits: seq<Value>)
    ensures WellTargeted(GenMessage(args, name, b, at, lits), at)
    decreases args, 2
  {
    hide LandIn, Len, GenTest, GenIf, GenSend;
    if ArgumentsAreBlock(args) && |args| == 1 && name in ["ifTrue:", "ifFalse:", "and:", "or:"] {
      var skipOn := name == "ifFalse:" || name == "or:";
      var constant := if name == "and:" then FALSE_CONST else if name == "or:" then TRUE_CONST else NIL_CONST;
      TestTargets(skipOn, constant, args[0].statements, b, at, lits);
    } else if ArgumentsAreBlock(args) && |args| == 2 && name == "ifTrue:ifFalse:" {
      IfTargets(args, b, at, lits);
    } else if name in BINARY_NAMES {
      var g := GenArgs(args, b, at, lits);
      ArgsTargets(args, b, at, lits);
      Straight(at + Len(g.code), [SendBinary(BinaryIndex(name))]);
      Joined(g.code, [SendBinary(BinaryIndex(name))], at);
    } else {
      SendTargets(args, name, false, b, at, lits);
    }
  }

  lemma {:induction false} MessageTargets(n: Node, b: bool, at: nat, lits: seq<Value>)
    requires n.Message?
    ensures WellTargeted(GenNode(n, b, at, lits), at)
    decreases n, 2
  {
    hide LandIn, Len, GenMessage, GenSend, GenWhile;
    if n.receiver.Top? {
      SendTargets(n.arguments, n.name, false, b, at, lits);
    } else if IsWhile(n) {
      WhileTargets(n, b, at, lits);
    } else {
      var g := GenNode(n.receiver, b, at, lits);
      var here := at + Len(g.code);
      var rest := GenRest(n, b, here, g.lits);
      NodeTargets(n.receiver, b, at, lits);
      SendTargets(n.arguments, n.name, true, b, here, g.lits);
      RestTargets(n.arguments, n.name, b, here, g.lits);
      Straight(here, [SendUnary(0)]);
      Straight(here, [SendUnary(1)]);
      Joined(g.code, rest.code, at);
    }
  }

  lemma {:induction false} CascadeTargets(n: Node, b: bool, at: nat, lits: seq<Value>)
    requires n.Cascade?
    ensures WellTargeted(GenNode(n, b, at, lits), at)
    decreases n, 2
  {
    hide LandIn, Len, GenCascade;
    var g := GenNode(n.head, b, at, lits);
    NodeTargets(n.head, b, at, lits);
    MessagesTargets(n.list, b, at + Len(g.code), g.lits);
    Joined(g.code, GenCascade(n.list, b, at + Len(g.code), g.lits).code, at);
  }

  lemma {:induction false} MessagesTargets(l: seq<Node>, b: bool, at: nat, lits: seq<Value>)
    ensures WellTargeted(GenCascade(l, b, at, lits), at)
    decreases l, 0
  {
    hide Len, LandIn, GenNode, GenCascade;
    CascadeCode(l, b, at, lits);
    if l == [] {
      Straight(at, []);
    } else {
      var g := GenNode(l[0], b, at + 1, lits);
      var rest := GenCascade(l[1..], b, at + 1 + Len(g.code) + 1, g.lits);
      NodeTargets(l[0], b, at + 1, lits);
      MessagesTargets(l[1..], b, at + 1 + Len(g.code) + 1, g.lits);
      MessageShape(g.code, rest.code, at);
    }
  }

  lemma {:induction false} CascadeCode(l: seq<Node>, b: bool, at: nat, lits: seq<Value>)
    ensures GenCascade(l, b, at, lits).code ==
            if l == [] then []
            else
              var g := GenNode(l[0], b, at + 1, lits);
              [Duplicate] + g.code + [PopTop] + GenCascade(l[1..], b, at + 1 + Len(g.code) + 1, g.lits).code
  {
    hide Len, GenNode;
  }

  lemma {:induction false} MessageShape(code: seq<Instr>, rest: seq<Instr>, at: nat)
    requires LandIn(code, at + 1, code) && LandIn(rest, at + 1 + Len(code) + 1, rest)
    ensures LandIn([Duplicate] + code + [PopTop] + rest, at, [Duplicate] + code + [PopTop] + rest)
  {
    ByteLen(Duplicate);
    hide Len, LandIn;
    Popped(code, rest, at + 1);
    Straight(at, [Duplicate]);
    Joined([Duplicate], code + [PopTop] + rest, at);
    assert [Duplicate] + (code + [PopTop] + rest) == [Duplicate] + code + [PopTop] + rest;
  }

  /** A whole method: all its jumps land on instructions, and its bytes decode to its instructions. */
  lemma {:induction false} BodyTargets(stmts: seq<Node>, at: nat, lits: seq<Value>)
    ensures WellTargeted(GenBody(stmts, at, lits), at)
    decreases stmts
  {
    hide Len, LandIn, GenNode;
    if stmts == [] {
      Straight(at, [SelfReturn]);
    } else {
      var g := GenNode(stmts[0], false, at, lits);
      NodeTargets(stmts[0], false, at, lits);
      BodyTargets(stmts[1..], at + Len(g.code) + 1, g.lits);
      Popped(g.code, GenBody(stmts[1..], at + Len(g.code) + 1, g.lits).code, at);
    }
  }
}
