/** Where the code of blocks stands: after the PushBlock that makes the block, wherever in the method that is. */
module Blocks {
  import opened Bytecode
  import opened Syntax
  import opened Values
  import opened CodeGen
  import opened Machine
  import opened StackDepth
  import opened Simulation

  ghost predicate Placed(p: Program, s: Site) {
    var g := GenInline(s.statements, true, s.entry, s.lits);
    && s.statements != [] && AllClosed(s.statements)
    && GenAt(p, s.entry, g) && CodeAt(p, s.entry + Len(g.code), [StackReturn])
  }

  ghost predicate AllPlaced(p: Program, sites: seq<Site>) {
    forall s | s in sites :: Placed(p, s)
  }

  lemma {:induction false} PlacedJoin(p: Program, a: seq<Site>, b: seq<Site>)
    requires AllPlaced(p, a) && AllPlaced(p, b)
    ensures AllPlaced(p, a + b)
  {
    hide Placed;
  }

  lemma {:induction false} PlacedNode(p: Program, n: Node, open: bool, b: bool, at: nat, lits: seq<Value>)
    requires (if open then n.Top? || Open(n) else Closed(n)) && GenAt(p, at, GenNode(n, b, at, lits))
    ensures AllPlaced(p, GenNode(n, b, at, lits).sites)
    decreases n, 3
  {
    match n
    case Assign(_, e) => PlacedAssign(p, n, b, at, lits);
    case Message(_, _, _) => PlacedMessage(p, n, open, b, at, lits);
    case Cascade(_, _) => PlacedCascade(p, n, b, at, lits);
    case Primitive(_, _) => PlacedPrimitive(p, n, b, at, lits);
    case Block(_, _) => PlacedBlock(p, n, b, at, lits);
    case Return(_) => PlacedReturn(p, n, b, at, lits);
    case Literal(_) => hide Placed; assert GenNode(n, b, at, lits).sites == [];
    case _ => hide Placed; assert GenNode(n, b, at, lits).sites == [];
  }

  lemma {:induction false} PlacedAssign(p: Program, n: Node, b: bool, at: nat, lits: seq<Value>)
    requires n.Assign? && Closed(n) && GenAt(p, at, GenNode(n, b, at, lits))
    ensures AllPlaced(p, GenNode(n, b, at, lits).sites)
    decreases n, 2
  {
    hide CodeAt, Len, AllPlaced;
    CodeAtSplit(p, at, GenNode(n.expression, b, at, lits).code, [AssignTo(n.target)]);
    PlacedNode(p, n.expression, false, b, at, lits);
  }

  lemma {:induction false} PlacedReturn(p: Program, n: Node, b: bool, at: nat, lits: seq<Value>)
    requires n.Return? && Closed(n) && GenAt(p, at, GenNode(n, b, at, lits))
    ensures AllPlaced(p, GenNode(n, b, at, lits).sites)
    decreases n, 2
  {
    hide CodeAt, Len, AllPlaced;
    CodeAtSplit(p, at, GenNode(n.expression, b, at, lits).code, [if b then BlockReturn else StackReturn]);
    PlacedNode(p, n.expression, false, b, at, lits);
  }

  lemma {:induction false} PlacedPrimitive(p: Program, n: Node, b: bool, at: nat, lits: seq<Value>)
    requires n.Primitive? && Closed(n) && GenAt(p, at, GenNode(n, b, at, lits))
    ensures AllPlaced(p, GenNode(n, b, at, lits).sites)
    decreases n, 2
  {
    hide CodeAt, Len, AllPlaced;
    CodeAtSplit(p, at, GenArgs(n.arguments, b, at, lits).code, [DoPrimitive(|n.arguments|, n.number)]);
    PlacedArgs(p, n.arguments, b, at, lits);
  }

  lemma {:induction false} PlacedArgs(p: Program, args: seq<Node>, b: bool, at: nat, lits: seq<Value>)
    requires AllClosed(args) && GenAt(p, at, GenArgs(args, b, at, lits))
    ensures AllPlaced(p, GenArgs(args, b, at, lits).sites)
    decreases args, 0
  {
    hide CodeAt, Len, Placed, GenNode, Closed;
    if args != [] {
      var g := GenNode(args[0], b, at, lits);
      var rest := GenArgs(args[1..], b, at + Len(g.code), g.lits);
      CodeAtSplit(p, at, g.code, rest.code);
      PlacedNode(p, args[0], false, b, at, lits);
      PlacedArgs(p, args[1..], b, at + Len(g.code), g.lits);
      PlacedJoin(p, g.sites, rest.sites);
    }
  }

  lemma {:induction false} PlacedSend(p: Program, args: seq<Node>, name: string, super: bool, b: bool, at: nat, lits: seq<Value>)
    requires AllClosed(args) && GenAt(p, at, GenSend(args, name, super, b, at, lits))
    ensures AllPlaced(p, GenSend(args, name, super, b, at, lits).sites)
    decreases args, 1
  {
    hide CodeAt, Len, AllPlaced, IndexOf, WithLiteral, GenArgs;
    var g := GenArgs(args, b, at, lits);
    var k := IndexOf(g.lits, Symbol(name));
    LiteralPrefix(g.lits, Symbol(name));
    CodeAtSplit(p, at, g.code, [MarkArguments(1 + |args|), if super then SendToSuper(k) else SendMessage(k)]);
    PlacedArgs(p, args, b, at, lits);
  }

  lemma {:induction false} PlacedBlock(p: Program, n: Node, b: bool, at: nat, lits: seq<Value>)
    requires n.Block? && Closed(n) && GenAt(p, at, GenNode(n, b, at, lits))
    ensures AllPlaced(p, GenNode(n, b, at, lits).sites)
    decreases n, 2
  {
    var entry := at + Len([PushBlock(n.temporaryLocation, 0)]);
    var g, s := GenInline(n.statements, true, entry, lits), Site(entry, n.statements, lits);
    BlockParts(p, n, b, at, lits);
    hide CodeAt, Len, GenInline, AllClosed, GenNode, Placed, AllPlaced;
    PlacedInline(p, n.statements, true, entry, lits);
    PlacedOne(p, s);
    PlacedJoin(p, [s], g.sites);
  }

  lemma {:induction false} PlacedOne(p: Program, s: Site)
    requires Placed(p, s)
    ensures AllPlaced(p, [s])
  {
    hide Placed;
  }

  lemma {:induction false} BlockParts(p: Program, n: Node, b: bool, at: nat, lits: seq<Value>)
    requires n.Block? && Closed(n) && GenAt(p, at, GenNode(n, b, at, lits))
    ensures var entry := at + Len([PushBlock(n.temporaryLocation, 0)]);
            var g, s := GenInline(n.statements, true, entry, lits), Site(entry, n.statements, lits);
            && AllClosed(n.statements) && GenAt(p, entry, g) && Placed(p, s) && GenNode(n, b, at, lits).sites == [s] + g.sites
  {
    var entry := at + Len([PushBlock(n.temporaryLocation, 0)]);
    var g := GenInline(n.statements, true, entry, lits);
    var push := PushBlock(n.temporaryLocation, entry + Len(g.code) + 1);
    LenOne(PushBlock(n.temporaryLocation, 0));
    LenOne(push);
    hide CodeAt, Len, GenInline, AllClosed, Encode;
    CodeAtSplit3(p, at, [push], g.code, [StackReturn]);
  }

  lemma {:induction false} PlacedInline(p: Program, stmts: seq<Node>, b: bool, at: nat, lits: seq<Value>)
    requires AllClosed(stmts) && GenAt(p, at, GenInline(stmts, b, at, lits))
    ensures AllPlaced(p, GenInline(stmts, b, at, lits).sites)
    decreases stmts, 0
  {
    hide CodeAt, Len, Placed, GenNode, Closed;
    if stmts != [] {
      var g := GenNode(stmts[0], b, at, lits);
      if |stmts| > 1 {
        JumpSizes(0, true, 0);
        var rest := GenInline(stmts[1..], b, at + Len(g.code) + 1, g.lits);
        CodeAtSplit3(p, at, g.code, [PopTop], rest.code);
        PlacedInline(p, stmts[1..], b, at + Len(g.code) + 1, g.lits);
        PlacedNode(p, stmts[0], false, b, at, lits);
        PlacedJoin(p, g.sites, rest.sites);
      } else {
        PlacedNode(p, stmts[0], false, b, at, lits);
      }
    }
  }

  lemma {:induction false} PlacedTest(p: Program, skipOn: bool, constant: nat, stmts: seq<Node>, b: bool, at: nat, lits: seq<Value>)
    requires constant < 16 && AllClosed(stmts) && GenAt(p, at, GenTest(skipOn, constant, stmts, b, at, lits))
    ensures AllPlaced(p, GenTest(skipOn, constant, stmts, b, at, lits).sites)
    decreases stmts, 1
  {
    hide CodeAt, Len, AllPlaced, GenInline, AllClosed;
    var g := GenInline(stmts, b, at + 3, lits);
    var other := at + 3 + Len(g.code) + 3;
    JumpSizes(other, skipOn, constant);
    CodeAtSplit(p, at, [BranchOn(skipOn, other)] + g.code + [Branch(other + 1)], [PushConstant(constant)]);
    CodeAtSplit3(p, at, [BranchOn(skipOn, other)], g.code, [Branch(other + 1)]);
    PlacedInline(p, stmts, b, at + 3, lits);
  }

  lemma {:induction false} PlacedIf(p: Program, args: seq<Node>, b: bool, at: nat, lits: seq<Value>)
    requires |args| == 2 && args[0].Block? && args[1].Block? && AllClosed(args[0].statements) && AllClosed(args[1].statements)
    requires GenAt(p, at, GenIf(args, b, at, lits))
    ensures AllPlaced(p, GenIf(args, b, at, lits).sites)
    decreases args, 1
  {
    hide CodeAt, Len, Placed, GenInline, AllClosed;
    var f := GenInline(args[1].statements, b, at + 3, lits);
    var other := at + 3 + Len(f.code) + 3;
    var t := GenInline(args[0].statements, b, other, f.lits);
    JumpSizes(other, true, 0);
    JumpSizes(other + Len(t.code), true, 0);
    CodeAtSplit(p, at, [BranchIfTrue(other)] + f.code + [Branch(other + Len(t.code))], t.code);
    CodeAtSplit3(p, at, [BranchIfTrue(other)], f.code, [Branch(other + Len(t.code))]);
    PlacedInline(p, args[1].statements, b, at + 3, lits);
    PlacedInline(p, args[0].statements, b, other, f.lits);
    PlacedJoin(p, f.sites, t.sites);
  }

  lemma {:induction false} PlacedWhile(p: Program, n: Node, b: bool, at: nat, lits: seq<Value>)
    requires GoodLoop(n) && GenAt(p, at, GenWhile(n, b, at, lits))
    ensures AllPlaced(p, GenWhile(n, b, at, lits).sites)
    decreases n, 1
  {
    hide CodeAt, Len, Placed, GenInline, AllClosed;
    var c := GenInline(n.receiver.statements, b, at, lits);
    var inside := at + Len(c.code) + 3;
    WhileParts(p, n, b, at, lits);
    PlacedInline(p, n.receiver.statements, b, at, lits);
    PlacedInline(p, n.arguments[0].statements, b, inside, c.lits);
    PlacedJoin(p, c.sites, GenInline(n.arguments[0].statements, b, inside, c.lits).sites);
  }

  lemma {:induction false} PlacedRest(p: Program, args: seq<Node>, name: string, b: bool, at: nat, lits: seq<Value>)
    requires AllClosed(args) && GenAt(p, at, GenMessage(args, name, b, at, lits))
    ensures AllPlaced(p, GenMessage(args, name, b, at, lits).sites)
    decreases args, 2
  {
    hide CodeAt, Len, AllPlaced, GenTest, GenIf, GenSend, GenArgs, AllClosed;
    if InLine(name, args) {
      InLineBlocks(args, name);
      if |args| == 2 {
        PlacedIf(p, args, b, at, lits);
      } else {
        var skipOn := name == "ifFalse:" || name == "or:";
        var constant := if name == "and:" then FALSE_CONST else if name == "or:" then TRUE_CONST else NIL_CONST;
        PlacedTest(p, skipOn, constant, args[0].statements, b, at, lits);
      }
    } else if name in BINARY_NAMES {
      CodeAtSplit(p, at, GenArgs(args, b, at, lits).code, [SendBinary(BinaryIndex(name))]);
      PlacedArgs(p, args, b, at, lits);
    } else {
      PlacedSend(p, args, name, false, b, at, lits);
    }
  }

  lemma {:induction false} PlacedMessage(p: Program, n: Node, open: bool, b: bool, at: nat, lits: seq<Value>)
    requires n.Message? && (if open then Open(n) else Closed(n)) && GenAt(p, at, GenNode(n, b, at, lits))
    ensures AllPlaced(p, GenNode(n, b, at, lits).sites)
    decreases n, 2
  {
    hide CodeAt, Len, Placed, GenMessage, GenSend, GenWhile;
    if n.receiver.Top? {
      PlacedSend(p, n.arguments, n.name, false, b, at, lits);
    } else if IsWhile(n) {
      assert !Open(n);
      LoopBlocks(n);
      PlacedWhile(p, n, b, at, lits);
    } else {
      MessageCode(p, n, b, at, lits);
      var g := GenNode(n.receiver, b, at, lits);
      PlacedNode(p, n.receiver, open, b, at, lits);
      PlacedAnswer(p, n, b, at + Len(g.code), g.lits);
      PlacedJoin(p, g.sites, GenRest(n, b, at + Len(g.code), g.lits).sites);
    }
  }

  lemma {:induction false} MessageCode(p: Program, n: Node, b: bool, at: nat, lits: seq<Value>)
    requires n.Message? && !IsWhile(n) && !n.receiver.Top? && GenAt(p, at, GenNode(n, b, at, lits))
    ensures var g := GenNode(n.receiver, b, at, lits);
            var rest := GenRest(n, b, at + Len(g.code), g.lits);
            && GenAt(p, at, g) && GenAt(p, at + Len(g.code), rest)
            && GenNode(n, b, at, lits).sites == g.sites + rest.sites
  {
    hide CodeAt, Len, GenMessage, GenSend;
    var g := GenNode(n.receiver, b, at, lits);
    var rest := GenRest(n, b, at + Len(g.code), g.lits);
    assert GenNode(n, b, at, lits) == Gen(g.code + rest.code, rest.lits, g.sites + rest.sites);
    assert g.lits <= rest.lits;
    hide GenNode, GenRest;
    CodeAtSplit(p, at, g.code, rest.code);
  }

  lemma {:induction false} PlacedAnswer(p: Program, n: Node, b: bool, at: nat, lits: seq<Value>)
    requires n.Message? && AllClosed(n.arguments) && GenAt(p, at, GenRest(n, b, at, lits))
    ensures AllPlaced(p, GenRest(n, b, at, lits).sites)
    decreases n, 1
  {
    hide CodeAt, Len, Placed, GenMessage, GenSend, AllClosed;
    if n.receiver.IsSuper() {
      PlacedSend(p, n.arguments, n.name, true, b, at, lits);
    } else if n.name != "isNil" && n.name != "notNil" {
      PlacedRest(p, n.arguments, n.name, b, at, lits);
    }
  }

  lemma {:induction false} PlacedCascade(p: Program, n: Node, b: bool, at: nat, lits: seq<Value>)
    requires n.Cascade? && Closed(n) && GenAt(p, at, GenNode(n, b, at, lits))
    ensures AllPlaced(p, GenNode(n, b, at, lits).sites)
    decreases n, 2
  {
    hide CodeAt, Len, Placed, GenCascade, AllOpen;
    var g := GenNode(n.head, b, at, lits);
    var rest := GenCascade(n.list, b, at + Len(g.code), g.lits);
    CodeAtSplit(p, at, g.code, rest.code);
    PlacedNode(p, n.head, false, b, at, lits);
    PlacedMessages(p, n.list, b, at + Len(g.code), g.lits);
    PlacedJoin(p, g.sites, rest.sites);
  }

  lemma {:induction false} PlacedMessages(p: Program, l: seq<Node>, b: bool, at: nat, lits: seq<Value>)
    requires AllOpen(l) && GenAt(p, at, GenCascade(l, b, at, lits))
    ensures AllPlaced(p, GenCascade(l, b, at, lits).sites)
    decreases l, 0
  {
    hide Open, AllOpen, Len, CodeAt, GenNode, GenCascade, AllPlaced;
    if l == [] {
      NoMessage(p, b, at, lits);
    } else {
      MessagesTree(l);
      MessagesCode(p, l, b, at, lits, []);
      MessagesSites(l, b, at, lits);
      var g := GenNode(l[0], b, at + 1, lits);
      var after := at + 1 + Len(g.code);
      PlacedNode(p, l[0], true, b, at + 1, lits);
      PlacedMessages(p, l[1..], b, after + 1, g.lits);
      PlacedJoin(p, g.sites, GenCascade(l[1..], b, after + 1, g.lits).sites);
    }
  }

  lemma {:induction false} NoMessage(p: Program, b: bool, at: nat, lits: seq<Value>)
    ensures AllPlaced(p, GenCascade([], b, at, lits).sites)
  {}

  lemma {:induction false} MessagesSites(l: seq<Node>, b: bool, at: nat, lits: seq<Value>)
    requires l != []
    ensures var g := GenNode(l[0], b, at + 1, lits);
            GenCascade(l, b, at, lits).sites == g.sites + GenCascade(l[1..], b, at + 1 + Len(g.code) + 1, g.lits).sites
  {
    hide GenNode, Len;
  }

  lemma {:induction false} PlacedBody(p: Program, stmts: seq<Node>, at: nat, lits: seq<Value>)
    requires AllClosed(stmts) && GenAt(p, at, GenBody(stmts, at, lits))
    ensures AllPlaced(p, GenBody(stmts, at, lits).sites)
    decreases stmts
  {
    hide CodeAt, Len, Placed, GenNode, Closed;
    if stmts != [] {
      var g := GenNode(stmts[0], false, at, lits);
      var rest := GenBody(stmts[1..], at + Len(g.code) + 1, g.lits);
      JumpSizes(0, true, 0);
      CodeAtSplit3(p, at, g.code, [PopTop], rest.code);
      PlacedNode(p, stmts[0], false, false, at, lits);
      PlacedBody(p, stmts[1..], at + Len(g.code) + 1, g.lits);
      PlacedJoin(p, g.sites, rest.sites);
    }
  }
}
