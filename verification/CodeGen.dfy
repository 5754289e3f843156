/** The instructions the compiler produces for a parse tree, with every branch target in place.
    `at` is where the code starts (a byte position), `lits` the literals collected so far. */
module CodeGen {
  import opened Bytecode
  import opened Syntax
  import opened Values

  /** The code of a block that is not compiled in line: where it starts, and the literals before it. */
  datatype Site = Site(entry: nat, statements: seq<Node>, lits: seq<Value>)

  datatype Gen = Gen(code: seq<Instr>, lits: seq<Value>, sites: seq<Site>)

  function Len(code: seq<Instr>): nat {
    |Assemble(code)|
  }

  function IndexOf(s: seq<Value>, v: Value): (i: nat)
    ensures i < |s| ==> s[i] == v
    ensures i >= |s| ==> i == |s| && v !in s
  {
    if s == [] then 0 else if s[0] == v then 0 else 1 + IndexOf(s[1..], v)
  }

  /** genLiteral: a literal is entered once. */
  function WithLiteral(lits: seq<Value>, v: Value): seq<Value> {
    if v in lits then lits else lits + [v]
  }

  function Pred(n: nat): nat {
    if n == 0 then 0 else n - 1
  }

  function GenLiteralNode(v: Value, lits: seq<Value>): (g: Gen)
    ensures lits <= g.lits
  {
    if v == Nil then Gen([PushConstant(NIL_CONST)], lits, [])
    else if v == True then Gen([PushConstant(TRUE_CONST)], lits, [])
    else if v == False then Gen([PushConstant(FALSE_CONST)], lits, [])
    else if v.SmallInt? && 0 <= v.i < 10 then Gen([PushConstant(v.i)], lits, [])
    else Gen([PushLiteral(IndexOf(lits, v))], WithLiteral(lits, v), [])
  }

  function AssignTo(t: Node): Instr {
    if t.Instance? then AssignInstance(Pred(t.position))
    else AssignTemporary(if t.Temporary? then Pred(t.position) else 0)
  }

  function GenNode(n: Node, b: bool, at: nat, lits: seq<Value>): (g: Gen)
    ensures lits <= g.lits
    decreases n, 1
  {
    match n
    case Top => Gen([], lits, [])
    case Argument(p) => Gen([PushArgument(Pred(p))], lits, [])
    case Temporary(p) => Gen([PushTemporary(Pred(p))], lits, [])
    case Instance(p) => Gen([PushInstance(Pred(p))], lits, [])
    case Literal(v) => GenLiteralNode(v, lits)
    case Assign(t, e) =>
      var g := GenNode(e, b, at, lits);
      Gen(g.code + [AssignTo(t)], g.lits, g.sites)
    case Message(r, name, args) =>
      if r.Top? then GenSend(args, name, false, b, at, lits)
      else if IsWhile(n) then GenWhile(n, b, at, lits)
      else
        var g := GenNode(r, b, at, lits);
        var rest := if r.IsSuper() then GenSend(args, name, true, b, at + Len(g.code), g.lits)
                    else if name == "isNil" then Gen([SendUnary(0)], g.lits, [])
                    else if name == "notNil" then Gen([SendUnary(1)], g.lits, [])
                    else GenMessage(args, name, b, at + Len(g.code), g.lits);
        Gen(g.code + rest.code, rest.lits, g.sites + rest.sites)
    case Cascade(h, l) =>
      var g := GenNode(h, b, at, lits);
      var rest := GenCascade(l, b, at + Len(g.code), g.lits);
      Gen(g.code + rest.code, rest.lits, g.sites + rest.sites)
    case Primitive(number, args) =>
      var g := GenArgs(args, b, at, lits);
      Gen(g.code + [DoPrimitive(|args|, number)], g.lits, g.sites)
    case Block(tl, stmts) =>
      var entry := at + Len([PushBlock(tl, 0)]);
      var g := GenInline(stmts, true, entry, lits);
      Gen([PushBlock(tl, entry + Len(g.code) + 1)] + g.code + [StackReturn], g.lits, [Site(entry, stmts, lits)] + g.sites)
    case Return(e) =>
      var g := GenNode(e, b, at, lits);
      Gen(g.code + [if b then BlockReturn else StackReturn], g.lits, g.sites)
  }

  function BinaryIndex(name: string): nat {
    if name == "<" then 0 else if name == "<=" then 1 else 2
  }

  /** compile2: the receiver is on the stack. */
  function GenMessage(args: seq<Node>, name: string, b: bool, at: nat, lits: seq<Value>): (g: Gen)
    ensures lits <= g.lits
    decreases args, 2
  {
    if ArgumentsAreBlock(args) && |args| == 1 && name == "ifTrue:" then GenTest(false, NIL_CONST, args[0].statements, b, at, lits)
    else if ArgumentsAreBlock(args) && |args| == 1 && name == "ifFalse:" then GenTest(true, NIL_CONST, args[0].statements, b, at, lits)
    else if ArgumentsAreBlock(args) && |args| == 1 && name == "and:" then GenTest(false, FALSE_CONST, args[0].statements, b, at, lits)
    else if ArgumentsAreBlock(args) && |args| == 1 && name == "or:" then GenTest(true, TRUE_CONST, args[0].statements, b, at, lits)
    else if ArgumentsAreBlock(args) && |args| == 2 && name == "ifTrue:ifFalse:" then
      GenIf(args, b, at, lits)
    else if name in BINARY_NAMES then
      var g := GenArgs(args, b, at, lits);
      Gen(g.code + [SendBinary(BinaryIndex(name))], g.lits, g.sites)
    else GenSend(args, name, false, b, at, lits)
  }

  /** Arguments, the array for them and the receiver, and the send. */
  function GenSend(args: seq<Node>, name: string, super: bool, b: bool, at: nat, lits: seq<Value>): (g: Gen)
    ensures lits <= g.lits
    decreases args, 1
  {
    var g := GenArgs(args, b, at, lits);
    var k := IndexOf(g.lits, Symbol(name));
    Gen(g.code + [MarkArguments(1 + |args|), if super then SendToSuper(k) else SendMessage(k)], WithLiteral(g.lits, Symbol(name)), g.sites)
  }

  function GenArgs(args: seq<Node>, b: bool, at: nat, lits: seq<Value>): (g: Gen)
    ensures lits <= g.lits
    decreases args, 0
  {
    if args == [] then Gen([], lits, [])
    else
      var g := GenNode(args[0], b, at, lits);
      var rest := GenArgs(args[1..], b, at + Len(g.code), g.lits);
      Gen(g.code + rest.code, rest.lits, g.sites + rest.sites)
  }

  /** compileInLine: statements, each popped, except that backing up takes the last pop away. */
  function GenInline(stmts: seq<Node>, b: bool, at: nat, lits: seq<Value>): (g: Gen)
    ensures lits <= g.lits
    decreases stmts, 0
  {
    if stmts == [] then Gen([], lits, [])
    else
      var g := GenNode(stmts[0], b, at, lits);
      if |stmts| == 1 then g
      else
        var rest := GenInline(stmts[1..], b, at + Len(g.code) + 1, g.lits);
        Gen(g.code + [PopTop] + rest.code, rest.lits, g.sites + rest.sites)
  }

  /** ifTrue:, ifFalse:, and:, or: -- jump over the block when the receiver is `skipOn`, leaving a constant. */
  function GenTest(skipOn: bool, constant: nat, stmts: seq<Node>, b: bool, at: nat, lits: seq<Value>): (g: Gen)
    ensures lits <= g.lits
    decreases stmts, 1
  {
    var g := GenInline(stmts, b, at + 3, lits);
    var other := at + 3 + Len(g.code) + 3;
    Gen([BranchOn(skipOn, other)] + g.code + [Branch(other + 1)] + [PushConstant(constant)], g.lits, g.sites)
  }

  function BranchOn(value: bool, target: nat): Instr {
    if value then BranchIfTrue(target) else BranchIfFalse(target)
  }

  /** ifTrue:ifFalse: -- the false block comes first. */
  function GenIf(args: seq<Node>, b: bool, at: nat, lits: seq<Value>): (g: Gen)
    ensures lits <= g.lits
    requires |args| == 2 && args[0].Block? && args[1].Block?
    decreases args, 1
  {
    var f := GenInline(args[1].statements, b, at + 3, lits);
    var other := at + 3 + Len(f.code) + 3;
    var t := GenInline(args[0].statements, b, other, f.lits);
    Gen([BranchIfTrue(other)] + f.code + [Branch(other + Len(t.code))] + t.code, t.lits, f.sites + t.sites)
  }

  predicate IsWhile(n: Node) {
    n.Message? && n.receiver.Block? && n.name == "whileTrue:" && |n.arguments| == 1 && n.arguments[0].Block?
  }

  function GenWhile(n: Node, b: bool, at: nat, lits: seq<Value>): (g: Gen)
    ensures lits <= g.lits
    requires IsWhile(n)
    decreases n, 0
  {
    var c := GenInline(n.receiver.statements, b, at, lits);
    var inside := at + Len(c.code) + 3;
    var d := GenInline(n.arguments[0].statements, b, inside, c.lits);
    var exit := inside + Len(d.code) + 4;
    Gen(c.code + [BranchIfFalse(exit)] + d.code + [PopTop, Branch(at)] + [PushConstant(NIL_CONST)], d.lits, c.sites + d.sites)
  }

  function GenCascade(l: seq<Node>, b: bool, at: nat, lits: seq<Value>): (g: Gen)
    ensures lits <= g.lits
    decreases l, 0
  {
    if l == [] then Gen([], lits, [])
    else
      var g := GenNode(l[0], b, at + 1, lits);
      var rest := GenCascade(l[1..], b, at + 1 + Len(g.code) + 1, g.lits);
      Gen([Duplicate] + g.code + [PopTop] + rest.code, rest.lits, g.sites + rest.sites)
  }

  /** BodyNode: every statement popped, and a return of self at the end. */
  function GenBody(stmts: seq<Node>, at: nat, lits: seq<Value>): (g: Gen)
    ensures lits <= g.lits
    decreases stmts
  {
    if stmts == [] then Gen([SelfReturn], lits, [])
    else
      var g := GenNode(stmts[0], false, at, lits);
      var rest := GenBody(stmts[1..], at + Len(g.code) + 1, g.lits);
      Gen(g.code + [PopTop] + rest.code, rest.lits, g.sites + rest.sites)
  }

  /** A message, its receiver being on the stack. */
  function GenRest(n: Node, b: bool, at: nat, lits: seq<Value>): Gen
    requires n.Message?
  {
    if n.receiver.IsSuper() then GenSend(n.arguments, n.name, true, b, at, lits)
    else if n.name == "isNil" then Gen([SendUnary(0)], lits, [])
    else if n.name == "notNil" then Gen([SendUnary(1)], lits, [])
    else GenMessage(n.arguments, n.name, b, at, lits)
  }
}
