/** How high the stack gets while the code of a parse tree runs, counted from the height at its start. */
module StackDepth {
  import opened Syntax
  import opened CodeGen

  function Max(a: int, b: int): int {
    if a < b then b else a
  }

  /** Selectors whose block arguments are compiled in line, after the receiver. */
  predicate InLine(name: string, args: seq<Node>) {
    && ArgumentsAreBlock(args)
    && ((|args| == 1 && name in ["ifTrue:", "ifFalse:", "and:", "or:"]) || (|args| == 2 && name == "ifTrue:ifFalse:"))
  }

  function Peak(n: Node): nat
    decreases n, 1
  {
    match n
    case Assign(_, e) => Peak(e)
    case Message(r, name, args) =>
      if IsWhile(n) then Max(1, Max(PeakStatements(r.statements), PeakStatements(args[0].statements)))
      else if !r.Top? && !r.IsSuper() && (name == "isNil" || name == "notNil") then Max(1, Peak(r))
      else if !r.Top? && !r.IsSuper() && InLine(name, args) then
        Max(Max(1, Peak(r)), Max(PeakStatements(args[0].statements), if |args| == 2 then PeakStatements(args[1].statements) else 0))
      else Max(Max(1, Peak(r)), 1 + PeakArguments(args))
    case Cascade(h, l) => Max(Max(1, Peak(h)), PeakMessages(l))
    case Primitive(_, args) => Max(1, PeakArguments(args))
    case Return(e) => Peak(e)
    case _ => 1
  }

  /** Each argument stands above those before it. */
  function PeakArguments(args: seq<Node>): nat
    decreases args, 0
  {
    if args == [] then 0 else Max(Peak(args[0]), 1 + PeakArguments(args[1..]))
  }

  function PeakStatements(stmts: seq<Node>): nat
    decreases stmts, 0
  {
    if stmts == [] then 0 else Max(Peak(stmts[0]), PeakStatements(stmts[1..]))
  }

  /** Each message works on a copy of the head. */
  function PeakMessages(l: seq<Node>): nat
    decreases l, 0
  {
    if l == [] then 0 else Max(1 + Peak(l[0]), PeakMessages(l[1..]))
  }

  lemma {:induction false} PeakPositive(n: Node)
    ensures Peak(n) >= 1
    decreases n
  {
    match n
    case Assign(_, e) => PeakPositive(e);
    case Return(e) => PeakPositive(e);
    case _ =>
  }

  lemma {:induction false} PeakArgumentsCount(args: seq<Node>)
    ensures PeakArguments(args) >= |args|
    decreases args
  {
    if args != [] {
      PeakPositive(args[0]);
      PeakArgumentsCount(args[1..]);
    }
  }

  /** A message, its receiver being on the stack. */
  function PeakRest(name: string, args: seq<Node>): nat {
    if InLine(name, args)
    then Max(1, Max(PeakStatements(args[0].statements), if |args| == 2 then PeakStatements(args[1].statements) else 0))
    else 1 + PeakArguments(args)
  }
}
