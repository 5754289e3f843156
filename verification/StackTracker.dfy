/** The encoder's own count of stack slots while it compiles (pushArgs: and popArgs:), and how it relates
    to the height the stack really reaches. */
module StackTracker {
  import opened Syntax
  import opened CodeGen
  import opened StackDepth

  datatype Tracker = Tracker(size: int, max: int)

  function PushArgs(t: Tracker, n: nat): Tracker {
    Tracker(t.size + n, Max(t.size + n, t.max))
  }

  function PopArgs(t: Tracker, n: nat): Tracker {
    Tracker(t.size - n, t.max)
  }

  function TrackNode(n: Node, t: Tracker): (r: Tracker)
    ensures r.size >= t.size && r.max >= t.max
    decreases n, 1
  {
    match n
    case Assign(_, e) => TrackNode(e, t)
    case Message(r, name, args) =>
      if r.Top? then TrackSend(args, false, t)
      else if IsWhile(n) then TrackStatements(args[0].statements, TrackStatements(r.statements, t))
      else
        var t1 := TrackNode(r, t);
        if r.IsSuper() then TrackSend(args, true, t1)
        else if name == "isNil" || name == "notNil" then t1
        else TrackMessage(args, name, t1)
    case Cascade(h, l) => TrackMessages(l, TrackNode(h, t))
    case Primitive(_, args) => PopArgs(TrackArgs(args, PushArgs(t, |args|)), |args|)
    case Block(_, stmts) => TrackStatements(stmts, t)
    case Return(e) => TrackNode(e, t)
    case _ => t
  }

  function TrackMessage(args: seq<Node>, name: string, t: Tracker): (r: Tracker)
    ensures r.size >= t.size && r.max >= t.max
    decreases args, 2
  {
    if InLine(name, args) then
      TrackStatements(args[0].statements, if |args| == 2 then TrackStatements(args[1].statements, t) else t)
    else TrackSend(args, name in BINARY_NAMES, t)
  }

  /** Sends to super and the binary instructions never take their slots back. */
  function TrackSend(args: seq<Node>, keeps: bool, t: Tracker): (r: Tracker)
    ensures r.size > t.size && r.max >= t.max && r.max >= t.size + 1 + |args|
    decreases args, 1
  {
    var t1 := TrackArgs(args, PushArgs(t, 1 + |args|));
    if keeps then t1 else PopArgs(t1, |args|)
  }

  function TrackArgs(args: seq<Node>, t: Tracker): (r: Tracker)
    ensures r.size >= t.size && r.max >= t.max
    decreases args, 0
  {
    if args == [] then t else TrackArgs(args[1..], TrackNode(args[0], t))
  }

  function TrackStatements(stmts: seq<Node>, t: Tracker): (r: Tracker)
    ensures r.size >= t.size && r.max >= t.max
    decreases stmts, 0
  {
    if stmts == [] then t else TrackStatements(stmts[1..], TrackNode(stmts[0], t))
  }

  function TrackMessages(l: seq<Node>, t: Tracker): (r: Tracker)
    ensures r.size >= t.size && r.max >= t.max
    decreases l, 0
  {
    if l == [] then t else TrackMessages(l[1..], TrackNode(l[0], t))
  }

  /** A fresh encoder. */
  const FRESH := Tracker(0, 1)

  /** The stack size the encoder asks for. */
  function MaxStack(stmts: seq<Node>): nat {
    TrackStatements(stmts, FRESH).max
  }

  // ---- When the count is high enough ---------------------------------------------------------------

  /** Compiling n leaves the count higher than it was: a message in it goes through evaluateArguments. */
  predicate Grows(n: Node)
    decreases n, 1
  {
    match n
    case Assign(_, e) => Grows(e)
    case Message(r, name, args) =>
      if r.Top? || r.IsSuper() then true
      else if IsWhile(n) then GrowsAny(r.statements) || GrowsAny(args[0].statements)
      else if name == "isNil" || name == "notNil" then Grows(r)
      else if InLine(name, args) then
        Grows(r) || GrowsAny(args[0].statements) || (|args| == 2 && GrowsAny(args[1].statements))
      else true
    case Cascade(h, l) => Grows(h) || GrowsAny(l)
    case Primitive(_, args) => GrowsAny(args)
    case Block(_, stmts) => GrowsAny(stmts)
    case Return(e) => Grows(e)
    case _ => false
  }

  predicate GrowsAny(ns: seq<Node>)
    decreases ns, 0
  {
    ns != [] && (Grows(ns[0]) || GrowsAny(ns[1..]))
  }

  /** Whenever a message of a cascade is compiled, the count exceeds the height below the cascade.
      `ahead` says that it does so already. */
  predicate Counted(n: Node, ahead: bool)
    decreases n, 1
  {
    match n
    case Assign(_, e) => Counted(e, ahead)
    case Message(r, name, args) =>
      if r.Top? then CountedArguments(args)
      else if IsWhile(n) then CountedStatements(r.statements, ahead) && CountedStatements(args[0].statements, ahead || GrowsAny(r.statements))
      else
        && Counted(r, ahead)
        && if r.IsSuper() then CountedArguments(args)
           else if name == "isNil" || name == "notNil" then true
           else CountedMessage(args, name, ahead || Grows(r))
    case Cascade(h, l) => Counted(h, ahead) && (l == [] || ((ahead || Grows(h)) && CountedArguments(l)))
    case Primitive(_, args) => CountedArguments(args)
    case Block(_, stmts) => CountedStatements(stmts, ahead)
    case Return(e) => Counted(e, ahead)
    case _ => true
  }

  predicate CountedMessage(args: seq<Node>, name: string, ahead: bool)
    decreases args, 2
  {
    if InLine(name, args) then
      && (|args| == 2 ==> CountedStatements(args[1].statements, ahead))
      && CountedStatements(args[0].statements, ahead || (|args| == 2 && GrowsAny(args[1].statements)))
    else CountedArguments(args)
  }

  predicate CountedArguments(args: seq<Node>)
    decreases args, 0
  {
    args == [] || (Counted(args[0], true) && CountedArguments(args[1..]))
  }

  predicate CountedStatements(stmts: seq<Node>, ahead: bool)
    decreases stmts, 0
  {
    stmts == [] || (Counted(stmts[0], ahead) && CountedStatements(stmts[1..], ahead || Grows(stmts[0])))
  }

  // ---- Growth ---------------------------------------------------------------------------------------

  lemma {:induction false} Growth(n: Node, t: Tracker)
    ensures TrackNode(n, t).size > t.size <==> Grows(n)
    decreases n, 3
  {
    match n
    case Assign(_, e) => Growth(e, t);
    case Message(r, name, args) => GrowthMessage(n, t);
    case Cascade(h, l) =>
      Growth(h, t);
      GrowthMessages(l, TrackNode(h, t));
    case Primitive(_, args) => GrowthArgs(args, PushArgs(t, |args|));
    case Block(_, stmts) => GrowthStatements(stmts, t);
    case Return(e) => Growth(e, t);
    case _ =>
  }

  lemma {:induction false} GrowthMessage(n: Node, t: Tracker)
    requires n.Message?
    ensures TrackNode(n, t).size > t.size <==> Grows(n)
    decreases n, 2
  {
    var r, name, args := n.receiver, n.name, n.arguments;
    if IsWhile(n) {
      GrowthStatements(r.statements, t);
      GrowthStatements(args[0].statements, TrackStatements(r.statements, t));
    } else if !r.Top? && !r.IsSuper() {
      Growth(r, t);
      GrowthInLine(args, name, TrackNode(r, t));
    }
  }

  lemma {:induction false} GrowthInLine(args: seq<Node>, name: string, t: Tracker)
    ensures InLine(name, args) ==>
            (TrackMessage(args, name, t).size > t.size <==>
             GrowsAny(args[0].statements) || (|args| == 2 && GrowsAny(args[1].statements)))
    decreases args, 1
  {
    if InLine(name, args) {
      if |args| == 2 {
        GrowthStatements(args[1].statements, t);
        GrowthStatements(args[0].statements, TrackStatements(args[1].statements, t));
      } else {
        GrowthStatements(args[0].statements, t);
      }
    }
  }

  lemma {:induction false} GrowthArgs(args: seq<Node>, t: Tracker)
    ensures TrackArgs(args, t).size > t.size <==> GrowsAny(args)
    decreases args, 0
  {
    if args != [] {
      Growth(args[0], t);
      GrowthArgs(args[1..], TrackNode(args[0], t));
    }
  }

  lemma {:induction false} GrowthStatements(stmts: seq<Node>, t: Tracker)
    ensures TrackStatements(stmts, t).size > t.size <==> GrowsAny(stmts)
    decreases stmts, 0
  {
    if stmts != [] {
      Growth(stmts[0], t);
      GrowthStatements(stmts[1..], TrackNode(stmts[0], t));
    }
  }

  lemma {:induction false} GrowthMessages(l: seq<Node>, t: Tracker)
    ensures TrackMessages(l, t).size > t.size <==> GrowsAny(l)
    decreases l, 0
  {
    if l != [] {
      Growth(l[0], t);
      GrowthMessages(l[1..], TrackNode(l[0], t));
    }
  }
}
