/** The stack the encoder asks for is high enough, or one slot short. */
module StackBound {
  import opened Bytecode
  import opened Syntax
  import opened Values
  import opened CodeGen
  import opened StackDepth
  import opened StackTracker

  /** Every block in the list needs no more than m. */
  ghost predicate SitesFit(sites: seq<Site>, m: int) {
    forall s | s in sites :: PeakStatements(s.statements) <= m
  }

  lemma {:induction false} FitJoin(a: seq<Site>, b: seq<Site>, j: int, m: int)
    requires SitesFit(a, j) && SitesFit(b, m) && j <= m
    ensures SitesFit(a + b, m)
  {}

  /** The count goes with the height h: e is 0 when every cascade is counted, and 1 in general. */
  predicate Level(h: nat, t: Tracker, ahead: bool, e: nat) {
    e <= 1 && h <= t.size && h < t.max + e && (ahead ==> h < t.size)
  }

  /** As Level, for a node that works on a value above h. */
  predicate LevelOpen(h: nat, t: Tracker, e: nat) {
    e <= 1 && h <= t.size + e
  }

  lemma {:induction false} NodeBound(n: Node, open: bool, ahead: bool, h: nat, t: Tracker, e: nat, b: bool, at: nat, lits: seq<Value>)
    requires if open then (n.Top? || Open(n)) && LevelOpen(h, t, e) else Closed(n) && Level(h, t, ahead, e)
    requires e == 0 ==> Counted(n, if open then true else ahead)
    ensures (open && n.Top?) || h + Peak(n) <= TrackNode(n, t).max + e
    ensures SitesFit(GenNode(n, b, at, lits).sites, TrackNode(n, t).max + e)
    ensures open && !n.Top? ==> TrackNode(n, t).size > t.size
    decreases n, 3
  {
    OpenMessage(n);
    hide Len, GenNode, Peak, TrackNode, Closed, Open, AllClosed, Counted, SitesFit, GenArgs, PeakArguments, TrackArgs, CountedArguments;
    match n
    case Assign(_, x) =>
      WrapTree(n, x, ahead, t, b, at, lits);
      NodeBound(x, false, ahead, h, t, e, b, at, lits);
    case Return(x) =>
      WrapTree(n, x, ahead, t, b, at, lits);
      NodeBound(x, false, ahead, h, t, e, b, at, lits);
    case Message(_, _, _) => MessageBound(n, open, ahead, h, t, e, b, at, lits);
    case Cascade(_, _) => CascadeBound(n, ahead, h, t, e, b, at, lits);
    case Primitive(_, args) =>
      PrimitiveTree(n, ahead, t, b, at, lits);
      ArgsBound(args, h, PushArgs(t, |args|), e, b, at, lits);
    case Block(_, _) => BlockBound(n, ahead, h, t, e, b, at, lits);
    case _ => LeafBound(n, t, e, b, at, lits);
  }

  lemma {:induction false} OpenMessage(n: Node)
    ensures Open(n) ==> n.Message?
  {}

  lemma {:induction false} WrapTree(n: Node, x: Node, ahead: bool, t: Tracker, b: bool, at: nat, lits: seq<Value>)
    requires (n.Assign? || n.Return?) && x == n.expression
    ensures !Open(n) && (Closed(n) ==> Closed(x)) && Counted(n, ahead) == Counted(x, ahead) && Peak(n) == Peak(x)
    ensures TrackNode(n, t) == TrackNode(x, t) && GenNode(n, b, at, lits).sites == GenNode(x, b, at, lits).sites
  {
    hide Len;
  }

  lemma {:induction false} PrimitiveTree(n: Node, ahead: bool, t: Tracker, b: bool, at: nat, lits: seq<Value>)
    requires n.Primitive?
    ensures !Open(n) && (Closed(n) ==> AllClosed(n.arguments)) && Counted(n, ahead) == CountedArguments(n.arguments)
    ensures Peak(n) == Max(1, PeakArguments(n.arguments))
    ensures TrackNode(n, t) == PopArgs(TrackArgs(n.arguments, PushArgs(t, |n.arguments|)), |n.arguments|)
    ensures GenNode(n, b, at, lits).sites == GenArgs(n.arguments, b, at, lits).sites
  {
    hide Len, GenArgs, PeakArguments, TrackArgs, CountedArguments;
  }

  lemma {:induction false} LeafBound(n: Node, t: Tracker, e: nat, b: bool, at: nat, lits: seq<Value>)
    requires n.Top? || n.Argument? || n.Temporary? || n.Instance? || n.Literal?
    ensures Peak(n) == 1 && TrackNode(n, t) == t && SitesFit(GenNode(n, b, at, lits).sites, t.max + e)
  {}

  lemma {:induction false} BlockBound(n: Node, ahead: bool, h: nat, t: Tracker, e: nat, b: bool, at: nat, lits: seq<Value>)
    requires n.Block? && Closed(n) && Level(h, t, ahead, e) && (e == 0 ==> Counted(n, ahead))
    ensures h + Peak(n) <= TrackNode(n, t).max + e
    ensures SitesFit(GenNode(n, b, at, lits).sites, TrackNode(n, t).max + e)
    decreases n, 2
  {
    hide Len;
    var entry := at + Len([PushBlock(n.temporaryLocation, 0)]);
    StatementsBound(n.statements, ahead, 0, t, e, true, entry, lits);
    hide GenInline, TrackStatements, PeakStatements, AllClosed;
    FitJoin([Site(entry, n.statements, lits)], GenInline(n.statements, true, entry, lits).sites, TrackNode(n, t).max + e, TrackNode(n, t).max + e);
  }

  lemma {:induction false} NoneBound(t: Tracker, e: nat, b: bool, at: nat, lits: seq<Value>)
    ensures PeakStatements([]) == 0 && PeakArguments([]) == 0 && PeakMessages([]) == 0
    ensures TrackStatements([], t) == t && TrackArgs([], t) == t && TrackMessages([], t) == t
    ensures SitesFit(GenInline([], b, at, lits).sites, t.max + e) && SitesFit(GenArgs([], b, at, lits).sites, t.max + e)
    ensures SitesFit(GenCascade([], b, at, lits).sites, t.max + e)
  {}

  lemma {:induction false} StatementsTree(stmts: seq<Node>, ahead: bool, t: Tracker, b: bool, at: nat, lits: seq<Value>)
    requires stmts != []
    ensures AllClosed(stmts) ==> Closed(stmts[0]) && AllClosed(stmts[1..])
    ensures CountedStatements(stmts, ahead) ==> Counted(stmts[0], ahead) && CountedStatements(stmts[1..], ahead || Grows(stmts[0]))
    ensures PeakStatements(stmts) == Max(Peak(stmts[0]), PeakStatements(stmts[1..]))
    ensures TrackStatements(stmts, t) == TrackStatements(stmts[1..], TrackNode(stmts[0], t))
    ensures var g := GenNode(stmts[0], b, at, lits);
            GenInline(stmts, b, at, lits).sites == g.sites + GenInline(stmts[1..], b, at + Len(g.code) + 1, g.lits).sites
  {
    hide Len, GenNode, Peak, TrackNode, Closed, Counted, Grows;
    if |stmts| == 1 {
      var g := GenNode(stmts[0], b, at, lits);
      assert g.sites + [] == g.sites;
    }
  }

  lemma {:induction false} StatementsBound(stmts: seq<Node>, ahead: bool, h: nat, t: Tracker, e: nat, b: bool, at: nat, lits: seq<Value>)
    requires AllClosed(stmts) && Level(h, t, ahead, e) && (e == 0 ==> CountedStatements(stmts, ahead))
    ensures h + PeakStatements(stmts) <= TrackStatements(stmts, t).max + e
    ensures SitesFit(GenInline(stmts, b, at, lits).sites, TrackStatements(stmts, t).max + e)
    decreases stmts, 0
  {
    hide Len, GenNode, Peak, TrackNode, Closed, Counted, Grows, GenInline, PeakStatements, TrackStatements, AllClosed, CountedStatements, SitesFit;
    if stmts == [] {
      NoneBound(t, e, b, at, lits);
    } else {
      StatementsTree(stmts, ahead, t, b, at, lits);
      var g, t1 := GenNode(stmts[0], b, at, lits), TrackNode(stmts[0], t);
      NodeBound(stmts[0], false, ahead, h, t, e, b, at, lits);
      Growth(stmts[0], t);
      StatementsBound(stmts[1..], ahead || Grows(stmts[0]), h, t1, e, b, at + Len(g.code) + 1, g.lits);
      FitJoin(g.sites, GenInline(stmts[1..], b, at + Len(g.code) + 1, g.lits).sites, t1.max + e, TrackStatements(stmts, t).max + e);
    }
  }

  lemma {:induction false} ArgsTree(args: seq<Node>, t: Tracker, b: bool, at: nat, lits: seq<Value>)
    requires args != []
    ensures AllClosed(args) ==> Closed(args[0]) && AllClosed(args[1..])
    ensures CountedArguments(args) ==> Counted(args[0], true) && CountedArguments(args[1..])
    ensures PeakArguments(args) == Max(Peak(args[0]), 1 + PeakArguments(args[1..]))
    ensures TrackArgs(args, t) == TrackArgs(args[1..], TrackNode(args[0], t))
    ensures var g := GenNode(args[0], b, at, lits);
            GenArgs(args, b, at, lits).sites == g.sites + GenArgs(args[1..], b, at + Len(g.code), g.lits).sites
  {
    hide Len, GenNode, Peak, TrackNode, Closed, Counted;
  }

  /** Arguments above height h, the slots for them being counted. */
  lemma {:induction false} ArgsBound(args: seq<Node>, h: nat, t: Tracker, e: nat, b: bool, at: nat, lits: seq<Value>)
    requires AllClosed(args) && e <= 1 && h + |args| <= t.size + e && h + |args| <= t.max + e && (e == 0 ==> CountedArguments(args))
    ensures h + PeakArguments(args) <= TrackArgs(args, t).max + e
    ensures SitesFit(GenArgs(args, b, at, lits).sites, TrackArgs(args, t).max + e)
    decreases args, 0
  {
    hide Len, GenNode, Peak, TrackNode, Closed, Counted, GenArgs, PeakArguments, TrackArgs, AllClosed, CountedArguments, SitesFit;
    if args == [] {
      NoneBound(t, e, b, at, lits);
    } else {
      ArgsTree(args, t, b, at, lits);
      var g, t1 := GenNode(args[0], b, at, lits), TrackNode(args[0], t);
      NodeBound(args[0], false, h < t.size, h, t, e, b, at, lits);
      ArgsBound(args[1..], h + 1, t1, e, b, at + Len(g.code), g.lits);
      FitJoin(g.sites, GenArgs(args[1..], b, at + Len(g.code), g.lits).sites, t1.max + e, TrackArgs(args, t).max + e);
    }
  }

  lemma {:induction false} SendBound(args: seq<Node>, name: string, super: bool, keeps: bool, h: nat, t: Tracker, e: nat, b: bool, at: nat, lits: seq<Value>)
    requires AllClosed(args) && LevelOpen(h, t, e) && (e == 0 ==> CountedArguments(args))
    ensures h + 1 + PeakArguments(args) <= TrackSend(args, keeps, t).max + e
    ensures SitesFit(GenArgs(args, b, at, lits).sites, TrackSend(args, keeps, t).max + e)
    ensures SitesFit(GenSend(args, name, super, b, at, lits).sites, TrackSend(args, keeps, t).max + e)
    decreases args, 1
  {
    ArgsBound(args, h + 1, PushArgs(t, 1 + |args|), e, b, at, lits);
    hide GenArgs, TrackArgs, PeakArguments;
  }

  lemma {:induction false} TestBound(stmts: seq<Node>, skipOn: bool, constant: nat, ahead: bool, h: nat, t: Tracker, e: nat, b: bool, at: nat, lits: seq<Value>)
    requires AllClosed(stmts) && Level(h, t, ahead, e) && (e == 0 ==> CountedStatements(stmts, ahead))
    ensures h + PeakStatements(stmts) <= TrackStatements(stmts, t).max + e
    ensures SitesFit(GenTest(skipOn, constant, stmts, b, at, lits).sites, TrackStatements(stmts, t).max + e)
    decreases stmts, 1
  {
    StatementsBound(stmts, ahead, h, t, e, b, at + 3, lits);
    hide GenInline, Len, SitesFit, TrackStatements;
  }

  lemma {:induction false} IfBound(args: seq<Node>, ahead: bool, h: nat, t: Tracker, e: nat, b: bool, at: nat, lits: seq<Value>)
    requires |args| == 2 && args[0].Block? && args[1].Block? && AllClosed(args[0].statements) && AllClosed(args[1].statements)
    requires Level(h, t, ahead, e)
    requires e == 0 ==> CountedStatements(args[1].statements, ahead) && CountedStatements(args[0].statements, ahead || GrowsAny(args[1].statements))
    ensures var m := TrackStatements(args[0].statements, TrackStatements(args[1].statements, t)).max + e;
            h + PeakStatements(args[0].statements) <= m && h + PeakStatements(args[1].statements) <= m && SitesFit(GenIf(args, b, at, lits).sites, m)
    decreases args, 1
  {
    hide Len, GenInline, SitesFit, TrackStatements, CountedStatements, AllClosed, PeakStatements, GrowsAny;
    var f := GenInline(args[1].statements, b, at + 3, lits);
    var other := at + 3 + Len(f.code) + 3;
    var t1 := TrackStatements(args[1].statements, t);
    StatementsBound(args[1].statements, ahead, h, t, e, b, at + 3, lits);
    GrowthStatements(args[1].statements, t);
    StatementsBound(args[0].statements, ahead || GrowsAny(args[1].statements), h, t1, e, b, other, f.lits);
    FitJoin(f.sites, GenInline(args[0].statements, b, other, f.lits).sites, t1.max + e, TrackStatements(args[0].statements, t1).max + e);
  }

  lemma {:induction false} WhileBound(n: Node, ahead: bool, h: nat, t: Tracker, e: nat, b: bool, at: nat, lits: seq<Value>)
    requires IsWhile(n) && AllClosed(n.receiver.statements) && AllClosed(n.arguments[0].statements) && Level(h, t, ahead, e)
    requires e == 0 ==> CountedStatements(n.receiver.statements, ahead)
    requires e == 0 ==> CountedStatements(n.arguments[0].statements, ahead || GrowsAny(n.receiver.statements))
    ensures var m := TrackStatements(n.arguments[0].statements, TrackStatements(n.receiver.statements, t)).max + e;
            && h + PeakStatements(n.receiver.statements) <= m && h + PeakStatements(n.arguments[0].statements) <= m
            && SitesFit(GenWhile(n, b, at, lits).sites, m)
    decreases n, 0
  {
    hide Len, GenInline, SitesFit, TrackStatements, CountedStatements, AllClosed, PeakStatements, GrowsAny;
    var c := GenInline(n.receiver.statements, b, at, lits);
    var inside := at + Len(c.code) + 3;
    var t1 := TrackStatements(n.receiver.statements, t);
    StatementsBound(n.receiver.statements, ahead, h, t, e, b, at, lits);
    GrowthStatements(n.receiver.statements, t);
    StatementsBound(n.arguments[0].statements, ahead || GrowsAny(n.receiver.statements), h, t1, e, b, inside, c.lits);
    FitJoin(c.sites, GenInline(n.arguments[0].statements, b, inside, c.lits).sites, t1.max + e, TrackStatements(n.arguments[0].statements, t1).max + e);
  }

  /** A message once its receiver has been compiled. */
  lemma {:induction false} RestBound(r: Node, args: seq<Node>, name: string, ahead: bool, h: nat, t: Tracker, e: nat, b: bool, at: nat, lits: seq<Value>)
    requires AllClosed(args) && GoodMessage(r, name, args) && LevelOpen(h, t, e) && Level(h, t, ahead, e)
    requires e == 0 ==> CountedMessage(args, name, ahead)
    ensures h + (if InLine(name, args) then Max(PeakStatements(args[0].statements), if |args| == 2 then PeakStatements(args[1].statements) else 0)
                 else 1 + PeakArguments(args)) <= TrackMessage(args, name, t).max + e
    ensures SitesFit(GenMessage(args, name, b, at, lits).sites, TrackMessage(args, name, t).max + e)
    decreases args, 2
  {
    hide Len, GenTest, GenIf, GenSend, GenArgs, SitesFit, TrackStatements, TrackSend, CountedStatements, CountedArguments, AllClosed,
      PeakStatements, PeakArguments, GrowsAny;
    if InLine(name, args) {
      BlocksClosed(args);
      if |args| == 2 {
        IfBound(args, ahead, h, t, e, b, at, lits);
      } else {
        var skipOn := name == "ifFalse:" || name == "or:";
        var constant := if name == "and:" then FALSE_CONST else if name == "or:" then TRUE_CONST else NIL_CONST;
        TestBound(args[0].statements, skipOn, constant, ahead, h, t, e, b, at, lits);
      }
    } else {
      SendBound(args, name, false, name in BINARY_NAMES, h, t, e, b, at, lits);
    }
  }

  lemma {:induction false} BlocksClosed(args: seq<Node>)
    requires AllClosed(args) && ArgumentsAreBlock(args) && 1 <= |args| <= 2
    ensures AllClosed(args[0].statements) && (|args| == 2 ==> AllClosed(args[1].statements))
  {
    assert args[0] in args && Closed(args[0]);
    if |args| == 2 {
      assert args[1..][0] == args[1] && args[1] in args;
      assert Closed(args[1]);
    }
  }

  lemma {:induction false} MessageBound(n: Node, open: bool, ahead: bool, h: nat, t: Tracker, e: nat, b: bool, at: nat, lits: seq<Value>)
    requires n.Message? && if open then Open(n) && LevelOpen(h, t, e) else Closed(n) && Level(h, t, ahead, e)
    requires e == 0 ==> Counted(n, if open then true else ahead)
    ensures h + Peak(n) <= TrackNode(n, t).max + e
    ensures SitesFit(GenNode(n, b, at, lits).sites, TrackNode(n, t).max + e)
    ensures open ==> TrackNode(n, t).size > t.size
    decreases n, 2
  {
    hide Len, GenNode, Peak, TrackNode, Closed, Open, AllClosed, Counted, SitesFit, GenWhile, GenSend, PeakStatements, PeakArguments,
      TrackStatements, TrackSend, CountedStatements, CountedArguments;
    if n.receiver.Top? {
      TopTree(n, if open then true else ahead, t, b, at, lits);
      SendBound(n.arguments, n.name, false, false, h, t, e, b, at, lits);
    } else if IsWhile(n) {
      WhileTree(n, ahead, t, b, at, lits);
      WhileBound(n, ahead, h, t, e, b, at, lits);
    } else {
      ReceivedBound(n, open, ahead, h, t, e, b, at, lits);
    }
  }

  lemma {:induction false} TopTree(n: Node, ahead: bool, t: Tracker, b: bool, at: nat, lits: seq<Value>)
    requires n.Message? && n.receiver.Top?
    ensures Counted(n, ahead) ==> CountedArguments(n.arguments)
    ensures !Closed(n) && (Open(n) ==> AllClosed(n.arguments))
    ensures Peak(n) == 1 + PeakArguments(n.arguments)
    ensures TrackNode(n, t) == TrackSend(n.arguments, false, t)
    ensures GenNode(n, b, at, lits) == GenSend(n.arguments, n.name, false, b, at, lits)
  {
    assert !Closed(n.receiver);
    hide TrackSend, GenSend, PeakArguments, CountedArguments;
  }

  lemma {:induction false} WhileTree(n: Node, ahead: bool, t: Tracker, b: bool, at: nat, lits: seq<Value>)
    requires IsWhile(n)
    ensures Counted(n, ahead) ==> CountedStatements(n.receiver.statements, ahead)
                                  && CountedStatements(n.arguments[0].statements, ahead || GrowsAny(n.receiver.statements))
    ensures !Open(n) && (Closed(n) ==> AllClosed(n.receiver.statements) && AllClosed(n.arguments[0].statements))
    ensures Peak(n) == Max(1, Max(PeakStatements(n.receiver.statements), PeakStatements(n.arguments[0].statements)))
    ensures TrackNode(n, t) == TrackStatements(n.arguments[0].statements, TrackStatements(n.receiver.statements, t))
    ensures GenNode(n, b, at, lits) == GenWhile(n, b, at, lits)
  {
    if Closed(n) {
      assert Closed(n.receiver) && AllClosed(n.arguments);
      assert Closed(n.arguments[0]);
    }
    hide TrackStatements, GenWhile, PeakStatements, CountedStatements, GrowsAny;
  }

  /** What a message adds to its receiver. */
  function PeakAnswer(n: Node): nat
    requires n.Message?
  {
    if !n.receiver.IsSuper() && (n.name == "isNil" || n.name == "notNil") then 1
    else if n.receiver.IsSuper() then 1 + PeakArguments(n.arguments)
    else PeakRest(n.name, n.arguments)
  }

  function TrackAnswer(n: Node, t: Tracker): (r: Tracker)
    requires n.Message?
    ensures r.size >= t.size && r.max >= t.max
  {
    if n.receiver.IsSuper() then TrackSend(n.arguments, true, t)
    else if n.name == "isNil" || n.name == "notNil" then t
    else TrackMessage(n.arguments, n.name, t)
  }

  predicate CountedAnswer(n: Node, ahead: bool)
    requires n.Message?
  {
    if n.receiver.IsSuper() then CountedArguments(n.arguments)
    else if n.name == "isNil" || n.name == "notNil" then true
    else CountedMessage(n.arguments, n.name, ahead)
  }

  lemma {:induction false} MessageTree(n: Node, ahead: bool, t: Tracker)
    requires n.Message? && !n.receiver.Top? && !IsWhile(n)
    ensures Counted(n, ahead) ==> Counted(n.receiver, ahead) && CountedAnswer(n, ahead || Grows(n.receiver))
    ensures Peak(n) == Max(Max(1, Peak(n.receiver)), PeakAnswer(n))
    ensures TrackNode(n, t) == TrackAnswer(n, TrackNode(n.receiver, t))
  {
    hide TrackSend, TrackMessage, PeakStatements, PeakArguments, CountedArguments, CountedMessage;
  }

  lemma {:induction false} MessageFit(n: Node, b: bool, at: nat, lits: seq<Value>, j: int, m: int)
    requires n.Message? && !n.receiver.Top? && !IsWhile(n)
    requires var g := GenNode(n.receiver, b, at, lits);
             SitesFit(g.sites, j) && SitesFit(GenRest(n, b, at + Len(g.code), g.lits).sites, m) && j <= m
    ensures SitesFit(GenNode(n, b, at, lits).sites, m)
  {
    var g := GenNode(n.receiver, b, at, lits);
    var rest := GenRest(n, b, at + Len(g.code), g.lits);
    hide Len, GenSend, GenMessage, SitesFit;
    assert GenNode(n, b, at, lits).sites == g.sites + rest.sites;
    FitJoin(g.sites, rest.sites, j, m);
  }

  lemma {:induction false} ReceiverClosed(n: Node)
    requires n.Message? && !n.receiver.Top?
    ensures Open(n) ==> Open(n.receiver)
    ensures Closed(n) ==> Closed(n.receiver)
    ensures Open(n) || Closed(n) ==> AllClosed(n.arguments) && GoodMessage(n.receiver, n.name, n.arguments)
  {}

  lemma {:induction false} ReceivedBound(n: Node, open: bool, ahead: bool, h: nat, t: Tracker, e: nat, b: bool, at: nat, lits: seq<Value>)
    requires n.Message? && !n.receiver.Top? && !IsWhile(n)
    requires if open then Open(n) && LevelOpen(h, t, e) else Closed(n) && Level(h, t, ahead, e)
    requires e == 0 ==> Counted(n, if open then true else ahead)
    ensures h + Peak(n) <= TrackNode(n, t).max + e
    ensures SitesFit(GenNode(n, b, at, lits).sites, TrackNode(n, t).max + e)
    ensures open ==> TrackNode(n, t).size > t.size
    decreases n, 1
  {
    hide Len, GenNode, Peak, TrackNode, Closed, Open, AllClosed, GoodMessage, Counted, CountedAnswer, PeakAnswer, TrackAnswer, GenRest, SitesFit, IsWhile, Grows;
    var r := n.receiver;
    MessageTree(n, if open then true else ahead, t);
    ReceiverClosed(n);
    var g, t1 := GenNode(r, b, at, lits), TrackNode(r, t);
    NodeBound(r, open, ahead, h, t, e, b, at, lits);
    Growth(r, t);
    PeakPositive(r);
    AnswerBound(n, e == 0 && (open || ahead || Grows(r)), h, t1, e, b, at + Len(g.code), g.lits);
    MessageFit(n, b, at, lits, t1.max + e, TrackNode(n, t).max + e);
  }

  lemma {:induction false} AnswerBound(n: Node, ahead: bool, h: nat, t: Tracker, e: nat, b: bool, at: nat, lits: seq<Value>)
    requires n.Message? && AllClosed(n.arguments) && GoodMessage(n.receiver, n.name, n.arguments)
    requires Level(h, t, ahead, e) && (e == 0 ==> CountedAnswer(n, ahead))
    ensures h + PeakAnswer(n) <= TrackAnswer(n, t).max + e
    ensures SitesFit(GenRest(n, b, at, lits).sites, TrackAnswer(n, t).max + e)
    decreases n, 0
  {
    hide Len, TrackSend, TrackMessage, GenSend, GenMessage, GenArgs, PeakStatements, PeakArguments, CountedArguments, CountedMessage, AllClosed;
    if n.receiver.IsSuper() {
      SendBound(n.arguments, n.name, true, true, h, t, e, b, at, lits);
    } else if n.name != "isNil" && n.name != "notNil" {
      RestBound(n.receiver, n.arguments, n.name, ahead, h, t, e, b, at, lits);
    }
  }

  lemma {:induction false} CascadeTree(n: Node, ahead: bool, t: Tracker)
    requires n.Cascade?
    ensures Closed(n) ==> Closed(n.head) && AllOpen(n.list)
    ensures Counted(n, ahead) ==> Counted(n.head, ahead) && (n.list == [] || ((ahead || Grows(n.head)) && CountedArguments(n.list)))
    ensures Peak(n) == Max(Max(1, Peak(n.head)), PeakMessages(n.list))
    ensures TrackNode(n, t) == TrackMessages(n.list, TrackNode(n.head, t))
  {
    hide TrackMessages, PeakMessages, CountedArguments, AllOpen;
  }

  lemma {:induction false} CascadeSites(n: Node, b: bool, at: nat, lits: seq<Value>)
    requires n.Cascade?
    ensures var g := GenNode(n.head, b, at, lits);
            GenNode(n, b, at, lits).sites == g.sites + GenCascade(n.list, b, at + Len(g.code), g.lits).sites
  {
    hide Len, GenCascade;
  }

  lemma {:induction false} CascadeFit(n: Node, b: bool, at: nat, lits: seq<Value>, j: int, m: int)
    requires n.Cascade?
    requires var g := GenNode(n.head, b, at, lits);
             SitesFit(g.sites, j) && SitesFit(GenCascade(n.list, b, at + Len(g.code), g.lits).sites, m) && j <= m
    ensures SitesFit(GenNode(n, b, at, lits).sites, m)
  {
    var g := GenNode(n.head, b, at, lits);
    var rest := GenCascade(n.list, b, at + Len(g.code), g.lits);
    CascadeSites(n, b, at, lits);
    hide Len, GenNode, GenCascade, SitesFit;
    FitJoin(g.sites, rest.sites, j, m);
  }

  lemma {:induction false} CascadeBound(n: Node, ahead: bool, h: nat, t: Tracker, e: nat, b: bool, at: nat, lits: seq<Value>)
    requires n.Cascade? && Closed(n) && Level(h, t, ahead, e) && (e == 0 ==> Counted(n, ahead))
    ensures h + Peak(n) <= TrackNode(n, t).max + e
    ensures SitesFit(GenNode(n, b, at, lits).sites, TrackNode(n, t).max + e)
    decreases n, 2
  {
    hide Len, GenNode, Peak, TrackNode, Closed, Counted, Grows, GenCascade, PeakMessages, TrackMessages, AllOpen, CountedArguments, SitesFit;
    CascadeTree(n, ahead, t);
    PeakPositive(n.head);
    var g, t1 := GenNode(n.head, b, at, lits), TrackNode(n.head, t);
    NodeBound(n.head, false, ahead, h, t, e, b, at, lits);
    Growth(n.head, t);
    ListBound(n.list, h + 1, t1, e, b, at + Len(g.code), g.lits);
    CascadeFit(n, b, at, lits, t1.max + e, TrackNode(n, t).max + e);
  }

  lemma {:induction false} ListBound(l: seq<Node>, h: nat, t: Tracker, e: nat, b: bool, at: nat, lits: seq<Value>)
    requires h > 0 && AllOpen(l) && (l == [] || (LevelOpen(h, t, e) && (e == 0 ==> CountedArguments(l))))
    ensures l == [] ==> PeakMessages(l) == 0
    ensures l != [] ==> h - 1 + PeakMessages(l) <= TrackMessages(l, t).max + e
    ensures SitesFit(GenCascade(l, b, at, lits).sites, TrackMessages(l, t).max + e)
    decreases l, 1
  {
    hide GenCascade, PeakMessages, TrackMessages, AllOpen, CountedArguments, SitesFit;
    if l == [] {
      NoneBound(t, e, b, at, lits);
    } else {
      MessagesBound(l, h, t, e, b, at, lits);
    }
  }

  lemma {:induction false} MessagesTrackTree(l: seq<Node>, t: Tracker, b: bool, at: nat, lits: seq<Value>)
    requires l != []
    ensures AllOpen(l) ==> Open(l[0]) && l[0].Message? && AllOpen(l[1..])
    ensures CountedArguments(l) ==> Counted(l[0], true) && CountedArguments(l[1..])
    ensures PeakMessages(l) == Max(1 + Peak(l[0]), PeakMessages(l[1..]))
    ensures TrackMessages(l, t) == TrackMessages(l[1..], TrackNode(l[0], t))
    ensures var g := GenNode(l[0], b, at + 1, lits);
            GenCascade(l, b, at, lits).sites == g.sites + GenCascade(l[1..], b, at + 1 + Len(g.code) + 1, g.lits).sites
  {
    assert Open(l[0]) ==> l[0].Message?;
    hide Len, GenNode, Peak, TrackNode, Open, Counted;
  }

  /** Messages to the value just below h: the first of them brings the count up to h. */
  lemma {:induction false} MessagesBound(l: seq<Node>, h: nat, t: Tracker, e: nat, b: bool, at: nat, lits: seq<Value>)
    requires l != [] && h > 0 && AllOpen(l) && LevelOpen(h, t, e) && (e == 0 ==> CountedArguments(l))
    ensures h - 1 + PeakMessages(l) <= TrackMessages(l, t).max + e
    ensures SitesFit(GenCascade(l, b, at, lits).sites, TrackMessages(l, t).max + e)
    decreases l, 0
  {
    hide Len, GenNode, Peak, TrackNode, Open, Counted, GenCascade, PeakMessages, TrackMessages, AllOpen, CountedArguments, SitesFit;
    MessagesTrackTree(l, t, b, at, lits);
    var g, t1 := GenNode(l[0], b, at + 1, lits), TrackNode(l[0], t);
    NodeBound(l[0], true, false, h, t, e, b, at + 1, lits);
    if |l| == 1 {
      assert l[1..] == [];
      NoneBound(t1, e, b, at + 1 + Len(g.code) + 1, g.lits);
    } else {
      MessagesBound(l[1..], h, t1, e, b, at + 1 + Len(g.code) + 1, g.lits);
    }
    FitJoin(g.sites, GenCascade(l[1..], b, at + 1 + Len(g.code) + 1, g.lits).sites, t1.max + e, TrackMessages(l, t).max + e);
  }

  // ---- Whole methods -------------------------------------------------------------------------------

  lemma {:induction false} BodyTree(stmts: seq<Node>, b: bool, at: nat, lits: seq<Value>)
    requires stmts != []
    ensures var g := GenNode(stmts[0], false, at, lits);
            GenBody(stmts, at, lits).sites == g.sites + GenBody(stmts[1..], at + Len(g.code) + 1, g.lits).sites
  {
    hide Len, GenNode;
  }

  lemma {:induction false} BodyBound(stmts: seq<Node>, ahead: bool, h: nat, t: Tracker, e: nat, at: nat, lits: seq<Value>)
    requires AllClosed(stmts) && Level(h, t, ahead, e) && (e == 0 ==> CountedStatements(stmts, ahead))
    ensures h + PeakStatements(stmts) <= TrackStatements(stmts, t).max + e
    ensures SitesFit(GenBody(stmts, at, lits).sites, TrackStatements(stmts, t).max + e)
    decreases stmts
  {
    hide Len, GenNode, Peak, TrackNode, Closed, Counted, Grows, GenBody, GenInline, PeakStatements, TrackStatements, AllClosed, CountedStatements, SitesFit;
    if stmts == [] {
      NoneBound(t, e, false, at, lits);
      NoBody(at, lits, t.max + e);
    } else {
      StatementsTree(stmts, ahead, t, false, at, lits);
      BodyTree(stmts, false, at, lits);
      var g, t1 := GenNode(stmts[0], false, at, lits), TrackNode(stmts[0], t);
      NodeBound(stmts[0], false, ahead, h, t, e, false, at, lits);
      Growth(stmts[0], t);
      BodyBound(stmts[1..], ahead || Grows(stmts[0]), h, t1, e, at + Len(g.code) + 1, g.lits);
      FitJoin(g.sites, GenBody(stmts[1..], at + Len(g.code) + 1, g.lits).sites, t1.max + e, TrackStatements(stmts, t).max + e);
    }
  }

  lemma {:induction false} NoBody(at: nat, lits: seq<Value>, m: int)
    ensures SitesFit(GenBody([], at, lits).sites, m)
  {}

  /** A method whose cascades are counted gets all the stack that it and its blocks need. */
  lemma {:induction false} EnoughStack(stmts: seq<Node>)
    requires AllClosed(stmts) && CountedStatements(stmts, false)
    ensures PeakStatements(stmts) <= MaxStack(stmts) && SitesFit(GenBody(stmts, 0, []).sites, MaxStack(stmts))
  {
    hide AllClosed, CountedStatements, PeakStatements, TrackStatements, GenBody, SitesFit;
    BodyBound(stmts, false, 0, FRESH, 0, 0, []);
  }

  /** Any other is one slot short at most. */
  lemma {:induction false} AlmostEnoughStack(stmts: seq<Node>)
    requires AllClosed(stmts)
    ensures PeakStatements(stmts) <= MaxStack(stmts) + 1 && SitesFit(GenBody(stmts, 0, []).sites, MaxStack(stmts) + 1)
  {
    hide AllClosed, PeakStatements, TrackStatements, GenBody, SitesFit;
    BodyBound(stmts, false, 0, FRESH, 1, 0, []);
  }

  predicate Leaf(n: Node) {
    n.Argument? || n.Temporary? || n.Instance? || n.Literal?
  }

  lemma {:induction false} LeafArguments(args: seq<Node>, t: Tracker)
    requires forall a | a in args :: Leaf(a)
    ensures TrackArgs(args, t) == t && PeakArguments(args) == |args|
    decreases args
  {
    if args != [] {
      assert Leaf(args[0]) && forall a | a in args[1..] :: a in args;
      LeafArguments(args[1..], t);
    }
  }

  /** A cascade on a plain value that is compiled when the count is no higher than the stack: for
      its message the count is one short, and only an earlier, higher count makes up for it. */
  lemma {:induction false} BareCascade(head: Node, name: string, args: seq<Node>, t: Tracker)
    requires Leaf(head) && forall a | a in args :: Leaf(a)
    ensures var c := Cascade(head, [Message(Top, name, args)]);
            && !Counted(c, false)
            && (t.size + Peak(c) <= TrackNode(c, t).max <==> t.size + |args| + 2 <= t.max)
            && (t.size + |args| + 2 <= t.max || t.size + Peak(c) == TrackNode(c, t).max + 1)
  {
    var m := Message(Top, name, args);
    var t1 := PushArgs(t, 1 + |args|);
    LeafArguments(args, t1);
    assert Peak(m) == 1 + |args| && TrackNode(m, t) == PopArgs(t1, |args|);
    hide TrackArgs, PeakArguments;
    assert [m][1..] == [];
    assert PeakMessages([m]) == 1 + Peak(m) && TrackMessages([m], t) == TrackNode(m, t);
  }

  /** The message of `x; foo: 1`. */
  lemma {:induction false} FooMessage()
    ensures var m := Message(Top, "foo:", [Literal(SmallInt(1))]);
            Open(m) && Peak(m) == 2 && TrackNode(m, FRESH) == Tracker(1, 2)
  {
    var args := [Literal(SmallInt(1))];
    assert args[1..] == [] && AllClosed(args);
    LeafArguments(args, PushArgs(FRESH, 2));
    hide AllClosed, PeakArguments, TrackArgs;
  }

  lemma {:induction false} OneStatement(c: Node)
    ensures (AllClosed([c]) <==> Closed(c)) && PeakStatements([c]) == Max(Peak(c), 0) && MaxStack([c]) == TrackNode(c, FRESH).max
  {
    var l := [c];
    assert l[1..] == [];
    hide Closed, Peak, TrackNode;
    assert TrackStatements(l, FRESH) == TrackStatements(l[1..], TrackNode(l[0], FRESH)) == TrackNode(c, FRESH);
  }

  lemma {:induction false} OneMessage(m: Node)
    requires m.Message?
    ensures var c := Cascade(Temporary(1), [m]);
            (Closed(c) <==> Open(m)) && Peak(c) == Max(1, 1 + Peak(m)) && TrackNode(c, FRESH) == TrackNode(m, FRESH)
  {
    var l := [m];
    assert l[1..] == [];
    MessageAlone(m, l);
    hide AllOpen, PeakMessages, TrackMessages, Open;
    assert Closed(Temporary(1)) && Peak(Temporary(1)) == 1 && TrackNode(Temporary(1), FRESH) == FRESH;
  }

  lemma {:induction false} MessageAlone(m: Node, l: seq<Node>)
    requires l == [m] && l[1..] == []
    ensures (AllOpen(l) <==> Open(m)) && PeakMessages(l) == 1 + Peak(m) && TrackMessages(l, FRESH) == TrackNode(m, FRESH)
  {
    hide Open, Peak, TrackNode;
  }

  /** `x; foo: 1` as a whole method: three slots are used, two are asked for. */
  lemma {:induction false} OneShort()
    ensures var c := Cascade(Temporary(1), [Message(Top, "foo:", [Literal(SmallInt(1))])]);
            AllClosed([c]) && PeakStatements([c]) == 3 && MaxStack([c]) == 2
  {
    hide Open, Closed, AllClosed, Peak, TrackNode, PeakStatements, MaxStack;
    FooMessage();
    var m := Message(Top, "foo:", [Literal(SmallInt(1))]);
    OneMessage(m);
    OneStatement(Cascade(Temporary(1), [m]));
  }
}
