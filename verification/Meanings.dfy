/** What the meaning of a tree comes to for each kind of node, spelled out. */
module Meanings {
  import opened Syntax
  import opened Values
  import opened CodeGen
  import opened Evaluator

  /** Where an evaluation takes place: all that does not change from node to node. */
  datatype Place = Place(env: Env, b: bool, at: nat, lits: seq<Value>, w: World, fuel: nat)

  function At(p: Place, n: Node, top: Value): Outcome {
    Eval(p.env, n, p.b, p.at, p.lits, top, p.w, p.fuel)
  }

  /** After a node has been evaluated. */
  function Past(p: Place, n: Node, w: World): Place {
    var g := GenNode(n, p.b, p.at, p.lits);
    p.(at := p.at + Len(g.code), lits := g.lits, w := w)
  }

  function All(p: Place, args: seq<Node>): Outcomes {
    EvalArgs(p.env, args, p.b, p.at, p.lits, p.w, p.fuel)
  }

  /** What comes back from a send. */
  ghost predicate Comes(o: Outcome, r: SendResult) {
    match r
    case Answers(v, w) => o == Normal(v, w)
    case Unwinds(v, w) => o == Exit(Unwound, v, w)
    case NeverReturns => o == Never
  }

  // ---- Trees -----------------------------------------------------------------------------------------

  /** The number of a keyword selector's arguments. */
  function Colons(name: string): nat {
    if name == "" then 0 else (if name[0] == ':' then 1 else 0) + Colons(name[1..])
  }

  lemma {:induction false} Keyword(word: string, rest: string)
    requires ':' !in word
    ensures Colons(word) == 0 && Colons(word + ":" + rest) == 1 + Colons(rest)
  {
    if word == "" {
      assert (word + ":" + rest)[1..] == rest;
    } else {
      Keyword(word[1..], rest);
      assert (word + ":" + rest)[1..] == word[1..] + ":" + rest;
    }
  }

  lemma {:induction false} OneKeyword(word: string, name: string)
    requires ':' !in word && name == word + ":"
    ensures Colons(name) == 1
  {
    Keyword(word, "");
    assert Colons("") == 0 && word + ":" + "" == name;
  }

  lemma {:induction false} Tests()
    ensures Colons("ifTrue:") == Colons("ifFalse:") == 1
  {
    hide Colons;
    OneKeyword("ifTrue", "ifTrue:");
    OneKeyword("ifFalse", "ifFalse:");
  }

  lemma {:induction false} Connectives()
    ensures Colons("and:") == Colons("or:") == 1
  {
    hide Colons;
    OneKeyword("and", "and:");
    OneKeyword("or", "or:");
  }

  lemma {:induction false} Loops()
    ensures Colons("whileTrue:") == 1 && Colons("whileFalse") == 0
  {
    hide Colons;
    OneKeyword("whileTrue", "whileTrue:");
    Keyword("whileFalse", "");
  }

  lemma {:induction false} Branches()
    ensures Colons("ifTrue:ifFalse:") == 2
  {
    hide Colons;
    Tests();
    Keyword("ifTrue", "ifFalse:");
    assert "ifTrue" + ":" + "ifFalse:" == "ifTrue:ifFalse:";
  }

  /** Selectors with the arguments they ask for are accepted, but for whileFalse sent to a block without any. */
  lemma {:induction false} SelectorsMean(r: Node, name: string, args: seq<Node>)
    requires if name == "<" || name == "<=" || name == "+" then |args| == 1 else |args| == Colons(name)
    ensures GoodMessage(r, name, args) <==> !(r.Block? && name == "whileFalse")
  {
    hide Colons;
    Tests();
    Connectives();
    Loops();
    Branches();
  }

  /** So are trees of any kind made of such, if variables are counted from 1, but for the receiver, blocks are not
      empty, and only temporaries and instance variables are assigned to. */
  lemma {:induction false} TreesMean(n: nat, v: Value, e: Node, r: Node, name: string, args: seq<Node>)
    requires Closed(e) && Closed(r) && AllClosed(args)
    ensures Closed(Node.Argument(n)) && Closed(Temporary(n + 1)) && Closed(Instance(n + 1)) && Closed(Literal(v))
    ensures Closed(Assign(Temporary(n + 1), e)) && Closed(Assign(Instance(n + 1), e)) && Closed(Return(e)) && Closed(Primitive(n, args))
    ensures args != [] ==> Closed(Block(n, args))
    ensures GoodMessage(r, name, args) ==> Closed(Message(r, name, args)) && Open(Message(Top, name, args))
    ensures Closed(Cascade(e, [])) && AllClosed([]) && AllClosed([e] + args)
    ensures forall l | AllOpen(l) && GoodMessage(Top, name, args) :: AllOpen([Message(Top, name, args)] + l)
    ensures forall l | AllOpen(l) :: Closed(Cascade(e, l))
  {
    assert ([e] + args)[1..] == args;
    forall l | AllOpen(l) && GoodMessage(Top, name, args) ensures AllOpen([Message(Top, name, args)] + l) {
      assert ([Message(Top, name, args)] + l)[1..] == l;
    }
  }

  // ---- Variables and values --------------------------------------------------------------------------

  /** Positions are counted from 1; the receiver is the first argument, and super is the receiver too. */
  lemma {:induction false} VariablesMean(p: Place, n: nat, top: Value)
    ensures At(p, Node.Argument(n + 1), top) == Normal(p.env.argument(p.w, n), p.w)
    ensures At(p, Node.Argument(0), top) == Normal(p.env.argument(p.w, 0), p.w)
    ensures At(p, Temporary(n + 1), top) == Normal(p.env.temporary(p.w, n), p.w)
    ensures At(p, Instance(n + 1), top) == Normal(p.env.instance(p.w, n), p.w)
  {}

  lemma {:induction false} LiteralMeans(p: Place, v: Value, top: Value)
    ensures At(p, Literal(v), top) == Normal(v, p.w)
  {}

  lemma {:induction false} AssignMeans(p: Place, n: nat, e: Node, top: Value, v: Value, w: World)
    requires At(p, e, top) == Normal(v, w)
    ensures At(p, Assign(Temporary(n + 1), e), top) == Normal(v, p.env.setTemporary(w, n, v))
    ensures At(p, Assign(Instance(n + 1), e), top) == Normal(v, p.env.setInstance(w, n, v))
  {}

  lemma {:induction false} ReturnMeans(p: Place, e: Node, top: Value, v: Value, w: World)
    requires At(p, e, top) == Normal(v, w)
    ensures At(p, Return(e), top) == Exit(if p.b then ToHome else ToSender, v, w)
  {}

  /** Arguments from left to right. */
  lemma {:induction false} ArgumentsMean(p: Place, a: Node, rest: seq<Node>, v: Value, w: World)
    requires At(p, a, Nil) == Normal(v, w)
    ensures All(p, []) == Normals([], p.w)
    ensures var os := All(Past(p, a, w), rest);
            All(p, [a] + rest) == if os.Normals? then Normals([v] + os.vs, os.w) else os
  {
    assert ([a] + rest)[1..] == rest;
    hide Eval, GenNode, Len;
  }

  /** A primitive that succeeds leaves the method with its value; one that fails, taking its arguments, leaves nil. */
  lemma {:induction false} PrimitiveMeans(p: Place, number: nat, args: seq<Node>, top: Value, vs: seq<Value>, w: World)
    requires All(p, args) == Normals(vs, w)
    ensures var o := At(p, Primitive(number, args), top);
            match p.env.primitive(w, number, vs)
            case Succeeds(v, w') => o == Exit(ToSender, v, w')
            case Fails(w', popped) => popped == |args| ==> o == Normal(Nil, w')
            case PrimUnwinds(v, w') => o == Exit(Unwound, v, w')
            case PrimNever => o == Never
  {
    hide EvalArgs;
  }

  // ---- Messages --------------------------------------------------------------------------------------

  /** The receiver is evaluated first, and is neither super nor the head of a cascade. */
  ghost predicate Receives(p: Place, r: Node, top: Value, v: Value, w: World) {
    !r.Top? && r != Node.Argument(0) && At(p, r, top) == Normal(v, w)
  }

  lemma {:induction false} NotWhile(p: Place, r: Node, name: string, args: seq<Node>, top: Value, v: Value, w: World)
    requires Receives(p, r, top, v, w) && !(r.Block? && name == "whileTrue:")
    ensures var q := Past(p, r, w);
            At(p, Message(r, name, args), top) ==
            if name == "isNil" then Normal(Unary(0, v), w)
            else if name == "notNil" then Normal(Unary(1, v), w)
            else EvalMessage(p.env, v, args, name, p.b, q.at, q.lits, w, p.fuel)
  {
    hide EvalMessage, GenNode, Len, Unary;
  }

  /** isNil and notNil. */
  lemma {:induction false} NilTestsMean(p: Place, r: Node, args: seq<Node>, top: Value, v: Value, w: World)
    requires Receives(p, r, top, v, w)
    ensures At(p, Message(r, "isNil", args), top) == Normal(if v == Nil then True else False, w)
    ensures At(p, Message(r, "notNil", args), top) == Normal(if v == Nil then False else True, w)
  {
    NotWhile(p, r, "isNil", args, top, v, w);
    NotWhile(p, r, "notNil", args, top, v, w);
    hide Eval, EvalMessage;
  }

  lemma {:induction false} OneArgument(p: Place, a: Node, v: Value, w: World)
    requires At(p, a, Nil) == Normal(v, w)
    ensures All(p, [a]) == Normals([v], w)
  {
    ArgumentsMean(p, a, [], v, w);
    assert [a] + [] == [a];
    hide Eval, GenNode, Len;
  }

  lemma {:induction false} BinaryIs(p: Place, name: string, a: Node, x: Value, y: Value, w: World)
    requires (name == "<" || name == "<=" || name == "+") && All(p, [a]) == Normals([y], w)
    ensures var o := EvalMessage(p.env, x, [a], name, p.b, p.at, p.lits, p.w, p.fuel);
            if x.SmallInt? && y.SmallInt? then
              o == Normal(if name == "<" then (if x.i < y.i then True else False)
                          else if name == "<=" then (if x.i <= y.i then True else False)
                          else SmallInt(x.i + y.i), w)
            else Comes(o, p.env.send(w, false, Symbol(name), [x, y]))
  {
    hide Eval, EvalArgs, EvalSend, EvalInline, GenInline, Len;
  }

  /** <, <= and + are done at once on two small integers, and are sends of the same name on anything else. */
  lemma {:induction false} BinaryMeans(p: Place, r: Node, name: string, a: Node, top: Value, x: Value, w: World, y: Value, w': World)
    requires name == "<" || name == "<=" || name == "+"
    requires Receives(p, r, top, x, w) && At(Past(p, r, w), a, Nil) == Normal(y, w')
    ensures var o := At(p, Message(r, name, [a]), top);
            if x.SmallInt? && y.SmallInt? then
              o == Normal(if name == "<" then (if x.i < y.i then True else False)
                          else if name == "<=" then (if x.i <= y.i then True else False)
                          else SmallInt(x.i + y.i), w')
            else Comes(o, p.env.send(w', false, Symbol(name), [x, y]))
  {
    hide Eval, EvalMessage, EvalArgs, GenNode, Len;
    NotWhile(p, r, name, [a], top, x, w);
    OneArgument(Past(p, r, w), a, y, w');
    BinaryIs(Past(p, r, w), name, a, x, y, w');
  }

  /** Names that are compiled in a way of their own. */
  predicate Special(name: string, args: seq<Node>) {
    || name == "isNil" || name == "notNil"
    || ((name == "<" || name == "<=" || name == "+") && |args| == 1)
    || ((name == "ifTrue:" || name == "ifFalse:" || name == "and:" || name == "or:") && |args| == 1 && args[0].Block?)
    || (name == "ifTrue:ifFalse:" && |args| == 2 && args[0].Block? && args[1].Block?)
  }

  lemma {:induction false} SendIs(p: Place, rcv: Value, name: string, args: seq<Node>, super: bool, vs: seq<Value>, w: World)
    requires All(p, args) == Normals(vs, w)
    ensures Comes(EvalSend(p.env, rcv, args, name, super, p.b, p.at, p.lits, p.w, p.fuel), p.env.send(w, super, Symbol(name), [rcv] + vs))
  {
    hide EvalArgs;
  }

  lemma {:induction false} NotSpecial(p: Place, rcv: Value, name: string, args: seq<Node>)
    requires !Special(name, args)
    ensures EvalMessage(p.env, rcv, args, name, p.b, p.at, p.lits, p.w, p.fuel) == EvalSend(p.env, rcv, args, name, false, p.b, p.at, p.lits, p.w, p.fuel)
  {
    hide EvalSend, EvalArgs, EvalInline, GenInline;
    if ArgumentsAreBlock(args) && args != [] {
      assert args[0] in args;
      if |args| == 2 { assert args[1] in args; }
    }
  }

  /** Any other message is a send with the receiver's value before those of the arguments. */
  lemma {:induction false} SendMeans(p: Place, r: Node, name: string, args: seq<Node>, top: Value, v: Value, w: World, vs: seq<Value>, w': World)
    requires Receives(p, r, top, v, w) && !Special(name, args) && !(r.Block? && name == "whileTrue:")
    requires All(Past(p, r, w), args) == Normals(vs, w')
    ensures Comes(At(p, Message(r, name, args), top), p.env.send(w', false, Symbol(name), [v] + vs))
  {
    NotWhile(p, r, name, args, top, v, w);
    NotSpecial(Past(p, r, w), v, name, args);
    SendIs(Past(p, r, w), v, name, args, false, vs, w');
    hide Eval, EvalMessage, EvalSend, EvalArgs;
  }

  /** A message to super is looked up past the method's own class; one of a cascade goes to the head's value. */
  lemma {:induction false} SuperMeans(p: Place, name: string, args: seq<Node>, top: Value, vs: seq<Value>, w: World)
    requires All(Past(p, Node.Argument(0), p.w), args) == Normals(vs, w)
    ensures Comes(At(p, Message(Node.Argument(0), name, args), top), p.env.send(w, true, Symbol(name), [p.env.argument(p.w, 0)] + vs))
  {
    SendIs(Past(p, Node.Argument(0), p.w), p.env.argument(p.w, 0), name, args, true, vs, w);
    VariablesMean(p, 0, top);
    hide EvalSend, EvalArgs, GenNode, Len;
  }

  lemma {:induction false} CascadedMeans(p: Place, name: string, args: seq<Node>, top: Value, vs: seq<Value>, w: World)
    requires All(Past(p, Top, p.w), args) == Normals(vs, w)
    ensures Comes(At(p, Message(Top, name, args), top), p.env.send(w, false, Symbol(name), [top] + vs))
  {
    assert At(p, Top, top) == Normal(top, p.w);
    SendIs(Past(p, Top, p.w), top, name, args, false, vs, w);
    hide EvalSend, EvalArgs, GenNode, Len;
  }

  // ---- Blocks in line --------------------------------------------------------------------------------

  /** Some place where the statements are run in line. */
  ghost predicate RunsInline(o: Outcome, p: Place, stmts: seq<Node>, w: World) {
    exists at, lits :: o == EvalInline(p.env, stmts, p.b, at, lits, w, p.fuel)
  }

  lemma {:induction false} TestsMean(p: Place, r: Node, name: string, t: nat, stmts: seq<Node>, top: Value, v: Value, w: World)
    requires Receives(p, r, top, v, w) && (name == "ifTrue:" || name == "ifFalse:" || name == "and:" || name == "or:")
    ensures var o := At(p, Message(r, name, [Block(t, stmts)]), top);
            && (name == "ifTrue:" ==> if v == False then o == Normal(Nil, w) else RunsInline(o, p, stmts, w))
            && (name == "ifFalse:" ==> if v == True then o == Normal(Nil, w) else RunsInline(o, p, stmts, w))
            && (name == "and:" ==> if v == False then o == Normal(False, w) else RunsInline(o, p, stmts, w))
            && (name == "or:" ==> if v == True then o == Normal(True, w) else RunsInline(o, p, stmts, w))
  {
    NotWhile(p, r, name, [Block(t, stmts)], top, v, w);
    hide Eval, EvalInline, GenNode, Len, EvalSend;
    assert ArgumentsAreBlock([Block(t, stmts)]);
  }

  lemma {:induction false} IfMeans(p: Place, r: Node, t: nat, yes: seq<Node>, u: nat, no: seq<Node>, top: Value, v: Value, w: World)
    requires Receives(p, r, top, v, w)
    ensures var o := At(p, Message(r, "ifTrue:ifFalse:", [Block(t, yes), Block(u, no)]), top);
            RunsInline(o, p, if v == True then yes else no, w)
  {
    var args := [Block(t, yes), Block(u, no)];
    NotWhile(p, r, "ifTrue:ifFalse:", args, top, v, w);
    hide Eval, EvalInline, GenNode, GenInline, Len, EvalSend;
    assert ArgumentsAreBlock(args);
  }

  lemma {:induction false} LoopIs(p: Place, n: Node, top: Value)
    requires IsWhile(n)
    ensures At(p, n, top) == EvalWhile(p.env, n, p.b, p.at, p.lits, p.w, p.fuel)
  {
    hide EvalWhile;
  }

  lemma {:induction false} RoundIs(p: Place, n: Node)
    requires IsWhile(n) && p.fuel > 0
    ensures EvalWhile(p.env, n, p.b, p.at, p.lits, p.w, p.fuel) ==
            var c := EvalInline(p.env, n.receiver.statements, p.b, p.at, p.lits, p.w, p.fuel);
            if !c.Normal? then c
            else if c.v == False then Normal(Nil, c.w)
            else
              var g := GenInline(n.receiver.statements, p.b, p.at, p.lits);
              var d := EvalInline(p.env, n.arguments[0].statements, p.b, p.at + Len(g.code) + 3, g.lits, c.w, p.fuel);
              if !d.Normal? then d else EvalWhile(p.env, n, p.b, p.at, p.lits, d.w, p.fuel - 1)
  {
    hide EvalInline, GenInline, Len;
  }

  /** The condition is run; when it is false the loop ends with nil, and else the body is run and the loop again,
      as often as there is fuel. */
  lemma {:induction false} WhileMeans(p: Place, t: nat, condition: seq<Node>, u: nat, body: seq<Node>, top: Value)
    requires p.fuel > 0
    ensures var n := Message(Block(t, condition), "whileTrue:", [Block(u, body)]);
            var c := EvalInline(p.env, condition, p.b, p.at, p.lits, p.w, p.fuel);
            var o := At(p, n, top);
            if !c.Normal? then o == c
            else if c.v == False then o == Normal(Nil, c.w)
            else
              exists at, lits ::
                var d := EvalInline(p.env, body, p.b, at, lits, c.w, p.fuel);
                if !d.Normal? then o == d else o == At(p.(w := d.w, fuel := p.fuel - 1), n, top)
  {
    hide Eval, EvalInline, EvalWhile, GenInline, Len;
    var n := Message(Block(t, condition), "whileTrue:", [Block(u, body)]);
    LoopIs(p, n, top);
    RoundIs(p, n);
    var c := EvalInline(p.env, condition, p.b, p.at, p.lits, p.w, p.fuel);
    if c.Normal? && c.v != False {
      var g := GenInline(condition, p.b, p.at, p.lits);
      var d := EvalInline(p.env, body, p.b, p.at + Len(g.code) + 3, g.lits, c.w, p.fuel);
      if d.Normal? { LoopIs(p.(w := d.w, fuel := p.fuel - 1), n, top); }
    }
  }
}
