/** What a parse tree means: value, effects and early exits. */
module Evaluator {
  import opened Bytecode
  import opened Syntax
  import opened Values
  import opened CodeGen

  /** Ways a method or block activation ends before its code does: to the sender, to the sender of the
      home method, or because a block it made returned through it. */
  datatype ExitKind = ToSender | ToHome | Unwound

  /** `Miscounts`: a primitive failed, and took off the stack more or less than its arguments. */
  datatype Outcome =
    | Normal(v: Value, w: World)
    | Exit(kind: ExitKind, v: Value, w: World)
    | Never
    | Miscounts
    | Timeout

  datatype Outcomes =
    | Normals(vs: seq<Value>, w: World)
    | Abrupt(o: Outcome)

  function FromSend(r: SendResult): Outcome {
    match r
    case Answers(v, w) => Normal(v, w)
    case Unwinds(v, w) => Exit(Unwound, v, w)
    case NeverReturns => Never
  }

  function FromPrimitive(r: PrimResult, argCount: nat): Outcome {
    match r
    case Succeeds(v, w) => Exit(ToSender, v, w)
    case Fails(w, popped) => if popped == argCount then Normal(Nil, w) else Miscounts
    case PrimUnwinds(v, w) => Exit(Unwound, v, w)
    case PrimNever => Never
  }

  /** `top` is the value a cascaded message goes to.  `fuel` bounds the iterations of each loop.  A block
      is known by where its code starts, which is all that `at` and `lits` are for. */
  function Eval(env: Env, n: Node, b: bool, at: nat, lits: seq<Value>, top: Value, w: World, fuel: nat): Outcome
    decreases n, 1, fuel
  {
    match n
    case Top => Normal(top, w)
    case Argument(p) => Normal(env.argument(w, Pred(p)), w)
    case Temporary(p) => Normal(env.temporary(w, Pred(p)), w)
    case Instance(p) => Normal(env.instance(w, Pred(p)), w)
    case Literal(v) => Normal(v, w)
    case Assign(t, e) =>
      var o := Eval(env, e, b, at, lits, top, w, fuel);
      if !o.Normal? then o
      else if t.Instance? then Normal(o.v, env.setInstance(o.w, Pred(t.position), o.v))
      else Normal(o.v, env.setTemporary(o.w, if t.Temporary? then Pred(t.position) else 0, o.v))
    case Message(r, name, args) =>
      if IsWhile(n) then EvalWhile(env, n, b, at, lits, w, fuel)
      else
        var o := Eval(env, r, b, at, lits, top, w, fuel);
        if !o.Normal? then o
        else
          var g := GenNode(r, b, at, lits);
          if r.Top? || r.IsSuper() then EvalSend(env, o.v, args, name, r.IsSuper(), b, at + Len(g.code), g.lits, o.w, fuel)
          else if name == "isNil" then Normal(Unary(0, o.v), o.w)
          else if name == "notNil" then Normal(Unary(1, o.v), o.w)
          else EvalMessage(env, o.v, args, name, b, at + Len(g.code), g.lits, o.w, fuel)
    case Cascade(h, l) =>
      var o := Eval(env, h, b, at, lits, top, w, fuel);
      if !o.Normal? then o
      else
        var g := GenNode(h, b, at, lits);
        EvalCascade(env, o.v, l, b, at + Len(g.code), g.lits, o.w, fuel)
    case Primitive(number, args) =>
      var os := EvalArgs(env, args, b, at, lits, w, fuel);
      if os.Abrupt? then os.o else FromPrimitive(env.primitive(os.w, number, os.vs), |args|)
    case Block(tl, _) =>
      var (v, w') := env.makeBlock(w, at + Len([PushBlock(tl, 0)]), tl);
      Normal(v, w')
    case Return(e) =>
      var o := Eval(env, e, b, at, lits, top, w, fuel);
      if o.Normal? then Exit(if b then ToHome else ToSender, o.v, o.w) else o
  }

  /** Messages whose arguments are blocks run them in place.  A receiver that is not a Boolean is taken
      for true by ifTrue: and and:, and for false by ifFalse:, or: and ifTrue:ifFalse:. */
  function EvalMessage(env: Env, rcv: Value, args: seq<Node>, name: string, b: bool, at: nat, lits: seq<Value>, w: World, fuel: nat): Outcome
    decreases args, 2, fuel
  {
    if ArgumentsAreBlock(args) && |args| == 1 && name == "ifTrue:" then
      if rcv == False then Normal(Nil, w) else EvalInline(env, args[0].statements, b, at + 3, lits, w, fuel)
    else if ArgumentsAreBlock(args) && |args| == 1 && name == "ifFalse:" then
      if rcv == True then Normal(Nil, w) else EvalInline(env, args[0].statements, b, at + 3, lits, w, fuel)
    else if ArgumentsAreBlock(args) && |args| == 1 && name == "and:" then
      if rcv == False then Normal(False, w) else EvalInline(env, args[0].statements, b, at + 3, lits, w, fuel)
    else if ArgumentsAreBlock(args) && |args| == 1 && name == "or:" then
      if rcv == True then Normal(True, w) else EvalInline(env, args[0].statements, b, at + 3, lits, w, fuel)
    else if ArgumentsAreBlock(args) && |args| == 2 && name == "ifTrue:ifFalse:" then
      var f := GenInline(args[1].statements, b, at + 3, lits);
      if rcv == True then EvalInline(env, args[0].statements, b, at + 3 + Len(f.code) + 3, f.lits, w, fuel)
      else EvalInline(env, args[1].statements, b, at + 3, lits, w, fuel)
    else if name in BINARY_NAMES && |args| == 1 then
      var os := EvalArgs(env, args, b, at, lits, w, fuel);
      if os.Abrupt? then os.o
      else FromSend(Binary(env, os.w, BinaryIndex(name), rcv, if |os.vs| == 1 then os.vs[0] else Nil))
    else EvalSend(env, rcv, args, name, false, b, at, lits, w, fuel)
  }

  function EvalSend(env: Env, rcv: Value, args: seq<Node>, name: string, super: bool, b: bool, at: nat, lits: seq<Value>, w: World, fuel: nat): Outcome
    decreases args, 1, fuel
  {
    var os := EvalArgs(env, args, b, at, lits, w, fuel);
    if os.Abrupt? then os.o else FromSend(env.send(os.w, super, Symbol(name), [rcv] + os.vs))
  }

  /** Left to right. */
  function EvalArgs(env: Env, args: seq<Node>, b: bool, at: nat, lits: seq<Value>, w: World, fuel: nat): Outcomes
    decreases args, 0, fuel
  {
    if args == [] then Normals([], w)
    else
      var o := Eval(env, args[0], b, at, lits, Nil, w, fuel);
      if !o.Normal? then Abrupt(o)
      else
        var g := GenNode(args[0], b, at, lits);
        var os := EvalArgs(env, args[1..], b, at + Len(g.code), g.lits, o.w, fuel);
        if os.Abrupt? then os else Normals([o.v] + os.vs, os.w)
  }

  /** Statements in order; the value is the last one's. */
  function EvalInline(env: Env, stmts: seq<Node>, b: bool, at: nat, lits: seq<Value>, w: World, fuel: nat): Outcome
    decreases stmts, 0, fuel
  {
    if stmts == [] then Normal(Nil, w)
    else
      var o := Eval(env, stmts[0], b, at, lits, Nil, w, fuel);
      if |stmts| == 1 || !o.Normal? then o
      else
        var g := GenNode(stmts[0], b, at, lits);
        EvalInline(env, stmts[1..], b, at + Len(g.code) + 1, g.lits, o.w, fuel)
  }

  /** Every message of a cascade goes to the value of its head, which is also the value of the cascade. */
  function EvalCascade(env: Env, head: Value, l: seq<Node>, b: bool, at: nat, lits: seq<Value>, w: World, fuel: nat): Outcome
    decreases l, 0, fuel
  {
    if l == [] then Normal(head, w)
    else
      var o := Eval(env, l[0], b, at + 1, lits, head, w, fuel);
      if !o.Normal? then o
      else
        var g := GenNode(l[0], b, at + 1, lits);
        EvalCascade(env, head, l[1..], b, at + 1 + Len(g.code) + 1, g.lits, o.w, fuel)
  }

  /** The loop ends when the condition is false, with value nil. */
  function EvalWhile(env: Env, n: Node, b: bool, at: nat, lits: seq<Value>, w: World, fuel: nat): Outcome
    requires IsWhile(n)
    decreases n, 0, fuel
  {
    if fuel == 0 then Timeout
    else
      var c := EvalInline(env, n.receiver.statements, b, at, lits, w, fuel);
      if !c.Normal? then c
      else if c.v == False then Normal(Nil, c.w)
      else
        var g := GenInline(n.receiver.statements, b, at, lits);
        var d := EvalInline(env, n.arguments[0].statements, b, at + Len(g.code) + 3, g.lits, c.w, fuel);
        if !d.Normal? then d else EvalWhile(env, n, b, at, lits, d.w, fuel - 1)
  }

  /** A method body: when it runs to its end, self is returned. */
  function EvalBody(env: Env, stmts: seq<Node>, at: nat, lits: seq<Value>, w: World, fuel: nat): Outcome
    decreases stmts
  {
    if stmts == [] then Exit(ToSender, env.argument(w, 0), w)
    else
      var o := Eval(env, stmts[0], false, at, lits, Nil, w, fuel);
      if !o.Normal? then o
      else
        var g := GenNode(stmts[0], false, at, lits);
        EvalBody(env, stmts[1..], at + Len(g.code) + 1, g.lits, o.w, fuel)
  }
}
