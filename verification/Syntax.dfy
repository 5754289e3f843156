/** Parse trees, and what they mean.  Everything a method does to memory -- variables, block creation,
    message sends, primitives -- goes through an environment about which nothing is assumed. */
module Syntax {
  import opened Values

  /** Lists are in source order; the parser's lists are in reverse and walked backwards.  `Top` is the
      nil receiver of a cascaded message. */
  datatype Node =
    | Top
    | Argument(position: nat)
    | Temporary(position: nat)
    | Instance(position: nat)
    | Literal(value: Value)
    | Assign(target: Node, expression: Node)
    | Message(receiver: Node, name: string, arguments: seq<Node>)
    | Cascade(head: Node, list: seq<Node>)
    | Primitive(number: nat, arguments: seq<Node>)
    | Block(temporaryLocation: nat, statements: seq<Node>)
    | Return(expression: Node)
  {
    predicate IsSuper() { Argument? && position == 0 }
  }

  predicate ArgumentsAreBlock(args: seq<Node>) {
    forall a | a in args :: a.Block?
  }

  /** Selectors compiled in line when the arguments are blocks, with the number of their arguments. */
  predicate InlineArity(name: string, n: nat) {
    match name
    case "ifTrue:" => n == 1
    case "ifFalse:" => n == 1
    case "and:" => n == 1
    case "or:" => n == 1
    case "ifTrue:ifFalse:" => n == 2
    case "whileTrue:" => n == 1
    case "<" => n == 1
    case "<=" => n == 1
    case "+" => n == 1
    case _ => true
  }

  /** Trees the compiler accepts and the parser makes: a selector has its number of arguments, blocks
      have statements, and `[...] whileFalse` (on which the compiler fails) does not occur. */
  ghost predicate Closed(n: Node)
    decreases n, 1
  {
    match n
    case Top => false
    case Argument(_) => true
    case Temporary(p) => p > 0
    case Instance(p) => p > 0
    case Literal(_) => true
    case Assign(t, e) => ((t.Temporary? && t.position > 0) || (t.Instance? && t.position > 0)) && Closed(e)
    case Message(r, name, args) => Closed(r) && GoodMessage(r, name, args) && AllClosed(args)
    case Cascade(h, l) => Closed(h) && AllOpen(l)
    case Primitive(_, args) => AllClosed(args)
    case Block(_, stmts) => stmts != [] && AllClosed(stmts)
    case Return(e) => Closed(e)
  }

  ghost predicate GoodMessage(r: Node, name: string, args: seq<Node>) {
    InlineArity(name, |args|) && !(r.Block? && name == "whileFalse" && ArgumentsAreBlock(args))
  }

  /** A cascaded message: at the bottom of its receivers is the value on top of the stack. */
  ghost predicate Open(n: Node)
    decreases n, 1
  {
    n.Message? && (n.receiver.Top? || Open(n.receiver)) && GoodMessage(n.receiver, n.name, n.arguments) && AllClosed(n.arguments)
  }

  ghost predicate AllClosed(ns: seq<Node>)
    decreases ns, 0
  {
    ns == [] || (Closed(ns[0]) && AllClosed(ns[1..]))
  }

  ghost predicate AllOpen(ns: seq<Node>)
    decreases ns, 0
  {
    ns == [] || (Open(ns[0]) && AllOpen(ns[1..]))
  }

  // ---- The environment ------------------------------------------------------------------------

  datatype SendResult = Answers(v: Value, w: World) | Unwinds(v: Value, w: World) | NeverReturns

  /** A primitive that fails says how many values it took off the stack: most take their arguments, but each
      does its own popping. */
  datatype PrimResult = Succeeds(v: Value, w: World) | Fails(w: World, popped: nat) | PrimUnwinds(v: Value, w: World) | PrimNever

  datatype Env = Env(
    argument: (World, nat) -> Value,
    temporary: (World, nat) -> Value,
    instance: (World, nat) -> Value,
    setTemporary: (World, nat, Value) -> World,
    setInstance: (World, nat, Value) -> World,
    makeBlock: (World, nat, nat) -> (Value, World),
    send: (World, bool, Value, seq<Value>) -> SendResult,
    primitive: (World, nat, seq<Value>) -> PrimResult)

  function Bool(b: bool): Value {
    if b then True else False
  }

  const BINARY_NAMES: seq<string> := ["<", "<=", "+"]

  /** <, <= and + on small integers are done at once (the sum unchecked); on anything else they are sends. */
  function Binary(env: Env, w: World, k: nat, a: Value, b: Value): SendResult
    requires k < 3
  {
    if a.SmallInt? && b.SmallInt? then
      Answers(if k == 0 then Bool(a.i < b.i) else if k == 1 then Bool(a.i <= b.i) else SmallInt(a.i + b.i), w)
    else env.send(w, false, Symbol(BINARY_NAMES[k]), [a, b])
  }

  function Unary(k: nat, a: Value): Value {
    Bool((a == Nil) == (k == 0))
  }
}
