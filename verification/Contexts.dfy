/** The virtual machine with its chain of contexts: what each instruction does to them, read off the
    context itself.  Memory, method lookup and the primitives go through a kernel about which nothing is
    assumed. */
module Contexts {
  import opened Bytes
  import opened Options
  import opened Bytecode
  import opened Syntax
  import opened Values

  datatype Kernel = Kernel(
    bytes: nat -> seq<byte>,
    literal: (nat, nat) -> Value,
    stackSize: nat -> nat,
    field: (Store, Value, nat) -> Value,
    setField: (Store, Value, nat, Value) -> Store,
    temporary: (Store, nat, nat) -> Value,
    setTemporary: (Store, nat, nat, Value) -> Store,
    newTemporaries: (Store, nat) -> (nat, Store),
    lookup: (Store, Option<nat>, Value, Value) -> Option<nat>,
    primitive: (Store, nat, seq<Value>) -> PrimAnswer,
    enterBlock: (Store, nat, nat, seq<Value>) -> Option<Store>,
    badMethod: Value)

  /** A primitive done in the interpreter itself may fail, having taken some values off the stack; so may one of
      the library, which takes its arguments. */
  datatype PrimAnswer = Done(v: Value, w: Store) | Failed(w: Store, popped: nat) | LibraryFailed(w: Store)

  /** `Strayed`: a return has entered a context that control had left.  What happens there is not to be read off
      the contexts: it depends on what was last saved in that one. */
  datatype State =
    | Running(cur: nat, vm: VM)
    | Ended(v: Value, vm: VM)
    | Strayed
    | Stuck

  /** The primitive that flushes the method cache. */
  const FLUSH_CACHE := 34

  /** The temporaries of a context that has none. */
  const NO_TEMPORARIES := 0

  const STACK_RETURN: byte := 242
  const BLOCK_RETURN: byte := 243

  function Last(s: seq<Value>): Value
    requires s != []
  {
    s[|s| - 1]
  }

  function Front(s: seq<Value>, n: nat): seq<Value>
    requires n <= |s|
  {
    s[..|s| - n]
  }

  /** The n topmost values. */
  function Topmost(s: seq<Value>, n: nat): seq<Value>
    requires n <= |s|
  {
    s[|s| - n..]
  }

  /** The n topmost values, but for the last: a block's arguments, below the block. */
  function BlockArguments(s: seq<Value>, n: nat): seq<Value>
    requires 0 < n <= |s|
  {
    s[|s| - n..|s| - 1]
  }

  /** The current context takes a new form. */
  function With(cur: nat, vm: VM, c: Context): State {
    Running(cur, vm.(contexts := vm.contexts[cur := c]))
  }

  function Push(k: Kernel, cur: nat, vm: VM, c: Context, v: Value): State {
    if |c.stack| < k.stackSize(c.method_) then With(cur, vm, c.(stack := c.stack + [v])) else Stuck
  }

  /** A value is handed to a context that waits for one; the process ends where there is none. */
  function Deliver(k: Kernel, vm: VM, to: Option<nat>, v: Value): State {
    match to
    case None => Ended(v, vm)
    case Some(t) =>
      if t !in vm.contexts then Stuck
      else if t in vm.left then Strayed
      else Push(k, t, vm, vm.contexts[t], v)
  }

  /** The stack of a context that control has left, and its place in the code, no longer matter. */
  function Leave(cur: nat, vm: VM, c: Context): VM {
    vm.(contexts := vm.contexts[cur := c.(stack := [], pc := 0)], left := vm.left + {cur})
  }

  /** Where a return through the creating context of a block goes. */
  function HomeOf(vm: VM, c: Context): Option<Option<nat>> {
    if c.creating.Some? && c.creating.value in vm.contexts then Some(vm.contexts[c.creating.value].previous) else None
  }

  /** The method for a message: the one looked up, or doesNotUnderstand with the receiver and the selector. */
  datatype Callee = Callee(method_: nat, args: seq<Value>) | NoMethod

  function FindCallee(k: Kernel, w: Store, from: Option<nat>, args: seq<Value>, selector: Value): Callee
    requires args != []
  {
    var m := k.lookup(w, from, args[0], selector);
    if m.Some? then Callee(m.value, args)
    else
      var d := k.lookup(w, None, args[0], k.badMethod);
      if d.Some? && selector != k.badMethod then Callee(d.value, [args[0], selector]) else NoMethod
  }

  /** What follows a send decides which context the callee returns to, when tail calls are optimized. */
  function Link(k: Kernel, tail: bool, cur: nat, vm: VM, c: Context): Option<Option<nat>> {
    if tail && ByteAt(k.bytes(c.method_), c.pc) == STACK_RETURN then Some(c.previous)
    else if tail && ByteAt(k.bytes(c.method_), c.pc) == BLOCK_RETURN then HomeOf(vm, c)
    else Some(Some(cur))
  }

  /** A new context for the callee; c is the caller, waiting for its answer. */
  function Call(k: Kernel, tail: bool, cur: nat, vm: VM, c: Context, from: Option<nat>, args: seq<Value>, selector: Value): State {
    if args == [] then Stuck
    else
      match FindCallee(k, vm.w, from, args, selector)
      case NoMethod => Stuck
      case Callee(m, a) =>
        var link := Link(k, tail, cur, vm, c);
        if link.None? then Stuck
        else
          var (t, w') := k.newTemporaries(vm.w, m);
          var callee := Context(m, a, t, [], 0, link.value, None, 0, 0);
          Running(vm.next, VM(vm.contexts[cur := c][vm.next := callee], w', vm.next + 1, vm.left))
  }

  function SendFrom(k: Kernel, tail: bool, cur: nat, vm: VM, c: Context, from: Option<nat>, n: nat): State {
    if c.stack != [] && Last(c.stack).Arguments?
    then Call(k, tail, cur, vm, c.(stack := Front(c.stack, 1)), from, Last(c.stack).vals, k.literal(c.method_, n))
    else Stuck
  }

  function Constant(n: nat): Value {
    if n < 10 then SmallInt(n) else if n == NIL_CONST then Nil else if n == TRUE_CONST then True else False
  }

  /** <, <= and + on small integers. */
  function BinaryValue(n: nat, a: int, b: int): Value {
    if n == 0 then Bool(a < b) else if n == 1 then Bool(a <= b) else SmallInt(a + b)
  }

  function Receiver(c: Context): Value {
    if c.args == [] then Nil else c.args[0]
  }

  /** Primitive 8: the block becomes the current context, and returns where the context that ran the
      primitive would. */
  function Invoke(k: Kernel, cur: nat, vm: VM, c: Context, argCount: nat): State {
    if argCount == 0 || |c.stack| < argCount || !Last(c.stack).Object? then Stuck
    else
      var b := Last(c.stack).id;
      if b !in vm.contexts || vm.contexts[b].creating.None? then Stuck
      else
        var block := vm.contexts[b];
        var args := BlockArguments(c.stack, argCount);
        var left := c.(stack := Front(c.stack, argCount));
        match k.enterBlock(vm.w, block.temps, block.argLoc, args)
        case None => Push(k, cur, vm, left, Nil)
        case Some(w') =>
          var gone := Leave(cur, vm, c);
          Running(b, VM(gone.contexts[b := block.(stack := [], pc := block.start, previous := c.previous)], w', vm.next, gone.left - {b}))
  }

  function RunPrimitive(k: Kernel, cur: nat, vm: VM, c: Context, argCount: nat, number: nat): State {
    if number == 8 then Invoke(k, cur, vm, c, argCount)
    else if |c.stack| < argCount then Stuck
    else
      match k.primitive(vm.w, number, Topmost(c.stack, argCount))
      case Done(v, w') => Deliver(k, Leave(cur, vm.(w := w'), c), c.previous, v)
      case Failed(w', popped) =>
        if popped <= |c.stack| then Push(k, cur, vm.(w := w'), c.(stack := Front(c.stack, popped)), Nil) else Stuck
      case LibraryFailed(w') => Push(k, cur, vm.(w := w'), c.(stack := Front(c.stack, argCount)), Nil)
  }

  /** PushBlock: a block is an object, and a context once it is run. */
  function MakeBlock(k: Kernel, cur: nat, vm: VM, c: Context, argLoc: nat, target: nat): State {
    var home := if c.creating.Some? then c.creating else Some(cur);
    var block := Context(c.method_, c.args, c.temps, [], 0, None, home, argLoc, c.pc);
    Push(k, cur, VM(vm.contexts[vm.next := block], vm.w, vm.next + 1, vm.left + {vm.next}), c.(pc := target), Object(vm.next))
  }

  /** One instruction; c is the current context, with its pc past it. */
  function Exec(k: Kernel, tail: bool, cur: nat, vm: VM, c: Context, i: Instr): State {
    var s := c.stack;
    match i
    case PushInstance(n) => Push(k, cur, vm, c, k.field(vm.w, Receiver(c), n))
    case PushArgument(n) => Push(k, cur, vm, c, if n < |c.args| then c.args[n] else Nil)
    case PushTemporary(n) => Push(k, cur, vm, c, k.temporary(vm.w, c.temps, n))
    case PushLiteral(n) => Push(k, cur, vm, c, k.literal(c.method_, n))
    case PushConstant(n) => Push(k, cur, vm, c, Constant(n))
    case AssignInstance(n) => if s == [] then Stuck else With(cur, vm.(w := k.setField(vm.w, Receiver(c), n, Last(s))), c)
    case AssignTemporary(n) => if s == [] then Stuck else With(cur, vm.(w := k.setTemporary(vm.w, c.temps, n, Last(s))), c)
    case MarkArguments(n) =>
      if |s| < n then Stuck else Push(k, cur, vm, c.(stack := Front(s, n)), Arguments(Topmost(s, n)))
    case SendMessage(n) => SendFrom(k, tail, cur, vm, c, None, n)
    case SendToSuper(n) => SendFrom(k, tail, cur, vm, c, Some(c.method_), n)
    case SendUnary(n) => if s == [] then Stuck else Push(k, cur, vm, c.(stack := Front(s, 1)), Unary(n, Last(s)))
    case SendBinary(n) =>
      if |s| < 2 || n > 2 then Stuck
      else
        var a, b := s[|s| - 2], s[|s| - 1];
        var left := c.(stack := Front(s, 2));
        if a.SmallInt? && b.SmallInt? then
          Push(k, cur, vm, left, BinaryValue(n, a.i, b.i))
        else Call(k, tail, cur, vm, left, None, [a, b], Symbol(BINARY_NAMES[n]))
    case PushBlock(argLoc, target) => MakeBlock(k, cur, vm, c, argLoc, target)
    case DoPrimitive(argCount, number) => RunPrimitive(k, cur, vm, c, argCount, number)
    case SelfReturn => Deliver(k, Leave(cur, vm, c), c.previous, Receiver(c))
    case StackReturn =>
      if s == [] then Stuck else Deliver(k, Leave(cur, vm, c), c.previous, Last(s))
    case BlockReturn =>
      if s == [] || HomeOf(vm, c).None? then Stuck
      else Deliver(k, Leave(cur, vm, c), HomeOf(vm, c).value, Last(s))
    case Duplicate => if s == [] then Stuck else Push(k, cur, vm, c, Last(s))
    case PopTop => if s == [] then Stuck else With(cur, vm, c.(stack := Front(s, 1)))
    case Branch(target) => With(cur, vm, c.(pc := target))
    case BranchIfTrue(target) =>
      if s == [] then Stuck else With(cur, vm, c.(stack := Front(s, 1), pc := if Last(s) == True then target else c.pc))
    case BranchIfFalse(target) =>
      if s == [] then Stuck else With(cur, vm, c.(stack := Front(s, 1), pc := if Last(s) == False then target else c.pc))
    case Breakpoint => Stuck
  }

  /** `tail` says whether tail calls are optimized. */
  function Step(k: Kernel, tail: bool, s: State): State {
    if !s.Running? then s
    else if s.cur !in s.vm.contexts then Stuck
    else
      var c := s.vm.contexts[s.cur];
      match Decode(k.bytes(c.method_), c.pc)
      case Invalid => Stuck
      case Decoded(i, next) =>
        var c' := c.(pc := next);
        Exec(k, tail, s.cur, s.vm.(contexts := s.vm.contexts[s.cur := c']), c', i)
  }

  function Run(k: Kernel, tail: bool, s: State, n: nat): State
    decreases n
  {
    if n == 0 then s else Run(k, tail, Step(k, tail, s), n - 1)
  }

  lemma {:induction false} RunAdd(k: Kernel, tail: bool, s: State, a: nat, b: nat)
    ensures Run(k, tail, s, a + b) == Run(k, tail, Run(k, tail, s, a), b)
    decreases a
  {
    hide Step;
    if a > 0 {
      RunAdd(k, tail, Step(k, tail, s), a - 1, b);
    }
  }

  /** A process that has ended stays as it is. */
  lemma {:induction false} RunEnded(k: Kernel, tail: bool, s: State, n: nat)
    requires !s.Running?
    ensures Run(k, tail, s, n) == s
    decreases n
  {
    if n > 0 {
      RunEnded(k, tail, s, n - 1);
    }
  }

  lemma {:induction false} RunFirst(k: Kernel, tail: bool, s: State, n: nat)
    ensures Run(k, tail, s, n) == if n == 0 then s else Run(k, tail, Step(k, tail, s), n - 1)
  {
    hide Step;
  }
}
