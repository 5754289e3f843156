/** The bytecode interpreter, for one activation of a method or block: the loop of `execute` over
    the bytes of the method.  The stack has the size the compiler asked for and no more. */
module Machine {
  import opened Bytes
  import opened Bytecode
  import opened Syntax
  import opened Values
  import opened Evaluator

  datatype Program = Program(bytes: seq<byte>, lits: seq<Value>, stackSize: nat, env: Env)

  datatype State =
    | Running(pc: nat, stack: seq<Value>, w: World)
    | Exited(kind: ExitKind, v: Value, w: World)
    | Diverged
    | Stuck

  function Push(p: Program, pc: nat, stack: seq<Value>, v: Value, w: World): State {
    if |stack| < p.stackSize then Running(pc, stack + [v], w) else Stuck
  }

  function Front(s: seq<Value>): seq<Value>
    requires s != []
  {
    s[..|s| - 1]
  }

  function Last(s: seq<Value>): Value
    requires s != []
  {
    s[|s| - 1]
  }

  function Constant(n: nat): Value {
    if n < 10 then SmallInt(n) else if n == NIL_CONST then Nil else if n == TRUE_CONST then True else False
  }

  /** The callee's answer is pushed when control comes back. */
  function Return(p: Program, pc: nat, stack: seq<Value>, r: SendResult): State {
    match r
    case Answers(v, w) => Push(p, pc, stack, v, w)
    case Unwinds(v, w) => Exited(Unwound, v, w)
    case NeverReturns => Diverged
  }

  function Send(p: Program, pc: nat, stack: seq<Value>, super: bool, n: nat, w: World): State {
    if n < |p.lits| && stack != [] && Last(stack).Arguments?
    then Return(p, pc, Front(stack), p.env.send(w, super, p.lits[n], Last(stack).vals))
    else Stuck
  }

  /** A primitive that succeeds ends the activation; one that fails leaves nil in place of what it popped. */
  function AfterPrimitive(p: Program, pc: nat, stack: seq<Value>, r: PrimResult): State {
    match r
    case Succeeds(v, w) => Exited(ToSender, v, w)
    case Fails(w, popped) => if popped <= |stack| then Push(p, pc, stack[..|stack| - popped], Nil, w) else Stuck
    case PrimUnwinds(v, w) => Exited(Unwound, v, w)
    case PrimNever => Diverged
  }

  /** One instruction, `next` being where the following one starts. */
  function Exec(p: Program, i: Instr, next: nat, stack: seq<Value>, w: World): State {
    match i
    case PushInstance(n) => Push(p, next, stack, p.env.instance(w, n), w)
    case PushArgument(n) => Push(p, next, stack, p.env.argument(w, n), w)
    case PushTemporary(n) => Push(p, next, stack, p.env.temporary(w, n), w)
    case PushLiteral(n) => if n < |p.lits| then Push(p, next, stack, p.lits[n], w) else Stuck
    case PushConstant(n) => Push(p, next, stack, Constant(n), w)
    case AssignInstance(n) => if stack == [] then Stuck else Running(next, stack, p.env.setInstance(w, n, Last(stack)))
    case AssignTemporary(n) => if stack == [] then Stuck else Running(next, stack, p.env.setTemporary(w, n, Last(stack)))
    case MarkArguments(n) =>
      if |stack| < n then Stuck else Push(p, next, stack[..|stack| - n], Arguments(stack[|stack| - n..]), w)
    case SendMessage(n) => Send(p, next, stack, false, n, w)
    case SendToSuper(n) => Send(p, next, stack, true, n, w)
    case SendUnary(n) => if stack == [] then Stuck else Push(p, next, Front(stack), Unary(n, Last(stack)), w)
    case SendBinary(n) =>
      if |stack| < 2 || n > 2 then Stuck
      else Return(p, next, Front(Front(stack)), Binary(p.env, w, n, Last(Front(stack)), Last(stack)))
    case PushBlock(argLoc, target) =>
      var (v, w') := p.env.makeBlock(w, next, argLoc);
      Push(p, target, stack, v, w')
    case DoPrimitive(argCount, number) =>
      if |stack| < argCount then Stuck
      else AfterPrimitive(p, next, stack, p.env.primitive(w, number, stack[|stack| - argCount..]))
    case SelfReturn => Exited(ToSender, p.env.argument(w, 0), w)
    case StackReturn => if stack == [] then Stuck else Exited(ToSender, Last(stack), w)
    case BlockReturn => if stack == [] then Stuck else Exited(ToHome, Last(stack), w)
    case Duplicate => if stack == [] then Stuck else Push(p, next, stack, Last(stack), w)
    case PopTop => if stack == [] then Stuck else Running(next, Front(stack), w)
    case Branch(target) => Running(target, stack, w)
    case BranchIfTrue(target) =>
      if stack == [] then Stuck else Running(if Last(stack) == True then target else next, Front(stack), w)
    case BranchIfFalse(target) =>
      if stack == [] then Stuck else Running(if Last(stack) == False then target else next, Front(stack), w)
    case Breakpoint => Stuck
  }

  function Step(p: Program, m: State): State {
    if !m.Running? then m
    else if m.pc >= |p.bytes| then Stuck
    else
      match Decode(p.bytes, m.pc)
      case Invalid => Stuck
      case Decoded(i, next) => Exec(p, i, next, m.stack, m.w)
  }

  /** The machine is at a primitive that will fail, taking more or less off the stack than its arguments. */
  predicate Miscounting(p: Program, m: State) {
    && m.Running? && m.pc < |p.bytes|
    && match Decode(p.bytes, m.pc)
       case Decoded(DoPrimitive(argCount, number), _) =>
         && argCount <= |m.stack|
         && var r := p.env.primitive(m.w, number, m.stack[|m.stack| - argCount..]);
            r.Fails? && r.popped != argCount
       case _ => false
  }

  function Run(p: Program, m: State, k: nat): State
    decreases k
  {
    if k == 0 then m else Run(p, Step(p, m), k - 1)
  }

  lemma {:induction false} RunAdd(p: Program, m: State, j: nat, k: nat)
    ensures Run(p, m, j + k) == Run(p, Run(p, m, j), k)
    decreases j
  {
    hide Step;
    if j > 0 {
      RunAdd(p, Step(p, m), j - 1, k);
    }
  }

  /** An activation that has ended stays as it is. */
  lemma {:induction false} RunEnded(p: Program, m: State, k: nat)
    requires !m.Running?
    ensures Run(p, m, k) == m
    decreases k
  {
    if k > 0 {
      RunEnded(p, m, k - 1);
    }
  }

  /** An instruction that stands at pc is the one executed. */
  lemma {:induction false} StepAt(p: Program, pc: nat, i: Instr, stack: seq<Value>, w: World)
    requires BytesAt(p.bytes, pc, Encode(i)) && Encodable(i) && Known(i)
    ensures Step(p, Running(pc, stack, w)) == Exec(p, i, pc + |Encode(i)|, stack, w)
  {
    hide Exec, Decode, Encode, Encodable, Known;
    EncodeSize(i);
    assert pc < |p.bytes|;
    hide BytesAt;
    DecodeEncode(p.bytes, pc, i);
  }
}
