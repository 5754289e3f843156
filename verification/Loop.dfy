/** The loop of `execute` on the registers, as it is written: what it does depends on nothing but memory and
    registers. */
module Loop {
  import opened Options
  import opened Bytecode
  import opened Syntax
  import opened Values
  import opened Contexts
  import opened Registers

  datatype Outcome =
    | Going(r: Regs)
    | Over(v: Value, r: Regs)
    | Bad

  // ---- Registers filled when needed ------------------------------------------------------------------

  function First(args: seq<Value>): Value {
    if args == [] then Nil else args[0]
  }

  function ArgumentsOf(r: Regs): seq<Value>
    requires r.context in r.frames
  {
    if r.spare.arguments.Some? then r.spare.arguments.value else r.frames[r.context].args
  }

  function TemporariesOf(r: Regs): nat
    requires r.context in r.frames
  {
    if r.spare.temporaries.Some? then r.spare.temporaries.value else r.frames[r.context].temps
  }

  function LiteralsOf(r: Regs): nat {
    if r.spare.literals.Some? then r.spare.literals.value else r.method_
  }

  function ReceiverOf(r: Regs): Value
    requires r.context in r.frames
  {
    if r.spare.instanceVariables.Some? then r.spare.instanceVariables.value else First(ArgumentsOf(r))
  }

  function WithArguments(r: Regs): Regs
    requires r.context in r.frames
  {
    r.(spare := r.spare.(arguments := Some(ArgumentsOf(r))))
  }

  function WithTemporaries(r: Regs): Regs
    requires r.context in r.frames
  {
    r.(spare := r.spare.(temporaries := Some(TemporariesOf(r))))
  }

  function WithLiterals(r: Regs): Regs {
    r.(spare := r.spare.(literals := Some(LiteralsOf(r))))
  }

  function WithReceiver(r: Regs): Regs
    requires r.context in r.frames
  {
    r.(spare := r.spare.(arguments := Some(ArgumentsOf(r)), instanceVariables := Some(ReceiverOf(r))))
  }

  /** A value is computed. */
  function Holding(r: Regs, v: Value): Regs {
    r.(spare := r.spare.(returnedValue := v))
  }

  /** A register that has been filled has what the context has. */
  ghost predicate Cached(r: Regs) {
    && r.context in r.frames
    && (r.spare.arguments.Some? ==> r.spare.arguments.value == r.frames[r.context].args)
    && (r.spare.temporaries.Some? ==> r.spare.temporaries.value == r.frames[r.context].temps)
    && (r.spare.literals.Some? ==> r.spare.literals.value == r.method_)
    && (r.spare.instanceVariables.Some? ==> r.spare.instanceVariables.value == First(r.frames[r.context].args))
  }

  // ---- Instructions ----------------------------------------------------------------------------------

  function TopValue(r: Regs): Value {
    if r.stack in r.stacks && 0 < r.stackTop <= |r.stacks[r.stack]| then r.stacks[r.stack][r.stackTop - 1] else Nil
  }

  /** The n topmost values. */
  function TopValues(r: Regs, n: nat): seq<Value> {
    if r.stack in r.stacks && n <= r.stackTop <= |r.stacks[r.stack]| then r.stacks[r.stack][r.stackTop - n..r.stackTop] else []
  }

  function Pushing(r: Regs, v: Value): Outcome {
    if r.stack in r.stacks && r.stackTop < |r.stacks[r.stack]| then Going(Pushed(r, v)) else Bad
  }

  function Replacing(r: Regs, n: nat, v: Value): Outcome {
    if n <= r.stackTop then Pushing(Popped(r, n), v) else Bad
  }

  /** doReturn2: whatever was last saved in the context returned to is taken up again. */
  function Returning(r: Regs, to: Option<nat>, v: Value): Outcome {
    match to
    case None => Over(v, Departed(r))
    case Some(t) => if t in r.frames then Pushing(Holding(Entered(r, t), v), v) else Bad
  }

  /** Where a return through the creating context of the current one goes. */
  function HomeTarget(r: Regs): Option<Option<nat>>
    requires r.context in r.frames
  {
    var home := r.frames[r.context].creating;
    if home.Some? && home.value in r.frames then Some(r.frames[home.value].previous) else None
  }

  function LinkOf(k: Kernel, r: Regs): Option<Option<nat>>
    requires r.context in r.frames
  {
    var b := ByteAt(k.bytes(r.method_), r.bytePointer);
    if b == STACK_RETURN then Some(r.frames[r.context].previous)
    else if b == BLOCK_RETURN then HomeTarget(r)
    else Some(Some(r.context))
  }

  function Calling(k: Kernel, r: Regs, from: Option<nat>, args: seq<Value>, selector: Value): Outcome
    requires r.context in r.frames
  {
    if args == [] then Bad
    else
      match FindCallee(k, r.w, from, args, selector)
      case NoMethod => Bad
      case Callee(m, a) =>
        var link := LinkOf(k, r);
        if link.None? then Bad
        else var (t, w') := k.newTemporaries(r.w, m); Going(Called(k, r, m, a, t, w', link.value))
  }

  function Sending(k: Kernel, r: Regs, from: Option<nat>, n: nat): Outcome
    requires r.context in r.frames
  {
    if r.stackTop > 0 && TopValue(r).Arguments?
    then Calling(k, Popped(WithLiterals(r), 1), from, TopValue(r).vals, k.literal(LiteralsOf(r), n))
    else Bad
  }

  function SendingBinary(k: Kernel, r: Regs, n: nat): Outcome
    requires r.context in r.frames
  {
    var s := TopValues(r, 2);
    if |s| < 2 || n > 2 then Bad
    else if s[0].SmallInt? && s[1].SmallInt? then
      Replacing(Holding(r, BinaryValue(n, s[0].i, s[1].i)), 2, BinaryValue(n, s[0].i, s[1].i))
    else if r.stackTop < 2 then Bad
    else Calling(k, Popped(r, 2), None, s, Symbol(BINARY_NAMES[n]))
  }

  /** The block is refused when it has too many arguments for its temporaries -- which are in their register by
      then. */
  function Refused(r: Regs, b: nat): Regs
    requires b in r.frames
  {
    r.(spare := r.spare.(temporaries := if r.frames[b].temps == NO_TEMPORARIES then None else Some(r.frames[b].temps), returnedValue := Nil))
  }

  function Invoking(k: Kernel, r: Regs, argCount: nat): Outcome
    requires r.context in r.frames
  {
    var s := TopValues(r, argCount);
    if s == [] || !s[|s| - 1].Object? then Bad
    else
      var b := s[|s| - 1].id;
      if b !in r.frames || r.frames[b].creating.None? then Bad
      else
        match k.enterBlock(r.w, r.frames[b].temps, r.frames[b].argLoc, s[..|s| - 1])
        case None => Replacing(Refused(r, b), argCount, Nil)
        case Some(w') => Going(Invoked(r, b, w'))
  }

  /** One of the library that fails leaves its own arguments in the register for the arguments. */
  function Answering(r: Regs, vals: seq<Value>, answer: PrimAnswer): Outcome
    requires r.context in r.frames
  {
    match answer
    case Done(v, w') => Returning(r.(w := w'), r.frames[r.context].previous, v)
    case Failed(w', popped) => Replacing(Holding(r.(w := w'), Nil), popped, Nil)
    case LibraryFailed(w') => Replacing(r.(w := w', spare := r.spare.(arguments := Some(vals), returnedValue := Nil)), |vals|, Nil)
  }

  /** Flushing the method cache computes no value: it answers the last one computed. */
  function Held(r: Regs, number: nat, answer: PrimAnswer): PrimAnswer {
    if number == FLUSH_CACHE && answer.Done? then answer.(v := r.spare.returnedValue) else answer
  }

  function Executing(k: Kernel, r: Regs, i: Instr): Outcome
    requires r.context in r.frames
  {
    match i
    case PushInstance(n) => Pushing(WithReceiver(r), k.field(r.w, ReceiverOf(r), n))
    case PushArgument(n) => Pushing(WithArguments(r), if n < |ArgumentsOf(r)| then ArgumentsOf(r)[n] else Nil)
    case PushTemporary(n) => Pushing(WithTemporaries(r), k.temporary(r.w, TemporariesOf(r), n))
    case PushLiteral(n) => Pushing(WithLiterals(r), k.literal(LiteralsOf(r), n))
    case PushConstant(n) => Pushing(r, Constant(n))
    case AssignInstance(n) =>
      if r.stackTop == 0 then Bad else Going(WithReceiver(r).(w := k.setField(r.w, ReceiverOf(r), n, TopValue(r))))
    case AssignTemporary(n) =>
      if r.stackTop == 0 then Bad else Going(WithTemporaries(r).(w := k.setTemporary(r.w, TemporariesOf(r), n, TopValue(r))))
    case MarkArguments(n) => Replacing(r.(spare := r.spare.(arguments := None)), n, Arguments(TopValues(r, n)))
    case SendMessage(n) => Sending(k, r, None, n)
    case SendToSuper(n) => Sending(k, r, Some(r.method_), n)
    case SendUnary(n) => Replacing(Holding(r, Unary(n, TopValue(r))), 1, Unary(n, TopValue(r)))
    case SendBinary(n) => SendingBinary(k, r, n)
    case PushBlock(argLoc, target) => Pushing(Blocked(k, r, argLoc).(bytePointer := target), Object(r.next))
    case DoPrimitive(argCount, number) =>
      if number == 8 then Invoking(k, r, argCount)
      else if argCount > r.stackTop then Bad
      else Answering(r, TopValues(r, argCount), Held(r, number, k.primitive(r.w, number, TopValues(r, argCount))))
    case SelfReturn => Returning(r, r.frames[r.context].previous, First(ArgumentsOf(r)))
    case StackReturn => if r.stackTop == 0 then Bad else Returning(r, r.frames[r.context].previous, TopValue(r))
    case BlockReturn => if r.stackTop == 0 || HomeTarget(r).None? then Bad else Returning(r, HomeTarget(r).value, TopValue(r))
    case Duplicate => if r.stackTop == 0 then Bad else Pushing(Holding(r, TopValue(r)), TopValue(r))
    case PopTop => if r.stackTop == 0 then Bad else Going(Popped(r, 1))
    case Branch(target) => Going(r.(bytePointer := target))
    case BranchIfTrue(target) =>
      if r.stackTop == 0 then Bad else Going(Popped(Holding(r, TopValue(r)), 1).(bytePointer := if TopValue(r) == True then target else r.bytePointer))
    case BranchIfFalse(target) =>
      if r.stackTop == 0 then Bad else Going(Popped(Holding(r, TopValue(r)), 1).(bytePointer := if TopValue(r) == False then target else r.bytePointer))
    case Breakpoint => Bad
  }

  /** Fetch, decode, execute. */
  function Stepping(k: Kernel, r: Regs): Outcome {
    if r.context !in r.frames then Bad
    else
      match Decode(k.bytes(r.method_), r.bytePointer)
      case Invalid => Bad
      case Decoded(i, next) => Executing(k, r.(bytePointer := next), i)
  }

  function Looping(k: Kernel, o: Outcome, n: nat): Outcome
    decreases n
  {
    if n == 0 || !o.Going? then o else Looping(k, Stepping(k, o.r), n - 1)
  }

  // ---- A process between runs ------------------------------------------------------------------------

  /** The context it waits in, and memory with all registers saved. */
  datatype Process =
    | Waiting(context: nat, r: Regs)
    | Finished(v: Value, r: Regs)
    | Wrecked

  /** A tick expires: the registers go into the current context. */
  function Suspended(r: Regs): Process {
    if r.context in r.frames then Waiting(r.context, Saved(r).(loaded := false)) else Wrecked
  }

  /** execute, for n ticks: one instruction fewer. */
  function Slice(k: Kernel, p: Process, n: nat): Process {
    if !p.Waiting? || n == 0 || p.context !in p.r.frames then p
    else
      match Looping(k, Going(Loaded(p.r, p.context)), n - 1)
      case Going(r) => Suspended(r)
      case Over(v, r) => Finished(v, r)
      case Bad => Wrecked
  }

  function Slices(k: Kernel, p: Process, slices: seq<nat>): Process
    decreases |slices|
  {
    if slices == [] then p else Slices(k, Slice(k, p, slices[0]), slices[1..])
  }

  /** The instructions in slices of so many ticks. */
  function Steps(slices: seq<nat>): nat {
    if slices == [] then 0 else (if slices[0] == 0 then 0 else slices[0] - 1) + Steps(slices[1..])
  }

  /** What the process looks like to those who see only contexts. */
  function StateIn(p: Process): State {
    match p
    case Waiting(c, r) => Running(c, Abs(r))
    case Finished(v, r) => Ended(v, Abs(r))
    case Wrecked => Stuck
  }

  /** A process that can be run: its context is one that control has not left. */
  ghost predicate Ready(k: Kernel, p: Process) {
    p.Waiting? && Memory(k, p.r) && !p.r.loaded && p.context in p.r.frames && p.context !in p.r.left
  }
}
