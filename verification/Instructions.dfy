/** What each instruction does to the contexts, spelled out. */
module Instructions {
  import opened Options
  import opened Bytecode
  import opened Values
  import opened Contexts

  /** The instruction at which a context stands. */
  ghost predicate StandsAt(k: Kernel, s: State, i: Instr, next: nat) {
    && s.Running? && s.cur in s.vm.contexts
    && Decode(k.bytes(s.vm.contexts[s.cur].method_), s.vm.contexts[s.cur].pc) == Decoded(i, next)
  }

  function Here(s: State): Context
    requires s.Running? && s.cur in s.vm.contexts
  {
    s.vm.contexts[s.cur]
  }

  /** Only the current context and memory have changed. */
  function Becoming(s: State, c: Context, w: Store): State
    requires s.Running?
  {
    Running(s.cur, VM(s.vm.contexts[s.cur := c], w, s.vm.next, s.vm.left))
  }

  /** A value has come on top of these, if there is room for it. */
  function Pushing(k: Kernel, s: State, next: nat, below: seq<Value>, v: Value, w: Store): State
    requires s.Running? && s.cur in s.vm.contexts
  {
    if |below| < k.stackSize(Here(s).method_) then Becoming(s, Here(s).(pc := next, stack := below + [v]), w) else Stuck
  }

  // ---- Values and variables --------------------------------------------------------------------------

  lemma {:induction false} Fetched(k: Kernel, tail: bool, s: State, i: Instr, next: nat)
    requires StandsAt(k, s, i, next)
    ensures var c := Here(s).(pc := next);
            var vm := s.vm.(contexts := s.vm.contexts[s.cur := c]);
            && Step(k, tail, s) == Exec(k, tail, s.cur, vm, c, i)
            && (forall c' :: With(s.cur, vm, c') == Becoming(s, c', s.vm.w))
            && (forall c', w :: With(s.cur, vm.(w := w), c') == Becoming(s, c', w))
            && (forall below, v, w :: Push(k, s.cur, vm.(w := w), c.(stack := below), v) == Pushing(k, s, next, below, v, w))
  {
    hide Exec, Decode;
    var c := Here(s).(pc := next);
  }

  /** The receiver is the first argument; constants 10, 11 and 12 are nil, true and false. */
  lemma {:induction false} PushesVariable(k: Kernel, tail: bool, s: State, i: Instr, next: nat, n: nat)
    requires StandsAt(k, s, i, next)
    ensures var c, w, s' := Here(s), s.vm.w, Step(k, tail, s);
            && (i == PushArgument(n) && n < |c.args| ==> s' == Pushing(k, s, next, c.stack, c.args[n], w))
            && (i == PushTemporary(n) ==> s' == Pushing(k, s, next, c.stack, k.temporary(w, c.temps, n), w))
            && (i == PushInstance(n) && c.args != [] ==> s' == Pushing(k, s, next, c.stack, k.field(w, c.args[0], n), w))
            && (i == PushLiteral(n) ==> s' == Pushing(k, s, next, c.stack, k.literal(c.method_, n), w))
            && (i == PushConstant(n) && n <= 12 ==>
                  s' == Pushing(k, s, next, c.stack, if n < 10 then SmallInt(n) else if n == 10 then Nil else if n == 11 then True else False, w))
  {
    Fetched(k, tail, s, i, next);
    hide Decode, With, Push, Pushing, Becoming;
    assert Here(s).(pc := next) == Here(s).(pc := next).(stack := Here(s).stack);
    assert s.vm.(contexts := s.vm.contexts[s.cur := Here(s).(pc := next)]) == s.vm.(contexts := s.vm.contexts[s.cur := Here(s).(pc := next)]).(w := s.vm.w);
  }

  /** The value that is assigned stays on the stack. */
  lemma {:induction false} Assigns(k: Kernel, tail: bool, s: State, i: Instr, next: nat, n: nat, below: seq<Value>, v: Value)
    requires StandsAt(k, s, i, next) && Here(s).stack == below + [v]
    ensures var c, w, s' := Here(s), s.vm.w, Step(k, tail, s);
            && (i == AssignTemporary(n) ==> s' == Becoming(s, c.(pc := next), k.setTemporary(w, c.temps, n, v)))
            && (i == AssignInstance(n) && c.args != [] ==> s' == Becoming(s, c.(pc := next), k.setField(w, c.args[0], n, v)))
  {
    Fetched(k, tail, s, i, next);
    hide Decode, With, Push, Pushing, Becoming;
  }

  lemma {:induction false} OnTop(k: Kernel, tail: bool, s: State, i: Instr, next: nat, below: seq<Value>, v: Value, target: nat)
    requires StandsAt(k, s, i, next) && Here(s).stack == below + [v]
    ensures var c, w, s' := Here(s), s.vm.w, Step(k, tail, s);
            && (i == Duplicate ==> s' == Pushing(k, s, next, c.stack, v, w))
            && (i == PopTop ==> s' == Becoming(s, c.(pc := next, stack := below), w))
            && (i == SendUnary(0) ==> s' == Pushing(k, s, next, below, if v == Nil then True else False, w))
            && (i == SendUnary(1) ==> s' == Pushing(k, s, next, below, if v == Nil then False else True, w))
            && (i == Branch(target) ==> s' == Becoming(s, c.(pc := target), w))
            && (i == BranchIfTrue(target) ==> s' == Becoming(s, c.(pc := if v == True then target else next, stack := below), w))
            && (i == BranchIfFalse(target) ==> s' == Becoming(s, c.(pc := if v == False then target else next, stack := below), w))
  {
    Fetched(k, tail, s, i, next);
    hide Decode, With, Push, Pushing, Becoming;
    var c := Here(s).(pc := next);
    assert Front(c.stack, 1) == below;
    assert c == c.(stack := c.stack);
    var vm := s.vm.(contexts := s.vm.contexts[s.cur := c]);
    assert vm == vm.(w := s.vm.w);
  }

  lemma {:induction false} MarksArguments(k: Kernel, tail: bool, s: State, next: nat, below: seq<Value>, args: seq<Value>)
    requires StandsAt(k, s, MarkArguments(|args|), next) && Here(s).stack == below + args
    ensures Step(k, tail, s) == Pushing(k, s, next, below, Arguments(args), s.vm.w)
  {
    Fetched(k, tail, s, MarkArguments(|args|), next);
    hide Decode, With, Push, Pushing, Becoming;
    var c := Here(s).(pc := next);
    assert Front(c.stack, |args|) == below && Topmost(c.stack, |args|) == args;
    var vm := s.vm.(contexts := s.vm.contexts[s.cur := c]);
    assert vm == vm.(w := s.vm.w);
  }

  // ---- Returns ---------------------------------------------------------------------------------------

  /** Control has left the current context for good, and a value is on the stack of another; a process without
      another one has ended. */
  ghost predicate HandsOver(k: Kernel, s: State, s': State, to: Option<nat>, v: Value, w: Store)
    requires s.Running? && s.cur in s.vm.contexts
  {
    var contexts := s.vm.contexts[s.cur := Here(s).(stack := [], pc := 0)];
    var left := s.vm.left + {s.cur};
    if to.None? then s' == Ended(v, VM(contexts, w, s.vm.next, left))
    else if to.value !in contexts then s' == Stuck
    else if to.value in left then s' == Strayed
    else
      var t := s.vm.contexts[to.value];
      if |t.stack| < k.stackSize(t.method_)
      then s' == Running(to.value, VM(contexts[to.value := t.(stack := t.stack + [v])], w, s.vm.next, left))
      else s' == Stuck
  }

  lemma {:induction false} Handed(k: Kernel, tail: bool, s: State, i: Instr, next: nat, to: Option<nat>, v: Value, w: Store)
    requires StandsAt(k, s, i, next)
    ensures var c := Here(s).(pc := next);
            var vm := s.vm.(contexts := s.vm.contexts[s.cur := c]);
            HandsOver(k, s, Deliver(k, Leave(s.cur, vm.(w := w), c), to, v), to, v, w)
  {
    hide Decode;
    var c := Here(s).(pc := next);
    assert s.vm.contexts[s.cur := c][s.cur := c.(stack := [], pc := 0)] == s.vm.contexts[s.cur := Here(s).(stack := [], pc := 0)];
  }

  /** Back to the sender; from a block, a return goes to the sender of the method that made the block. */
  lemma {:induction false} ReturnsTo(k: Kernel, tail: bool, s: State, i: Instr, next: nat, below: seq<Value>, v: Value)
    requires StandsAt(k, s, i, next)
    ensures var c, s', w := Here(s), Step(k, tail, s), s.vm.w;
            && (i == SelfReturn && c.args != [] ==> HandsOver(k, s, s', c.previous, c.args[0], w))
            && (i == StackReturn && c.stack == below + [v] ==> HandsOver(k, s, s', c.previous, v, w))
            && (i == BlockReturn && c.stack == below + [v] && c.creating.Some? && c.creating.value in s.vm.contexts ==>
                  HandsOver(k, s, s', s.vm.contexts[c.creating.value].previous, v, w))
  {
    Fetched(k, tail, s, i, next);
    var c := Here(s).(pc := next);
    var vm := s.vm.(contexts := s.vm.contexts[s.cur := c]);
    assert vm == vm.(w := s.vm.w);
    hide Decode, With, Push, Pushing, Becoming, HandsOver, Deliver, Leave;
    forall to, u ensures HandsOver(k, s, Deliver(k, Leave(s.cur, vm, c), to, u), to, u, s.vm.w) {
      Handed(k, tail, s, i, next, to, u, s.vm.w);
    }
    if i == BlockReturn && c.stack == below + [v] && c.creating.Some? && c.creating.value in s.vm.contexts {
      assert HomeOf(vm, c) == Some(s.vm.contexts[c.creating.value].previous);
    }
  }

  // ---- Blocks and primitives -------------------------------------------------------------------------

  /** A block has the arguments and temporaries of where it is made, and its code starts after the instruction; a
      block made in a block is its method's too. */
  lemma {:induction false} MakesBlock(k: Kernel, tail: bool, s: State, next: nat, argLoc: nat, target: nat)
    requires StandsAt(k, s, PushBlock(argLoc, target), next) && s.cur != s.vm.next
    ensures var c, b := Here(s), s.vm.next;
            var block := Context(c.method_, c.args, c.temps, [], 0, None, if c.creating.None? then Some(s.cur) else c.creating, argLoc, next);
            Step(k, tail, s) ==
            if |c.stack| < k.stackSize(c.method_)
            then Running(s.cur, VM(s.vm.contexts[b := block][s.cur := c.(pc := target, stack := c.stack + [Object(b)])],
                                   s.vm.w, b + 1, s.vm.left + {b}))
            else Stuck
  {
    Fetched(k, tail, s, PushBlock(argLoc, target), next);
    hide Decode;
    var c, b := Here(s).(pc := next), s.vm.next;
    var block := Context(c.method_, c.args, c.temps, [], 0, None, if c.creating.None? then Some(s.cur) else c.creating, argLoc, next);
    var last := c.(pc := target, stack := c.stack + [Object(b)]);
    assert s.vm.contexts[s.cur := c][b := block][s.cur := last] == s.vm.contexts[b := block][s.cur := last];
  }

  /** The block takes the place of the context that runs it, and starts at its first instruction; one that refuses its
      arguments answers nil. */
  lemma {:induction false} RunsBlock(k: Kernel, tail: bool, s: State, next: nat, below: seq<Value>, args: seq<Value>, b: nat)
    requires StandsAt(k, s, DoPrimitive(|args| + 1, 8), next) && Here(s).stack == below + args + [Object(b)]
    requires b in s.vm.contexts && b != s.cur && s.vm.contexts[b].creating.Some?
    ensures var c, block := Here(s), s.vm.contexts[b];
            Step(k, tail, s) ==
            match k.enterBlock(s.vm.w, block.temps, block.argLoc, args)
            case None => Pushing(k, s, next, below, Nil, s.vm.w)
            case Some(w) =>
              Running(b, VM(s.vm.contexts[s.cur := c.(stack := [], pc := 0)][b := block.(stack := [], pc := block.start, previous := c.previous)],
                            w, s.vm.next, s.vm.left + {s.cur} - {b}))
  {
    Fetched(k, tail, s, DoPrimitive(|args| + 1, 8), next);
    hide Decode, With, Push, Pushing, Becoming;
    var c, block := Here(s).(pc := next), s.vm.contexts[b];
    assert Last(c.stack) == Object(b);
    assert Front(c.stack, |args| + 1) == below;
    assert BlockArguments(c.stack, |args| + 1) == args;
    var vm := s.vm.(contexts := s.vm.contexts[s.cur := c]);
    assert vm == vm.(w := s.vm.w);
    assert s.vm.contexts[s.cur := c][s.cur := c.(stack := [], pc := 0)] == s.vm.contexts[s.cur := c.(stack := [], pc := 0)];
  }

  /** A primitive that succeeds answers for the whole method; one that fails leaves nil in place of what it took,
      and one of the library takes its arguments. */
  lemma {:induction false} RunsPrimitive(k: Kernel, tail: bool, s: State, next: nat, number: nat, below: seq<Value>, args: seq<Value>)
    requires StandsAt(k, s, DoPrimitive(|args|, number), next) && number != 8 && Here(s).stack == below + args
    ensures var c, s' := Here(s), Step(k, tail, s);
            match k.primitive(s.vm.w, number, args)
            case Done(v, w) => HandsOver(k, s, s', c.previous, v, w)
            case Failed(w, popped) => popped <= |c.stack| ==> s' == Pushing(k, s, next, c.stack[..|c.stack| - popped], Nil, w)
            case LibraryFailed(w) => s' == Pushing(k, s, next, below, Nil, w)
  {
    Fetched(k, tail, s, DoPrimitive(|args|, number), next);
    hide Decode, With, Push, Pushing, Becoming, HandsOver, Deliver, Leave;
    var c := Here(s).(pc := next);
    assert Topmost(c.stack, |args|) == args && Front(c.stack, |args|) == below;
    match k.primitive(s.vm.w, number, args)
    case Done(v, w) => Handed(k, tail, s, DoPrimitive(|args|, number), next, c.previous, v, w);
    case Failed(_, _) =>
    case LibraryFailed(_) =>
  }
}
