/** A context that waits, seen from those that are run meanwhile: what is on its stack, and where it stands, make
    no difference to them until control comes back to it. */
module Frames {
  import opened Options
  import opened Bytecode
  import opened Syntax
  import opened Values
  import opened Contexts

  /** cur has this below what is on its stack, and this place in its code. */
  function Under(cur: nat, stack: seq<Value>, pc: nat, vm: VM): VM {
    if cur in vm.contexts
    then vm.(contexts := vm.contexts[cur := vm.contexts[cur].(stack := stack + vm.contexts[cur].stack, pc := pc)])
    else vm
  }

  function UnderState(cur: nat, stack: seq<Value>, pc: nat, s: State): State {
    match s
    case Running(d, vm) => Running(d, Under(cur, stack, pc, vm))
    case Ended(v, vm) => Ended(v, Under(cur, stack, pc, vm))
    case other => other
  }

  /** Another context is run, and cur waits with nothing on its stack. */
  ghost predicate Waits(cur: nat, s: State) {
    s.Running? && s.cur != cur && cur in s.vm.contexts && s.vm.contexts[cur].stack == [] && cur < s.vm.next
  }

  /** Control has come to cur with one value, or is elsewhere and cur is as it was. */
  ghost predicate Onward(cur: nat, before: Context, s: State) {
    match s
    case Running(d, vm) =>
      && cur in vm.contexts && cur < vm.next
      && (if d == cur then |vm.contexts[cur].stack| == 1 && vm.contexts[cur] == before.(stack := vm.contexts[cur].stack)
          else vm.contexts[cur] == before)
    case Ended(v, vm) => cur in vm.contexts && vm.contexts[cur] == before
    case _ => true
  }

  /** What becomes of s when cur has a stack: there may be no room on it for the value. */
  ghost function Beneath(k: Kernel, cur: nat, stack: seq<Value>, pc: nat, s: State): State {
    if s.Running? && s.cur == cur && cur in s.vm.contexts && |stack| >= k.stackSize(s.vm.contexts[cur].method_) then Stuck
    else UnderState(cur, stack, pc, s)
  }

  /** t is where the step from s comes to. */
  ghost predicate Keeps(k: Kernel, cur: nat, stack: seq<Value>, pc: nat, before: Context, t: State, t': State) {
    t.Stuck? || t.Strayed? || (t.Running? && t.cur == cur && cur in t.vm.contexts && t.vm.contexts[cur].stack == [])
    || (Onward(cur, before, t) && t' == Beneath(k, cur, stack, pc, t))
  }

  // ---- Changes that leave the waiting context alone --------------------------------------------------

  lemma {:induction false} UnderOther(cur: nat, stack: seq<Value>, pc: nat, vm: VM, d: nat, c: Context, w: Store)
    requires cur in vm.contexts && d != cur
    ensures var u := Under(cur, stack, pc, vm);
            u.(contexts := u.contexts[d := c], w := w) == Under(cur, stack, pc, vm.(contexts := vm.contexts[d := c], w := w))
  {
    var u := Under(cur, stack, pc, vm);
    assert u.contexts[d := c] == Under(cur, stack, pc, vm.(contexts := vm.contexts[d := c], w := w)).contexts;
  }

  lemma {:induction false} UnderFacts(cur: nat, stack: seq<Value>, pc: nat, vm: VM)
    requires cur in vm.contexts
    ensures var u := Under(cur, stack, pc, vm);
            && u.contexts.Keys == vm.contexts.Keys && u.w == vm.w && u.next == vm.next && u.left == vm.left
            && (forall d | d in vm.contexts && d != cur :: u.contexts[d] == vm.contexts[d])
            && (forall d | d in vm.contexts :: u.contexts[d].previous == vm.contexts[d].previous)
  {}

  lemma {:induction false} WithFrames(k: Kernel, cur: nat, stack: seq<Value>, pc: nat, vm: VM, d: nat, c: Context, w: Store)
    requires cur in vm.contexts && cur < vm.next && d != cur
    ensures Keeps(k, cur, stack, pc, vm.contexts[cur], With(d, vm.(w := w), c), With(d, Under(cur, stack, pc, vm).(w := w), c))
  {
    UnderOther(cur, stack, pc, vm, d, c, w);
    hide Under;
    assert vm.(w := w).(contexts := vm.contexts[d := c]) == vm.(contexts := vm.contexts[d := c], w := w);
  }

  lemma {:induction false} PushFrames(k: Kernel, cur: nat, stack: seq<Value>, pc: nat, vm: VM, d: nat, c: Context, v: Value, w: Store)
    requires cur in vm.contexts && cur < vm.next && d != cur
    ensures Keeps(k, cur, stack, pc, vm.contexts[cur], Push(k, d, vm.(w := w), c, v), Push(k, d, Under(cur, stack, pc, vm).(w := w), c, v))
  {
    WithFrames(k, cur, stack, pc, vm, d, c.(stack := c.stack + [v]), w);
    hide Under, With;
  }

  lemma {:induction false} LeaveUnder(cur: nat, stack: seq<Value>, pc: nat, vm: VM, d: nat, c: Context)
    requires cur in vm.contexts && d != cur
    ensures Leave(d, Under(cur, stack, pc, vm), c) == Under(cur, stack, pc, Leave(d, vm, c))
    ensures cur in Leave(d, vm, c).contexts && Leave(d, vm, c).contexts[cur] == vm.contexts[cur] && Leave(d, vm, c).next == vm.next
  {
    UnderOther(cur, stack, pc, vm, d, c.(stack := [], pc := 0), vm.w);
  }

  lemma {:induction false} DeliverFrames(k: Kernel, cur: nat, stack: seq<Value>, pc: nat, vm: VM, to: Option<nat>, v: Value)
    requires cur in vm.contexts && cur < vm.next && vm.contexts[cur].stack == [] && vm.contexts[cur].pc == 0
    ensures Keeps(k, cur, stack, pc, vm.contexts[cur], Deliver(k, vm, to, v), Deliver(k, Under(cur, stack, pc, vm), to, v))
  {
    UnderFacts(cur, stack, pc, vm);
    if to.Some? && to.value in vm.contexts && to.value !in vm.left {
      if to.value == cur {
        ToWaiting(k, cur, stack, pc, vm, v);
      } else {
        PushFrames(k, cur, stack, pc, vm, to.value, vm.contexts[to.value], v, vm.w);
        assert vm.(w := vm.w) == vm && Under(cur, stack, pc, vm).(w := vm.w) == Under(cur, stack, pc, vm);
      }
    }
    hide Push;
  }

  /** The value for which cur waits. */
  lemma {:induction false} ToWaiting(k: Kernel, cur: nat, stack: seq<Value>, pc: nat, vm: VM, v: Value)
    requires cur in vm.contexts && cur < vm.next && vm.contexts[cur].stack == [] && vm.contexts[cur].pc == 0
    ensures Keeps(k, cur, stack, pc, vm.contexts[cur], Push(k, cur, vm, vm.contexts[cur], v),
                   Push(k, cur, Under(cur, stack, pc, vm), Under(cur, stack, pc, vm).contexts[cur], v))
  {
    var u := Under(cur, stack, pc, vm);
    var c := vm.contexts[cur];
    assert stack + [] == stack && [] + [v] == [v];
    assert u.contexts[cur] == c.(stack := stack, pc := pc);
    if 0 < k.stackSize(c.method_) {
      var t := vm.(contexts := vm.contexts[cur := c.(stack := [v])]);
      assert Push(k, cur, vm, c, v) == Running(cur, t);
      assert u.contexts[cur := c.(stack := stack + [v], pc := pc)] == Under(cur, stack, pc, t).contexts;
    }
  }

  // ---- Instructions ----------------------------------------------------------------------------------

  predicate Plain(i: Instr) {
    !i.SendMessage? && !i.SendToSuper? && !i.SendBinary? && !i.DoPrimitive? && !i.PushBlock? && !i.SelfReturn? && !i.StackReturn? && !i.BlockReturn?
  }

  lemma {:induction false} PlainFrames(k: Kernel, cur: nat, stack: seq<Value>, pc: nat, d: nat, vm: VM, c: Context, i: Instr)
    requires cur in vm.contexts && cur < vm.next && d != cur && Plain(i)
    ensures Keeps(k, cur, stack, pc, vm.contexts[cur], Exec(k, false, d, vm, c, i), Exec(k, false, d, Under(cur, stack, pc, vm), c, i))
  {
    UnderFacts(cur, stack, pc, vm);
    var u, w, s := Under(cur, stack, pc, vm), vm.w, c.stack;
    assert vm.(w := w) == vm && u.(w := w) == u;
    hide Push, With, Under, Constant, Unary, Receiver;
    match i
    case PushInstance(n) => PushFrames(k, cur, stack, pc, vm, d, c, k.field(w, Receiver(c), n), w);
    case PushArgument(n) => PushFrames(k, cur, stack, pc, vm, d, c, if n < |c.args| then c.args[n] else Nil, w);
    case PushTemporary(n) => PushFrames(k, cur, stack, pc, vm, d, c, k.temporary(w, c.temps, n), w);
    case PushLiteral(n) => PushFrames(k, cur, stack, pc, vm, d, c, k.literal(c.method_, n), w);
    case PushConstant(n) => PushFrames(k, cur, stack, pc, vm, d, c, Constant(n), w);
    case AssignInstance(n) => if s != [] { WithFrames(k, cur, stack, pc, vm, d, c, k.setField(w, Receiver(c), n, Last(s))); }
    case AssignTemporary(n) => if s != [] { WithFrames(k, cur, stack, pc, vm, d, c, k.setTemporary(w, c.temps, n, Last(s))); }
    case MarkArguments(n) =>
      if n <= |s| { PushFrames(k, cur, stack, pc, vm, d, c.(stack := Front(s, n)), Arguments(Topmost(s, n)), w); }
    case SendUnary(n) => if s != [] { PushFrames(k, cur, stack, pc, vm, d, c.(stack := Front(s, 1)), Unary(n, Last(s)), w); }
    case Duplicate => if s != [] { PushFrames(k, cur, stack, pc, vm, d, c, Last(s), w); }
    case PopTop => if s != [] { WithFrames(k, cur, stack, pc, vm, d, c.(stack := Front(s, 1)), w); }
    case Branch(target) => WithFrames(k, cur, stack, pc, vm, d, c.(pc := target), w);
    case BranchIfTrue(target) =>
      if s != [] { WithFrames(k, cur, stack, pc, vm, d, c.(stack := Front(s, 1), pc := if Last(s) == True then target else c.pc), w); }
    case BranchIfFalse(target) =>
      if s != [] { WithFrames(k, cur, stack, pc, vm, d, c.(stack := Front(s, 1), pc := if Last(s) == False then target else c.pc), w); }
    case Breakpoint =>
  }

  lemma {:induction false} BlockFrames(k: Kernel, cur: nat, stack: seq<Value>, pc: nat, d: nat, vm: VM, c: Context, argLoc: nat, target: nat)
    requires cur in vm.contexts && cur < vm.next && d != cur
    ensures Keeps(k, cur, stack, pc, vm.contexts[cur], MakeBlock(k, d, vm, c, argLoc, target), MakeBlock(k, d, Under(cur, stack, pc, vm), c, argLoc, target))
  {
    var home := if c.creating.Some? then c.creating else Some(d);
    var block := Context(c.method_, c.args, c.temps, [], 0, None, home, argLoc, c.pc);
    var made := VM(vm.contexts[vm.next := block], vm.w, vm.next + 1, vm.left + {vm.next});
    MadeUnder(cur, stack, pc, vm, block, vm.w, vm.left + {vm.next});
    PushFrames(k, cur, stack, pc, made, d, c.(pc := target), Object(vm.next), vm.w);
    assert made.(w := vm.w) == made;
    UnderFacts(cur, stack, pc, made);
    assert Under(cur, stack, pc, made).(w := vm.w) == Under(cur, stack, pc, made);
    hide Push, Under;
  }

  /** A new context. */
  lemma {:induction false} MadeUnder(cur: nat, stack: seq<Value>, pc: nat, vm: VM, c: Context, w: Store, left: set<nat>)
    requires cur in vm.contexts && cur < vm.next
    ensures var u := Under(cur, stack, pc, vm);
            && u.next == vm.next && u.left == vm.left && u.w == vm.w
            && VM(u.contexts[vm.next := c], w, vm.next + 1, left) == Under(cur, stack, pc, VM(vm.contexts[vm.next := c], w, vm.next + 1, left))
  {
    var u := Under(cur, stack, pc, vm);
    assert u.contexts[vm.next := c] == Under(cur, stack, pc, VM(vm.contexts[vm.next := c], w, vm.next + 1, left)).contexts;
  }

  lemma {:induction false} CallFrames(k: Kernel, cur: nat, stack: seq<Value>, pc: nat, d: nat, vm: VM, c: Context, from: Option<nat>, args: seq<Value>, selector: Value)
    requires cur in vm.contexts && cur < vm.next && d != cur
    ensures Keeps(k, cur, stack, pc, vm.contexts[cur], Call(k, false, d, vm, c, from, args, selector),
                   Call(k, false, d, Under(cur, stack, pc, vm), c, from, args, selector))
  {
    UnderFacts(cur, stack, pc, vm);
    if args != [] {
      var callee := FindCallee(k, vm.w, from, args, selector);
      if callee.Callee? {
        var (t, w') := k.newTemporaries(vm.w, callee.method_);
        UnderOther(cur, stack, pc, vm, d, c, vm.w);
        var saved := vm.(contexts := vm.contexts[d := c]);
        MadeUnder(cur, stack, pc, saved, Context(callee.method_, callee.args, t, [], 0, Some(d), None, 0, 0), w', vm.left);
      }
    }
    hide Under, FindCallee;
  }

  lemma {:induction false} InvokeFrames(k: Kernel, cur: nat, stack: seq<Value>, pc: nat, d: nat, vm: VM, c: Context, argCount: nat)
    requires cur in vm.contexts && cur < vm.next && d != cur
    ensures Keeps(k, cur, stack, pc, vm.contexts[cur], Invoke(k, d, vm, c, argCount), Invoke(k, d, Under(cur, stack, pc, vm), c, argCount))
  {
    var u := Under(cur, stack, pc, vm);
    UnderFacts(cur, stack, pc, vm);
    hide Under, Push, Leave, Keeps, BlockArguments, Front;
    StuckFrames(k, cur, stack, pc, vm);
    if argCount == 0 || |c.stack| < argCount || !Last(c.stack).Object? { return; }
    var b := Last(c.stack).id;
    if b !in vm.contexts || vm.contexts[b].creating.None? { return; }
    SameBlock(cur, stack, pc, vm, b);
    var block := vm.contexts[b];
    var entered := k.enterBlock(vm.w, block.temps, block.argLoc, BlockArguments(c.stack, argCount));
    if entered.None? {
      PushFrames(k, cur, stack, pc, vm, d, c.(stack := Front(c.stack, argCount)), Nil, vm.w);
      assert vm.(w := vm.w) == vm && u.(w := vm.w) == u;
    } else {
      EnterFrames(k, cur, stack, pc, d, vm, c, b, entered.value);
    }
  }

  lemma {:induction false} StuckFrames(k: Kernel, cur: nat, stack: seq<Value>, pc: nat, vm: VM)
    requires cur in vm.contexts
    ensures forall t :: Keeps(k, cur, stack, pc, vm.contexts[cur], Stuck, t)
  {}

  lemma {:induction false} SameBlock(cur: nat, stack: seq<Value>, pc: nat, vm: VM, b: nat)
    requires cur in vm.contexts && b in vm.contexts
    ensures var x, y := vm.contexts[b], Under(cur, stack, pc, vm).contexts[b];
            x.temps == y.temps && x.argLoc == y.argLoc && x.start == y.start && x.creating == y.creating && (b != cur ==> x == y)
  {}

  /** The block takes the place of the context that runs it. */
  function Enter(d: nat, vm: VM, c: Context, b: nat, w: Store): State
    requires b in vm.contexts
  {
    var gone := Leave(d, vm, c);
    Running(b, VM(gone.contexts[b := vm.contexts[b].(stack := [], pc := vm.contexts[b].start, previous := c.previous)], w, vm.next, gone.left - {b}))
  }

  lemma {:induction false} EnterFrames(k: Kernel, cur: nat, stack: seq<Value>, pc: nat, d: nat, vm: VM, c: Context, b: nat, w: Store)
    requires cur in vm.contexts && cur < vm.next && d != cur && b in vm.contexts && b in Under(cur, stack, pc, vm).contexts
    ensures Keeps(k, cur, stack, pc, vm.contexts[cur], Enter(d, vm, c, b, w), Enter(d, Under(cur, stack, pc, vm), c, b, w))
  {
    UnderFacts(cur, stack, pc, vm);
    if b != cur {
      LeaveUnder(cur, stack, pc, vm, d, c);
      var gone, block := Leave(d, vm, c), vm.contexts[b].(stack := [], pc := vm.contexts[b].start, previous := c.previous);
      EnteredUnder(cur, stack, pc, gone, b, block, w);
      hide Under, Leave;
    } else {
      hide Under, Leave;
    }
  }

  lemma {:induction false} EnteredUnder(cur: nat, stack: seq<Value>, pc: nat, vm: VM, b: nat, c: Context, w: Store)
    requires cur in vm.contexts && b != cur
    ensures var u := Under(cur, stack, pc, vm);
            VM(u.contexts[b := c], w, vm.next, u.left - {b}) == Under(cur, stack, pc, VM(vm.contexts[b := c], w, vm.next, vm.left - {b}))
  {
    var u := Under(cur, stack, pc, vm);
    assert u.contexts[b := c] == Under(cur, stack, pc, VM(vm.contexts[b := c], w, vm.next, vm.left - {b})).contexts;
  }

  lemma {:induction false} ReturnFrames(k: Kernel, cur: nat, stack: seq<Value>, pc: nat, d: nat, vm: VM, c: Context, to: Option<nat>, v: Value)
    requires cur in vm.contexts && cur < vm.next && vm.contexts[cur].stack == [] && vm.contexts[cur].pc == 0 && d != cur
    ensures Keeps(k, cur, stack, pc, vm.contexts[cur], Deliver(k, Leave(d, vm, c), to, v), Deliver(k, Leave(d, Under(cur, stack, pc, vm), c), to, v))
  {
    LeaveUnder(cur, stack, pc, vm, d, c);
    hide Leave, Under, Deliver, Keeps;
    DeliverFrames(k, cur, stack, pc, Leave(d, vm, c), to, v);
  }

  lemma {:induction false} HomeUnder(cur: nat, stack: seq<Value>, pc: nat, vm: VM, c: Context)
    requires cur in vm.contexts
    ensures HomeOf(Under(cur, stack, pc, vm), c) == HomeOf(vm, c)
  {}

  lemma {:induction false} PrimitiveFrames(k: Kernel, cur: nat, stack: seq<Value>, pc: nat, d: nat, vm: VM, c: Context, argCount: nat, number: nat)
    requires cur in vm.contexts && cur < vm.next && vm.contexts[cur].stack == [] && vm.contexts[cur].pc == 0 && d != cur
    ensures Keeps(k, cur, stack, pc, vm.contexts[cur], RunPrimitive(k, d, vm, c, argCount, number), RunPrimitive(k, d, Under(cur, stack, pc, vm), c, argCount, number))
  {
    UnderFacts(cur, stack, pc, vm);
    StuckFrames(k, cur, stack, pc, vm);
    if number == 8 {
      InvokeFrames(k, cur, stack, pc, d, vm, c, argCount);
      hide Under, Keeps, Invoke;
    } else if argCount <= |c.stack| {
      var answer := k.primitive(vm.w, number, Topmost(c.stack, argCount));
      WorldUnder(cur, stack, pc, vm, answer.w);
      hide Under, Keeps, Push, Deliver, Leave, Topmost;
      match answer
      case Done(v, w') => ReturnFrames(k, cur, stack, pc, d, vm.(w := w'), c, c.previous, v);
      case Failed(w', popped) =>
        if popped <= |c.stack| { PushFrames(k, cur, stack, pc, vm, d, c.(stack := Front(c.stack, popped)), Nil, w'); }
      case LibraryFailed(w') => PushFrames(k, cur, stack, pc, vm, d, c.(stack := Front(c.stack, argCount)), Nil, w');
    } else {
      hide Under, Keeps;
    }
  }

  lemma {:induction false} WorldUnder(cur: nat, stack: seq<Value>, pc: nat, vm: VM, w: Store)
    ensures Under(cur, stack, pc, vm).(w := w) == Under(cur, stack, pc, vm.(w := w))
  {}

  lemma {:induction false} BinaryIs(k: Kernel, d: nat, vm: VM, c: Context, n: nat)
    ensures var s := c.stack;
            Exec(k, false, d, vm, c, SendBinary(n)) ==
            if |s| < 2 || n > 2 then Stuck
            else if s[|s| - 2].SmallInt? && s[|s| - 1].SmallInt?
            then Push(k, d, vm, c.(stack := Front(s, 2)), BinaryValue(n, s[|s| - 2].i, s[|s| - 1].i))
            else Call(k, false, d, vm, c.(stack := Front(s, 2)), None, [s[|s| - 2], s[|s| - 1]], Symbol(BINARY_NAMES[n]))
  {
    hide Push, Call, Front, BinaryValue;
  }

  lemma {:induction false} BinaryFrames(k: Kernel, cur: nat, stack: seq<Value>, pc: nat, d: nat, vm: VM, c: Context, n: nat)
    requires cur in vm.contexts && cur < vm.next && d != cur
    ensures Keeps(k, cur, stack, pc, vm.contexts[cur], Exec(k, false, d, vm, c, SendBinary(n)), Exec(k, false, d, Under(cur, stack, pc, vm), c, SendBinary(n)))
  {
    var u, s := Under(cur, stack, pc, vm), c.stack;
    BinaryIs(k, d, vm, c, n);
    BinaryIs(k, d, u, c, n);
    StuckFrames(k, cur, stack, pc, vm);
    UnderFacts(cur, stack, pc, vm);
    assert vm.(w := vm.w) == vm && u.(w := vm.w) == u;
    hide Under, Keeps, Push, Call, Front, Exec, BinaryValue;
    if |s| >= 2 && n <= 2 {
      var a, b, left := s[|s| - 2], s[|s| - 1], c.(stack := Front(s, 2));
      if a.SmallInt? && b.SmallInt? {
        PushFrames(k, cur, stack, pc, vm, d, left, BinaryValue(n, a.i, b.i), vm.w);
      } else {
        CallFrames(k, cur, stack, pc, d, vm, left, None, [a, b], Symbol(BINARY_NAMES[n]));
      }
    }
  }

  lemma {:induction false} ExecFrames(k: Kernel, cur: nat, stack: seq<Value>, pc: nat, d: nat, vm: VM, c: Context, i: Instr)
    requires cur in vm.contexts && cur < vm.next && vm.contexts[cur].stack == [] && vm.contexts[cur].pc == 0 && d != cur
    ensures Keeps(k, cur, stack, pc, vm.contexts[cur], Exec(k, false, d, vm, c, i), Exec(k, false, d, Under(cur, stack, pc, vm), c, i))
  {
    StuckFrames(k, cur, stack, pc, vm);
    HomeUnder(cur, stack, pc, vm, c);
    hide Under, Keeps, Call, Deliver, Leave, MakeBlock, RunPrimitive, HomeOf;
    match i
    case SendMessage(n) =>
      if c.stack != [] && Last(c.stack).Arguments? {
        CallFrames(k, cur, stack, pc, d, vm, c.(stack := Front(c.stack, 1)), None, Last(c.stack).vals, k.literal(c.method_, n));
      }
    case SendToSuper(n) =>
      if c.stack != [] && Last(c.stack).Arguments? {
        CallFrames(k, cur, stack, pc, d, vm, c.(stack := Front(c.stack, 1)), Some(c.method_), Last(c.stack).vals, k.literal(c.method_, n));
      }
    case SendBinary(n) =>
      hide Exec;
      BinaryFrames(k, cur, stack, pc, d, vm, c, n);
    case PushBlock(argLoc, target) => BlockFrames(k, cur, stack, pc, d, vm, c, argLoc, target);
    case DoPrimitive(argCount, number) => PrimitiveFrames(k, cur, stack, pc, d, vm, c, argCount, number);
    case SelfReturn => ReturnFrames(k, cur, stack, pc, d, vm, c, c.previous, Receiver(c));
    case StackReturn => if c.stack != [] { ReturnFrames(k, cur, stack, pc, d, vm, c, c.previous, Last(c.stack)); }
    case BlockReturn =>
      if c.stack != [] && HomeOf(vm, c).Some? { ReturnFrames(k, cur, stack, pc, d, vm, c, HomeOf(vm, c).value, Last(c.stack)); }
    case _ =>
      hide Exec;
      PlainFrames(k, cur, stack, pc, d, vm, c, i);
  }

  lemma {:induction false} StepFrames(k: Kernel, cur: nat, stack: seq<Value>, pc: nat, s: State)
    requires Waits(cur, s) && s.vm.contexts[cur].pc == 0
    ensures Keeps(k, cur, stack, pc, s.vm.contexts[cur], Step(k, false, s), Step(k, false, UnderState(cur, stack, pc, s)))
  {
    UnderFacts(cur, stack, pc, s.vm);
    StuckFrames(k, cur, stack, pc, s.vm);
    if s.cur in s.vm.contexts {
      var c := s.vm.contexts[s.cur];
      var d := Decode(k.bytes(c.method_), c.pc);
      if d.Decoded? {
        var fetched := s.vm.(contexts := s.vm.contexts[s.cur := c.(pc := d.next)]);
        UnderOther(cur, stack, pc, s.vm, s.cur, c.(pc := d.next), s.vm.w);
        ExecFrames(k, cur, stack, pc, s.cur, fetched, c.(pc := d.next), d.instr);
      }
    }
    hide Under, Keeps, Exec, Decode;
  }

  /** While others are run. */
  ghost predicate Away(k: Kernel, cur: nat, s: State, n: nat) {
    forall i: nat | i < n :: Waits(cur, Run(k, false, s, i))
  }

  ghost predicate Arrived(cur: nat, s: State) {
    !s.Stuck? && !s.Strayed? && !(s.Running? && s.cur == cur && cur in s.vm.contexts && s.vm.contexts[cur].stack == [])
  }

  /** One step. */
  lemma {:induction false} StepKeeps(k: Kernel, cur: nat, stack: seq<Value>, pc: nat, s: State)
    requires Waits(cur, s) && s.vm.contexts[cur].pc == 0 && Arrived(cur, Step(k, false, s))
    ensures Onward(cur, s.vm.contexts[cur], Step(k, false, s))
    ensures Step(k, false, UnderState(cur, stack, pc, s)) == Beneath(k, cur, stack, pc, Step(k, false, s))
  {
    StepFrames(k, cur, stack, pc, s);
    hide Step, UnderState, Onward, Beneath;
  }

  lemma {:induction false} WaitsArrived(k: Kernel, cur: nat, stack: seq<Value>, pc: nat, s: State)
    requires Waits(cur, s)
    ensures s.Running? && cur in s.vm.contexts
    ensures Arrived(cur, s) && Beneath(k, cur, stack, pc, s) == UnderState(cur, stack, pc, s)
    ensures forall before :: Onward(cur, before, s) ==> s.vm.contexts[cur] == before
  {
    hide UnderState;
  }

  /** All of them do the same whatever is on the stack of cur. */
  lemma {:induction false} RunFrames(k: Kernel, cur: nat, stack: seq<Value>, pc: nat, s: State, n: nat)
    requires s.Running? && cur in s.vm.contexts && s.vm.contexts[cur].pc == 0 && Away(k, cur, s, n) && n > 0 && Arrived(cur, Run(k, false, s, n))
    ensures Onward(cur, s.vm.contexts[cur], Run(k, false, s, n))
    ensures Run(k, false, UnderState(cur, stack, pc, s), n) == Beneath(k, cur, stack, pc, Run(k, false, s, n))
    decreases n
  {
    var t, u := Step(k, false, s), UnderState(cur, stack, pc, s);
    hide Step, Away, Run, Waits, Arrived, Onward, Beneath, UnderState;
    AwayRest(k, cur, s, n);
    RunFirst(k, false, s, n);
    RunFirst(k, false, u, n);
    RunFirst(k, false, t, 0);
    RunFirst(k, false, Step(k, false, u), 0);
    if n == 1 {
      StepKeeps(k, cur, stack, pc, s);
    } else {
      AwayHere(k, cur, t, n - 1);
      WaitsArrived(k, cur, stack, pc, t);
      StepKeeps(k, cur, stack, pc, s);
      RunFrames(k, cur, stack, pc, t, n - 1);
    }
  }

  lemma {:induction false} AwayHere(k: Kernel, cur: nat, s: State, n: nat)
    requires Away(k, cur, s, n) && n > 0
    ensures Waits(cur, s)
  {
    assert Waits(cur, Run(k, false, s, 0));
    hide Waits, Step;
  }

  lemma {:induction false} AwayRest(k: Kernel, cur: nat, s: State, n: nat)
    requires Away(k, cur, s, n) && n > 0
    ensures Waits(cur, s) && Away(k, cur, Step(k, false, s), n - 1)
  {
    AwayHere(k, cur, s, n);
    hide Waits, Step;
    forall i: nat | i < n - 1 ensures Waits(cur, Run(k, false, Step(k, false, s), i)) {
      RunFirst(k, false, s, i + 1);
      assert Waits(cur, Run(k, false, s, i + 1));
    }
  }
}
