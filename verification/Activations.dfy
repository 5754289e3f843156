/** One activation in the chain of contexts runs as the machine for one activation says, if a send answers what
    the callee's run among the contexts comes to. */
module Activations {
  import opened Options
  import opened Bytecode
  import opened Syntax
  import opened Values
  import opened Evaluator
  import opened Contexts
  import opened Frames
  import M = Machine

  /** What the activation's own context is, its stack and its place in the code left out. */
  function Mine(w: World): Context {
    if w.context in w.vm.contexts then w.vm.contexts[w.context] else Context(0, [], 0, [], 0, None, None, 0, 0)
  }

  ghost predicate Whole(w: World) {
    w.context in w.vm.contexts && w.context < w.vm.next && Mine(w).stack == [] && Mine(w).pc == 0
  }

  /** The state that has them. */
  function StateOf(w: World, stack: seq<Value>, pc: nat): State {
    Running(w.context, Under(w.context, stack, pc, w.vm))
  }

  function WithStore(w: World, x: Store): World {
    w.(vm := w.vm.(w := x))
  }

  /** The program is that of a method. */
  ghost predicate Loaded(k: Kernel, p: M.Program, m: nat) {
    k.bytes(m) == p.bytes && k.stackSize(m) == p.stackSize && forall n: nat | n < |p.lits| :: k.literal(m, n) == p.lits[n]
  }

  // ---- The kernel as an environment ------------------------------------------------------------------

  /** Answers of what goes on in other contexts: of a send, and of a block run by primitive 8. */
  datatype Others = Others(send: (World, bool, Value, seq<Value>) -> SendResult, block: (World, seq<Value>) -> PrimResult)

  function NewBlock(w: World, entry: nat, argLoc: nat): World {
    var c := Mine(w);
    var home := if c.creating.Some? then c.creating else Some(w.context);
    var block := Context(c.method_, c.args, c.temps, [], 0, None, home, argLoc, entry);
    w.(vm := VM(w.vm.contexts[w.vm.next := block], w.vm.w, w.vm.next + 1, w.vm.left + {w.vm.next}))
  }

  function Primitive(k: Kernel, o: Others, w: World, number: nat, vals: seq<Value>): PrimResult {
    if number == 8 then o.block(w, vals)
    else
      match k.primitive(w.vm.w, number, vals)
      case Done(v, x) => Succeeds(v, WithStore(w, x))
      case Failed(x, popped) => Fails(WithStore(w, x), popped)
      case LibraryFailed(x) => Fails(WithStore(w, x), |vals|)
  }

  function EnvOf(k: Kernel, o: Others): Env {
    Env((w: World, n: nat) => if n < |Mine(w).args| then Mine(w).args[n] else Nil,
        (w: World, n: nat) => k.temporary(w.vm.w, Mine(w).temps, n),
        (w: World, n: nat) => k.field(w.vm.w, Receiver(Mine(w)), n),
        (w: World, n: nat, v: Value) => WithStore(w, k.setTemporary(w.vm.w, Mine(w).temps, n, v)),
        (w: World, n: nat, v: Value) => WithStore(w, k.setField(w.vm.w, Receiver(Mine(w)), n, v)),
        (w: World, entry: nat, argLoc: nat) => (Object(w.vm.next), NewBlock(w, entry, argLoc)),
        o.send,
        (w: World, number: nat, vals: seq<Value>) => Primitive(k, o, w, number, vals))
  }

  // ---- What a send comes to --------------------------------------------------------------------------

  /** The contexts a value will come back to, from t on. */
  ghost predicate Links(vm: VM, t: Option<nat>, chain: seq<nat>)
    decreases |chain|
  {
    if chain == [] then t == None
    else t == Some(chain[0]) && chain[0] in vm.contexts && Links(vm, vm.contexts[chain[0]].previous, chain[1..])
  }

  /** Control goes on from t without ever coming to these. */
  ghost predicate Skips(vm: VM, t: Option<nat>, gone: set<nat>) {
    exists chain :: Links(vm, t, chain) && forall d | d in chain :: d !in gone
  }

  /** The callee's context, about to run. */
  function CallOf(k: Kernel, w: World, super: bool, selector: Value, args: seq<Value>): State {
    Call(k, false, w.context, w.vm, Mine(w), if super then Some(Mine(w).method_) else None, args, selector)
  }

  /** The answer r is what the callee's run comes to: back here with a value; past here, with a value for some
      context further down; or nowhere. */
  ghost predicate SendFollows(k: Kernel, w: World, super: bool, selector: Value, args: seq<Value>, r: SendResult) {
    var s, cur := CallOf(k, w, super, selector, args), w.context;
    s.Running? &&
    match r
    case Answers(v, w') =>
      Whole(w') && w'.context == cur && exists n: nat :: Away(k, cur, s, n) && Run(k, false, s, n) == StateOf(w', [v], 0)
    case Unwinds(v, w') =>
      Whole(w') && w'.context == cur && exists n: nat, t :: LeftTo(k, cur, s, n, w'.vm, t, v, {cur})
    case NeverReturns => forall n: nat :: Waits(cur, Run(k, false, s, n))
  }

  /** After n steps a value is delivered to t, and control will not come to `gone` again. */
  ghost predicate LeftTo(k: Kernel, cur: nat, s: State, n: nat, vm: VM, t: Option<nat>, v: Value, gone: set<nat>) {
    n > 0 && Away(k, cur, s, n) && Run(k, false, s, n) == Deliver(k, vm, t, v) && Ongoing(Run(k, false, s, n)) && Skips(vm, t, gone)
  }

  ghost predicate Ongoing(s: State) {
    s.Running? || s.Ended?
  }

  /** What primitive 8 does with its arguments: nothing sensible, or the block refuses them, or it is entered. */
  datatype Entry = NoBlock | Refused | Entered(b: nat, w: Store)

  function EntryOf(k: Kernel, w: World, vals: seq<Value>): Entry {
    if vals == [] || !Last(vals).Object? then NoBlock
    else
      var b := Last(vals).id;
      if b !in w.vm.contexts || w.vm.contexts[b].creating.None? then NoBlock
      else
        match k.enterBlock(w.vm.w, w.vm.contexts[b].temps, w.vm.contexts[b].argLoc, BlockArguments(vals, |vals|))
        case None => Refused
        case Some(x) => Entered(b, x)
  }

  /** The block answers for the activation that ran it. */
  ghost predicate BlockFollows(k: Kernel, w: World, vals: seq<Value>, r: PrimResult) {
    match EntryOf(k, w, vals)
    case NoBlock => false
    case Refused => r == Fails(w, |vals|)
    case Entered(b, x) =>
      b in w.vm.contexts &&
      var s := Enter(w.context, w.vm, Mine(w), b, x);
      match r
      case PrimUnwinds(v, w') =>
        w'.context == w.context && exists n: nat, t :: Run(k, false, s, n) == Deliver(k, w'.vm, t, v) && Skips(w'.vm, t, {w.context, b})
      case PrimNever => forall n: nat :: Run(k, false, s, n).Running?
      case _ => false
  }

  /** If the machine is about to send, or to run a block, its environment knows what comes of it. */
  ghost predicate FollowsAt(k: Kernel, p: M.Program, m: M.State) {
    m.Running? ==>
      match Decode(p.bytes, m.pc)
      case Decoded(SendMessage(n), _) =>
        n < |p.lits| && m.stack != [] && Last(m.stack).Arguments? ==> Sends(k, p, m.w, false, p.lits[n], Last(m.stack).vals)
      case Decoded(SendToSuper(n), _) =>
        n < |p.lits| && m.stack != [] && Last(m.stack).Arguments? ==> Sends(k, p, m.w, true, p.lits[n], Last(m.stack).vals)
      case Decoded(SendBinary(n), _) =>
        |m.stack| >= 2 && n <= 2 ==>
          var a, b := m.stack[|m.stack| - 2], m.stack[|m.stack| - 1];
          (a.SmallInt? && b.SmallInt?) || Sends(k, p, m.w, false, Symbol(BINARY_NAMES[n]), [a, b])
      case Decoded(DoPrimitive(argCount, number), _) =>
        number == 8 && argCount <= |m.stack| ==> BlockFollows(k, m.w, Topmost(m.stack, argCount), p.env.primitive(m.w, 8, Topmost(m.stack, argCount)))
      case _ => true
  }

  ghost predicate Sends(k: Kernel, p: M.Program, w: World, super: bool, selector: Value, args: seq<Value>) {
    SendFollows(k, w, super, selector, args, p.env.send(w, super, selector, args))
  }

  // ---- The two machines together ---------------------------------------------------------------------

  /** The same but for the one context. */
  ghost predicate Like(cur: nat, a: VM, b: VM) {
    a.w == b.w && a.next == b.next && a.left == b.left && a.contexts - {cur} == b.contexts - {cur}
  }

  /** The contexts when control has left the activation's own. */
  function Gone(w: World): VM {
    w.vm.(left := w.vm.left + {w.context})
  }

  /** The contexts are where the machine is, which was in the world w0 of the same activation. */
  ghost predicate Follows(k: Kernel, w0: World, m: M.State, s: State) {
    match m
    case Running(pc, stack, w) => Same(w0, w) && s == StateOf(w, stack, pc)
    case Exited(ToSender, v, w) => Same(w0, w) && s == Deliver(k, Gone(w), Mine(w).previous, v)
    case Exited(ToHome, v, w) =>
      Same(w0, w) && s == (match HomeOf(w.vm, Mine(w)) case None => Stuck case Some(t) => Deliver(k, Gone(w), t, v))
    case Exited(Unwound, v, w) =>
      w.context == w0.context && exists vm, t :: s == Deliver(k, vm, t, v) && Like(w.context, vm, w.vm) && Skips(vm, t, {w.context})
    case Diverged => s.Running?
    case Stuck => true
  }

  ghost predicate Same(w0: World, w: World) {
    Whole(w) && w.context == w0.context && Mine(w) == Mine(w0)
  }

  // ---- The activation's own instructions -------------------------------------------------------------

  lemma {:induction false} OwnContext(w: World, stack: seq<Value>, pc: nat)
    requires Whole(w)
    ensures var u := Under(w.context, stack, pc, w.vm);
            && w.context in u.contexts && u.contexts[w.context] == Mine(w).(stack := stack, pc := pc)
            && u.w == w.vm.w && u.next == w.vm.next && u.left == w.vm.left && u.contexts.Keys == w.vm.contexts.Keys
            && (forall d | d in w.vm.contexts && d != w.context :: u.contexts[d] == w.vm.contexts[d])
  {
    assert stack + [] == stack;
  }

  /** The context takes a new form. */
  lemma {:induction false} OwnWith(w: World, stack: seq<Value>, pc: nat, stack': seq<Value>, pc': nat, x: Store)
    requires Whole(w)
    ensures Whole(WithStore(w, x)) && Mine(WithStore(w, x)) == Mine(w)
    ensures With(w.context, Under(w.context, stack, pc, w.vm).(w := x), Mine(w).(stack := stack', pc := pc')) == StateOf(WithStore(w, x), stack', pc')
  {
    assert stack' + [] == stack';
    assert Under(w.context, stack, pc, w.vm).contexts[w.context := Mine(w).(stack := stack', pc := pc')]
           == Under(w.context, stack', pc', WithStore(w, x).vm).contexts;
  }

  lemma {:induction false} OwnPush(k: Kernel, p: M.Program, w: World, stack: seq<Value>, pc: nat, stack': seq<Value>, pc': nat, v: Value, x: Store)
    requires Whole(w) && Loaded(k, p, Mine(w).method_)
    ensures Follows(k, w, M.Push(p, pc', stack', v, WithStore(w, x)),
                    Push(k, w.context, Under(w.context, stack, pc, w.vm).(w := x), Mine(w).(stack := stack', pc := pc'), v))
  {
    OwnWith(w, stack, pc, stack' + [v], pc', x);
    hide Under, With, Whole;
  }

  lemma {:induction false} SameStore(w: World, stack: seq<Value>, pc: nat)
    ensures WithStore(w, w.vm.w) == w && Under(w.context, stack, pc, w.vm).(w := w.vm.w) == Under(w.context, stack, pc, w.vm)
  {}

  /** Fetch and decode. */
  lemma {:induction false} OwnStep(k: Kernel, p: M.Program, w: World, stack: seq<Value>, pc: nat)
    requires Whole(w) && Loaded(k, p, Mine(w).method_)
    ensures Step(k, false, StateOf(w, stack, pc)) ==
            match Decode(p.bytes, pc)
            case Invalid => Stuck
            case Decoded(i, next) =>
              Exec(k, false, w.context, Under(w.context, stack, next, w.vm), Mine(w).(stack := stack, pc := next), i)
  {
    OwnContext(w, stack, pc);
    var d := Decode(p.bytes, pc);
    if d.Decoded? {
      OwnWith(w, stack, pc, stack, d.next, w.vm.w);
      SameStore(w, stack, pc);
    }
    hide Under, Exec, Decode;
  }

  lemma {:induction false} Kinds()
    ensures forall s: seq<Value> :: s != [] ==> M.Last(s) == Last(s) && M.Front(s) == Front(s, 1)
    ensures forall n: nat :: M.Constant(n) == Constant(n)
  {}

  /** The environment on the world of a context. */
  lemma {:induction false} EnvFacts(k: Kernel, o: Others, w: World)
    ensures var e, c, x := EnvOf(k, o), Mine(w), w.vm.w;
            && (forall n: nat :: e.argument(w, n) == if n < |c.args| then c.args[n] else Nil)
            && (forall n: nat :: e.temporary(w, n) == k.temporary(x, c.temps, n))
            && (forall n: nat :: e.instance(w, n) == k.field(x, Receiver(c), n))
            && (forall n: nat, v :: e.setTemporary(w, n, v) == WithStore(w, k.setTemporary(x, c.temps, n, v)))
            && (forall n: nat, v :: e.setInstance(w, n, v) == WithStore(w, k.setField(x, Receiver(c), n, v)))
            && (forall n: nat, a: nat :: e.makeBlock(w, n, a) == (Object(w.vm.next), NewBlock(w, n, a)))
            && (forall n: nat, vs :: e.primitive(w, n, vs) == Primitive(k, o, w, n, vs))
  {
    hide Mine, Receiver, NewBlock, WithStore, Primitive;
  }

  lemma {:induction false} NoneFollows(k: Kernel, w: World, s: State)
    ensures Follows(k, w, M.Stuck, s)
  {}

  predicate Own(i: Instr) {
    i.PushInstance? || i.PushArgument? || i.PushTemporary? || i.PushLiteral? || i.PushConstant? || i.AssignInstance? || i.AssignTemporary?
  }

  lemma {:induction false} VariableFollows(k: Kernel, o: Others, p: M.Program, w: World, s: seq<Value>, next: nat, i: Instr)
    requires Whole(w) && Loaded(k, p, Mine(w).method_) && p.env == EnvOf(k, o) && Own(i)
    ensures Follows(k, w, M.Exec(p, i, next, s, w),
                    Exec(k, false, w.context, Under(w.context, s, next, w.vm), Mine(w).(stack := s, pc := next), i))
  {
    OwnContext(w, s, next);
    SameStore(w, s, next);
    Kinds();
    EnvFacts(k, o, w);
    NoneFollows(k, w, Stuck);
    var c, x := Mine(w).(stack := s, pc := next), w.vm.w;
    ReceiverOf(w, s, next);
    hide Under, Push, M.Push, With, Whole, Receiver, Constant, M.Constant, Loaded, Last, M.Last, Mine, EnvOf;
    match i
    case PushInstance(n) => OwnPush(k, p, w, s, next, s, next, k.field(x, Receiver(c), n), x);
    case PushArgument(n) => OwnPush(k, p, w, s, next, s, next, if n < |c.args| then c.args[n] else Nil, x);
    case PushTemporary(n) => OwnPush(k, p, w, s, next, s, next, k.temporary(x, c.temps, n), x);
    case PushLiteral(n) => OwnLiteral(k, p, w, n); OwnPush(k, p, w, s, next, s, next, k.literal(c.method_, n), x);
    case PushConstant(n) => OwnPush(k, p, w, s, next, s, next, Constant(n), x);
    case AssignInstance(n) => if s != [] { OwnWith(w, s, next, s, next, k.setField(x, Receiver(c), n, Last(s))); }
    case AssignTemporary(n) => if s != [] { OwnWith(w, s, next, s, next, k.setTemporary(x, c.temps, n, Last(s))); }
  }

  lemma {:induction false} ReceiverOf(w: World, s: seq<Value>, next: nat)
    ensures Receiver(Mine(w).(stack := s, pc := next)) == Receiver(Mine(w))
  {
    hide Mine;
  }

  predicate OnStack(i: Instr) {
    i.MarkArguments? || i.SendUnary? || i.Duplicate? || i.PopTop? || i.Branch? || i.BranchIfTrue? || i.BranchIfFalse? || i.Breakpoint?
  }

  lemma {:induction false} StackFollows(k: Kernel, p: M.Program, w: World, s: seq<Value>, next: nat, i: Instr)
    requires Whole(w) && Loaded(k, p, Mine(w).method_) && OnStack(i)
    ensures Follows(k, w, M.Exec(p, i, next, s, w),
                    Exec(k, false, w.context, Under(w.context, s, next, w.vm), Mine(w).(stack := s, pc := next), i))
  {
    SameStore(w, s, next);
    Kinds();
    NoneFollows(k, w, Stuck);
    var x := w.vm.w;
    hide Under, Push, M.Push, With, Whole, Unary, Loaded, Last, M.Last, M.Front, Mine;
    match i
    case MarkArguments(n) => if n <= |s| { OwnPush(k, p, w, s, next, Front(s, n), next, Arguments(Topmost(s, n)), x); }
    case SendUnary(n) => if s != [] { OwnPush(k, p, w, s, next, Front(s, 1), next, Unary(n, Last(s)), x); }
    case Duplicate => if s != [] { OwnPush(k, p, w, s, next, s, next, Last(s), x); }
    case PopTop => if s != [] { OwnWith(w, s, next, Front(s, 1), next, x); }
    case Branch(target) => OwnWith(w, s, next, s, target, x);
    case BranchIfTrue(target) => if s != [] { OwnWith(w, s, next, Front(s, 1), if Last(s) == True then target else next, x); }
    case BranchIfFalse(target) => if s != [] { OwnWith(w, s, next, Front(s, 1), if Last(s) == False then target else next, x); }
    case Breakpoint =>
  }

  lemma {:induction false} OwnLiteral(k: Kernel, p: M.Program, w: World, n: nat)
    requires Loaded(k, p, Mine(w).method_)
    ensures n < |p.lits| ==> k.literal(Mine(w).method_, n) == p.lits[n]
  {}

  // ---- Blocks, returns, primitives -------------------------------------------------------------------

  lemma {:induction false} BlockMade(k: Kernel, o: Others, p: M.Program, w: World, s: seq<Value>, next: nat, argLoc: nat, target: nat)
    requires Whole(w) && Loaded(k, p, Mine(w).method_) && p.env == EnvOf(k, o)
    ensures Follows(k, w, M.Exec(p, PushBlock(argLoc, target), next, s, w),
                    Exec(k, false, w.context, Under(w.context, s, next, w.vm), Mine(w).(stack := s, pc := next), PushBlock(argLoc, target)))
  {
    var c, q := Mine(w).(stack := s, pc := next), NewBlock(w, next, argLoc);
    var home := if c.creating.Some? then c.creating else Some(w.context);
    MadeUnder(w.context, s, next, w.vm, Context(c.method_, c.args, c.temps, [], 0, None, home, argLoc, next), w.vm.w, w.vm.left + {w.vm.next});
    EnvFacts(k, o, w);
    assert Whole(q) && Mine(q) == Mine(w);
    OwnPush(k, p, q, s, next, s, target, Object(w.vm.next), w.vm.w);
    SameStore(q, s, next);
    hide Under, Push, M.Push, Loaded, Mine, EnvOf, NewBlock;
    assert q.vm == VM(w.vm.contexts[w.vm.next := Context(c.method_, c.args, c.temps, [], 0, None, home, argLoc, next)], w.vm.w, w.vm.next + 1, w.vm.left + {w.vm.next})
      by { BlockIs(w, next, argLoc); }
  }

  lemma {:induction false} BlockIs(w: World, entry: nat, argLoc: nat)
    ensures var c := Mine(w);
            var home := if c.creating.Some? then c.creating else Some(w.context);
            var q := NewBlock(w, entry, argLoc);
            && q.context == w.context
            && q.vm == VM(w.vm.contexts[w.vm.next := Context(c.method_, c.args, c.temps, [], 0, None, home, argLoc, entry)], w.vm.w, w.vm.next + 1, w.vm.left + {w.vm.next})
  {
    hide Mine;
  }

  /** The context is left. */
  lemma {:induction false} OwnLeave(w: World, s: seq<Value>, pc: nat, x: Store)
    requires Whole(w)
    ensures Leave(w.context, Under(w.context, s, pc, w.vm).(w := x), Mine(w).(stack := s, pc := pc)) == Gone(WithStore(w, x))
    ensures Whole(WithStore(w, x)) && Mine(WithStore(w, x)) == Mine(w)
  {
    assert Under(w.context, s, pc, w.vm).contexts[w.context := Mine(w)] == w.vm.contexts;
  }

  lemma {:induction false} HomeIs(w: World, s: seq<Value>, pc: nat)
    requires Whole(w)
    ensures HomeOf(Under(w.context, s, pc, w.vm), Mine(w).(stack := s, pc := pc)) == HomeOf(w.vm, Mine(w))
  {
    HomeUnder(w.context, s, pc, w.vm, Mine(w));
  }

  lemma {:induction false} ReturnFollows(k: Kernel, o: Others, p: M.Program, w: World, s: seq<Value>, next: nat, i: Instr)
    requires Whole(w) && p.env == EnvOf(k, o) && (i.SelfReturn? || i.StackReturn? || i.BlockReturn?)
    ensures Follows(k, w, M.Exec(p, i, next, s, w),
                    Exec(k, false, w.context, Under(w.context, s, next, w.vm), Mine(w).(stack := s, pc := next), i))
  {
    var c := Mine(w).(stack := s, pc := next);
    OwnLeave(w, s, next, w.vm.w);
    SameStore(w, s, next);
    HomeIs(w, s, next);
    EnvFacts(k, o, w);
    Kinds();
    NoneFollows(k, w, Stuck);
    assert Receiver(c) == if 0 < |Mine(w).args| then Mine(w).args[0] else Nil;
    hide Under, Leave, Deliver, Mine, EnvOf, Gone, HomeOf, Last, M.Last, Whole, Receiver;
  }

  /** A primitive, on the machine and among the contexts. */
  lemma {:induction false} PrimitiveIs(k: Kernel, p: M.Program, cur: nat, vm: VM, c: Context, w: World, next: nat, argCount: nat, number: nat)
    requires number != 8
    ensures M.Exec(p, DoPrimitive(argCount, number), next, c.stack, w) ==
            if argCount > |c.stack| then M.Stuck
            else
              match p.env.primitive(w, number, Topmost(c.stack, argCount))
              case Succeeds(v, w') => M.Exited(ToSender, v, w')
              case Fails(w', popped) => if popped <= |c.stack| then M.Push(p, next, Front(c.stack, popped), Nil, w') else M.Stuck
              case PrimUnwinds(v, w') => M.Exited(Unwound, v, w')
              case PrimNever => M.Diverged
    ensures Exec(k, false, cur, vm, c, DoPrimitive(argCount, number)) ==
            if argCount > |c.stack| then Stuck
            else
              match k.primitive(vm.w, number, Topmost(c.stack, argCount))
              case Done(v, x) => Deliver(k, Leave(cur, vm.(w := x), c), c.previous, v)
              case Failed(x, popped) => if popped <= |c.stack| then Push(k, cur, vm.(w := x), c.(stack := Front(c.stack, popped)), Nil) else Stuck
              case LibraryFailed(x) => Push(k, cur, vm.(w := x), c.(stack := Front(c.stack, argCount)), Nil)
  {
    if argCount <= |c.stack| {
      assert c.stack[|c.stack| - argCount..] == Topmost(c.stack, argCount);
    }
    hide M.Push, Push, Leave, Deliver, Topmost;
  }

  lemma {:induction false} PrimitiveFollows(k: Kernel, o: Others, p: M.Program, w: World, s: seq<Value>, next: nat, argCount: nat, number: nat)
    requires Whole(w) && Loaded(k, p, Mine(w).method_) && p.env == EnvOf(k, o) && number != 8
    ensures Follows(k, w, M.Exec(p, DoPrimitive(argCount, number), next, s, w),
                    Exec(k, false, w.context, Under(w.context, s, next, w.vm), Mine(w).(stack := s, pc := next), DoPrimitive(argCount, number)))
  {
    hide Topmost, Under, Leave, Deliver, Push, M.Push, Mine, EnvOf, Gone, Whole, Loaded, Exec, M.Exec, Front;
    var c := Mine(w).(stack := s, pc := next);
    OwnContext(w, s, next);
    EnvFacts(k, o, w);
    NoneFollows(k, w, Stuck);
    PrimitiveIs(k, p, w.context, Under(w.context, s, next, w.vm), c, w, next, argCount, number);
    if argCount <= |s| {
      var vals := Topmost(s, argCount);
      TopmostSize(s, argCount);
      match k.primitive(w.vm.w, number, vals)
      case Done(v, x) => OwnLeave(w, s, next, x);
      case Failed(x, popped) => if popped <= |s| { OwnPush(k, p, w, s, next, Front(s, popped), next, Nil, x); }
      case LibraryFailed(x) => OwnPush(k, p, w, s, next, Front(s, argCount), next, Nil, x);
    }
  }

  lemma {:induction false} TopmostSize(s: seq<Value>, n: nat)
    requires n <= |s|
    ensures |Topmost(s, n)| == n
  {}

  // ---- Sends -----------------------------------------------------------------------------------------

  /** The callee is called in the same way whatever is, and was, on the caller's stack. */
  lemma {:induction false} CallUnder(k: Kernel, w: World, was: seq<Value>, s: seq<Value>, pc: nat, super: bool, selector: Value, args: seq<Value>)
    requires Whole(w) && CallOf(k, w, super, selector, args).Running?
    ensures var t := CallOf(k, w, super, selector, args);
            && Waits(w.context, t) && t.vm.contexts[w.context] == Mine(w)
            && Call(k, false, w.context, Under(w.context, was, pc, w.vm), Mine(w).(stack := s, pc := pc),
                    if super then Some(Mine(w).method_) else None, args, selector) == UnderState(w.context, s, pc, t)
  {
    OwnContext(w, was, pc);
    var from := if super then Some(Mine(w).method_) else None;
    var callee := FindCallee(k, w.vm.w, from, args, selector);
    var (x, w') := k.newTemporaries(w.vm.w, callee.method_);
    MadeUnder(w.context, s, pc, w.vm, Context(callee.method_, callee.args, x, [], 0, Some(w.context), None, 0, 0), w', w.vm.left);
    assert w.vm.contexts[w.context := Mine(w)] == w.vm.contexts;
    OwnWith(w, was, pc, s, pc, w.vm.w);
    SameStore(w, was, pc);
    hide Under, FindCallee;
  }

  /** Control comes back with the answer. */
  lemma {:induction false} ComesBack(k: Kernel, p: M.Program, w: World, s: seq<Value>, pc: nat, t: State, n: nat, v: Value, w': World)
    requires Whole(w) && Loaded(k, p, Mine(w).method_) && Waits(w.context, t) && t.vm.contexts[w.context] == Mine(w)
    requires Away(k, w.context, t, n) && Whole(w') && w'.context == w.context && Run(k, false, t, n) == StateOf(w', [v], 0)
    ensures Mine(w') == Mine(w)
    ensures Follows(k, w, M.Push(p, pc, s, v, w'), Run(k, false, UnderState(w.context, s, pc, t), n))
  {
    var cur, r := w.context, Run(k, false, t, n);
    OwnContext(w', [v], 0);
    assert n > 0 by { RunFirst(k, false, t, 0); }
    assert Arrived(cur, r);
    hide Run, Away, Under, Waits;
    RunFrames(k, cur, s, pc, t, n);
    assert Mine(w').(stack := [v], pc := 0) == Mine(w).(stack := [v]);
    assert Mine(w') == Mine(w);
    if |s| < p.stackSize {
      StackOnStack(w', s, pc, v);
    }
  }

  lemma {:induction false} StackOnStack(w: World, s: seq<Value>, pc: nat, v: Value)
    requires Whole(w)
    ensures UnderState(w.context, s, pc, StateOf(w, [v], 0)) == StateOf(w, s + [v], pc)
  {
    assert [v] + [] == [v] && (s + [v]) + [] == s + [v];
    assert UnderState(w.context, s, pc, StateOf(w, [v], 0)).vm.contexts == StateOf(w, s + [v], pc).vm.contexts;
  }

  /** Control goes past the sender. */
  lemma {:induction false} GoesPast(k: Kernel, w: World, s: seq<Value>, pc: nat, t: State, n: nat, to: Option<nat>, v: Value, w': World)
    requires Waits(w.context, t) && t.vm.contexts[w.context].pc == 0 && Whole(w') && w'.context == w.context
    requires LeftTo(k, w.context, t, n, w'.vm, to, v, {w.context})
    ensures Follows(k, w, M.Exited(Unwound, v, w'), Run(k, false, UnderState(w.context, s, pc, t), n))
  {
    var cur, r := w.context, Deliver(k, w'.vm, to, v);
    NotThere(w'.vm, to, cur);
    assert Arrived(cur, r) && !(r.Running? && r.cur == cur);
    SkipsUnder(cur, s, pc, w'.vm, to);
    LikeUnder(cur, s, pc, w'.vm);
    hide Run, Away, Under, Waits, Skips, Like, Deliver;
    RunFrames(k, cur, s, pc, t, n);
    DeliverFrames(k, cur, s, pc, w'.vm, to, v);
  }

  lemma {:induction false} NotThere(vm: VM, to: Option<nat>, cur: nat)
    requires Skips(vm, to, {cur})
    ensures to != Some(cur)
  {
    var chain :| Links(vm, to, chain) && forall d | d in chain :: d !in {cur};
    if chain != [] { assert chain[0] in chain; }
  }

  lemma {:induction false} SkipsUnder(cur: nat, s: seq<Value>, pc: nat, vm: VM, to: Option<nat>)
    requires Skips(vm, to, {cur})
    ensures Skips(Under(cur, s, pc, vm), to, {cur})
  {
    var chain :| Links(vm, to, chain) && forall d | d in chain :: d !in {cur};
    LinksUnder(cur, s, pc, vm, to, chain);
  }

  lemma {:induction false} LinksUnder(cur: nat, s: seq<Value>, pc: nat, vm: VM, to: Option<nat>, chain: seq<nat>)
    requires Links(vm, to, chain)
    ensures Links(Under(cur, s, pc, vm), to, chain)
    decreases |chain|
  {
    if chain != [] { LinksUnder(cur, s, pc, vm, vm.contexts[chain[0]].previous, chain[1..]); }
  }

  lemma {:induction false} LikeUnder(cur: nat, s: seq<Value>, pc: nat, vm: VM)
    ensures Like(cur, Under(cur, s, pc, vm), vm)
  {}

  /** Control goes on elsewhere for ever. */
  lemma {:induction false} NeverBack(k: Kernel, w: World, s: seq<Value>, pc: nat, t: State, n: nat)
    requires t.Running? && w.context in t.vm.contexts && t.vm.contexts[w.context].pc == 0 && forall i: nat :: Waits(w.context, Run(k, false, t, i))
    ensures Run(k, false, UnderState(w.context, s, pc, t), n).Running?
  {
    var cur := w.context;
    if n > 0 {
      assert Waits(cur, Run(k, false, t, n));
      WaitsArrived(k, cur, s, pc, Run(k, false, t, n));
      assert Away(k, cur, t, n);
      hide Run, Waits, Under;
      RunFrames(k, cur, s, pc, t, n);
    }
  }

  /** The call, and what the sender's machine makes of its answer. */
  lemma {:induction false} SendFollowed(k: Kernel, p: M.Program, w: World, was: seq<Value>, s: seq<Value>, pc: nat, super: bool, selector: Value, args: seq<Value>, r: SendResult)
    returns (n: nat)
    requires Whole(w) && Loaded(k, p, Mine(w).method_) && SendFollows(k, w, super, selector, args, r)
    ensures var c := Call(k, false, w.context, Under(w.context, was, pc, w.vm), Mine(w).(stack := s, pc := pc),
                          if super then Some(Mine(w).method_) else None, args, selector);
            if r.NeverReturns? then forall j: nat :: Run(k, false, c, j).Running?
            else Follows(k, w, M.Return(p, pc, s, r), Run(k, false, c, n))
  {
    CallUnder(k, w, was, s, pc, super, selector, args);
    var t, cur := CallOf(k, w, super, selector, args), w.context;
    hide Under, CallOf, Call, Run, Waits, Loaded, Away, LeftTo, Follows, UnderState;
    n := 0;
    match r
    case Answers(v, w') =>
      n :| Away(k, cur, t, n) && Run(k, false, t, n) == StateOf(w', [v], 0);
      ComesBack(k, p, w, s, pc, t, n, v, w');
    case Unwinds(v, w') =>
      var to;
      n, to :| LeftTo(k, cur, t, n, w'.vm, to, v, {cur});
      GoesPast(k, w, s, pc, t, n, to, v, w');
    case NeverReturns =>
      forall j: nat ensures Run(k, false, UnderState(cur, s, pc, t), j).Running? {
        assert Waits(cur, Run(k, false, t, j));
        NeverBack(k, w, s, pc, t, j);
      }
  }

  /** A block that answers for the activation. */
  lemma {:induction false} BlockEntered(k: Kernel, w: World, s: seq<Value>, pc: nat, b: nat, x: Store)
    requires Whole(w) && b in w.vm.contexts && b in Under(w.context, s, pc, w.vm).contexts
    ensures Enter(w.context, Under(w.context, s, pc, w.vm), Mine(w).(stack := s, pc := pc), b, x) == Enter(w.context, w.vm, Mine(w), b, x)
  {
    OwnLeave(w, s, pc, w.vm.w);
    SameStore(w, s, pc);
    SameBlock(w.context, s, pc, w.vm, b);
    assert Leave(w.context, w.vm, Mine(w)) == Gone(w) by {
      assert w.vm.contexts[w.context := Mine(w)] == w.vm.contexts;
    }
    var u := Under(w.context, s, pc, w.vm);
    if b == w.context { OwnContext(w, s, pc); }
    hide Leave, Under, Gone;
    assert u.contexts[b].(stack := [], pc := u.contexts[b].start, previous := Mine(w).previous)
           == w.vm.contexts[b].(stack := [], pc := w.vm.contexts[b].start, previous := Mine(w).previous);
  }

  lemma {:induction false} InvokeIs(k: Kernel, w: World, s: seq<Value>, next: nat, argCount: nat)
    requires Whole(w) && argCount <= |s|
    ensures var u, c := Under(w.context, s, next, w.vm), Mine(w).(stack := s, pc := next);
            Exec(k, false, w.context, u, c, DoPrimitive(argCount, 8)) ==
            match EntryOf(k, w, Topmost(s, argCount))
            case NoBlock => Stuck
            case Refused => Push(k, w.context, u, c.(stack := Front(s, argCount)), Nil)
            case Entered(b, x) => if b in w.vm.contexts then Enter(w.context, w.vm, Mine(w), b, x) else Stuck
  {
    var u, c := Under(w.context, s, next, w.vm), Mine(w).(stack := s, pc := next);
    OwnContext(w, s, next);
    if argCount > 0 {
      LastArgument(s, argCount);
      if Last(s).Object? && Last(s).id in w.vm.contexts {
        var b := Last(s).id;
        SameBlock(w.context, s, next, w.vm, b);
        if w.vm.contexts[b].creating.Some? {
          var entered := k.enterBlock(w.vm.w, w.vm.contexts[b].temps, w.vm.contexts[b].argLoc, BlockArguments(s, argCount));
          if entered.Some? { BlockEntered(k, w, s, next, b, entered.value); }
        }
      }
    }
    hide Under, Push, Leave, Mine, Topmost, BlockArguments, Last, Front;
  }

  lemma {:induction false} LastArgument(s: seq<Value>, n: nat)
    requires 0 < n <= |s|
    ensures var t := Topmost(s, n); t != [] && |t| == n && Last(t) == Last(s) && BlockArguments(t, |t|) == BlockArguments(s, n)
  {}

  lemma {:induction false} BlockFollowed(k: Kernel, o: Others, p: M.Program, w: World, s: seq<Value>, next: nat, argCount: nat) returns (n: nat)
    requires Whole(w) && Loaded(k, p, Mine(w).method_) && p.env == EnvOf(k, o) && argCount <= |s|
    requires BlockFollows(k, w, Topmost(s, argCount), p.env.primitive(w, 8, Topmost(s, argCount)))
    ensures var m := M.Exec(p, DoPrimitive(argCount, 8), next, s, w);
            var c := Exec(k, false, w.context, Under(w.context, s, next, w.vm), Mine(w).(stack := s, pc := next), DoPrimitive(argCount, 8));
            if m.Diverged? then forall j: nat :: Run(k, false, c, j).Running? else Follows(k, w, m, Run(k, false, c, n))
  {
    var vals, r := Topmost(s, argCount), p.env.primitive(w, 8, Topmost(s, argCount));
    assert |vals| == argCount && vals == s[|s| - argCount..];
    InvokeIs(k, w, s, next, argCount);
    n := 0;
    match EntryOf(k, w, vals)
    case Refused =>
      SameStore(w, s, next);
      OwnPush(k, p, w, s, next, Front(s, argCount), next, Nil, w.vm.w);
      RunFirst(k, false, Exec(k, false, w.context, Under(w.context, s, next, w.vm), Mine(w).(stack := s, pc := next), DoPrimitive(argCount, 8)), 0);
      hide Under, Push, M.Push, Mine, Topmost, EntryOf, Run, Loaded, Whole, Exec, EnvOf;
    case Entered(b, x) =>
      var t := Enter(w.context, w.vm, Mine(w), b, x);
      hide Under, Push, M.Push, Mine, Topmost, EntryOf, Run, Loaded, Whole, Exec, EnvOf, Enter;
      if r.PrimUnwinds? {
        var to;
        n, to :| Run(k, false, t, n) == Deliver(k, r.w.vm, to, r.v) && Skips(r.w.vm, to, {w.context, b});
        SkipsFewer(r.w.vm, to, w.context, b);
      }
  }

  lemma {:induction false} SkipsFewer(vm: VM, to: Option<nat>, cur: nat, b: nat)
    requires Skips(vm, to, {cur, b})
    ensures Skips(vm, to, {cur}) && Like(cur, vm, vm)
  {}

  // ---- Whole activations -----------------------------------------------------------------------------

  /** The contexts come to what the machine's step says, or go on for ever. */
  ghost predicate Matches(k: Kernel, w: World, m: M.State, c: State, n: nat) {
    if m.Diverged? then forall j: nat :: Run(k, false, c, j).Running? else Follows(k, w, m, Run(k, false, c, n))
  }

  lemma {:induction false} AtOnce(k: Kernel, w: World, m: M.State, c: State)
    requires Follows(k, w, m, c) && !m.Diverged?
    ensures Matches(k, w, m, c, 0)
  {
    RunFirst(k, false, c, 0);
    hide Follows;
  }

  function Ours(k: Kernel, w: World, s: seq<Value>, next: nat, i: Instr): State {
    Exec(k, false, w.context, Under(w.context, s, next, w.vm), Mine(w).(stack := s, pc := next), i)
  }

  predicate RunsBlock(i: Instr) {
    i.DoPrimitive? && i.number == 8
  }

  /** What FollowsAt says of the instruction fetched. */
  ghost predicate FollowsExec(k: Kernel, p: M.Program, w: World, s: seq<Value>, i: Instr) {
    match i
    case SendMessage(n) => n < |p.lits| && s != [] && Last(s).Arguments? ==> Sends(k, p, w, false, p.lits[n], Last(s).vals)
    case SendToSuper(n) => n < |p.lits| && s != [] && Last(s).Arguments? ==> Sends(k, p, w, true, p.lits[n], Last(s).vals)
    case SendBinary(n) =>
      |s| >= 2 && n <= 2 ==>
        (s[|s| - 2].SmallInt? && s[|s| - 1].SmallInt?) || Sends(k, p, w, false, Symbol(BINARY_NAMES[n]), [s[|s| - 2], s[|s| - 1]])
    case DoPrimitive(argCount, number) =>
      number == 8 && argCount <= |s| ==> BlockFollows(k, w, Topmost(s, argCount), p.env.primitive(w, 8, Topmost(s, argCount)))
    case _ => true
  }

  lemma {:induction false} SendStep(k: Kernel, p: M.Program, w: World, s: seq<Value>, next: nat, super: bool, number: nat) returns (n: nat)
    requires Whole(w) && Loaded(k, p, Mine(w).method_)
    requires number < |p.lits| && s != [] && Last(s).Arguments? && Sends(k, p, w, super, p.lits[number], Last(s).vals)
    ensures var i := if super then SendToSuper(number) else SendMessage(number);
            Matches(k, w, M.Exec(p, i, next, s, w), Ours(k, w, s, next, i), n)
  {
    Kinds();
    OwnLiteral(k, p, w, number);
    var args, selector := Last(s).vals, p.lits[number];
    n := SendFollowed(k, p, w, s, Front(s, 1), next, super, selector, args, p.env.send(w, super, selector, args));
    SendExec(k, w, s, next, super, number);
    ReturnKinds(p, next, Front(s, 1), p.env.send(w, super, selector, args));
    hide Run, Under, Follows, SendFollows, Loaded, Whole, Call, Exec, Last, M.Last, M.Front, Front, Mine, M.Return;
  }

  lemma {:induction false} ReturnKinds(p: M.Program, pc: nat, s: seq<Value>, r: SendResult)
    ensures M.Return(p, pc, s, r).Diverged? <==> r.NeverReturns?
  {}

  lemma {:induction false} SendExec(k: Kernel, w: World, s: seq<Value>, next: nat, super: bool, number: nat)
    requires s != [] && Last(s).Arguments?
    ensures Ours(k, w, s, next, if super then SendToSuper(number) else SendMessage(number)) ==
            Call(k, false, w.context, Under(w.context, s, next, w.vm), Mine(w).(stack := Front(s, 1), pc := next),
                 if super then Some(Mine(w).method_) else None, Last(s).vals, k.literal(Mine(w).method_, number))
  {
    hide Call, Under, Mine, Last, Front;
  }

  lemma {:induction false} BinaryStep(k: Kernel, p: M.Program, w: World, s: seq<Value>, next: nat, number: nat) returns (n: nat)
    requires Whole(w) && Loaded(k, p, Mine(w).method_) && FollowsExec(k, p, w, s, SendBinary(number))
    ensures Matches(k, w, M.Exec(p, SendBinary(number), next, s, w), Ours(k, w, s, next, SendBinary(number)), n)
  {
    n := 0;
    var c := Mine(w).(stack := s, pc := next);
    BinaryIs(k, w.context, Under(w.context, s, next, w.vm), c, number);
    if |s| < 2 || number > 2 {
      NoneFollows(k, w, Stuck);
      AtOnce(k, w, M.Stuck, Ours(k, w, s, next, SendBinary(number)));
      hide Under, Mine, Follows, Matches;
      return;
    }
    FrontTwo(s);
    var a, b := s[|s| - 2], s[|s| - 1];
    if a.SmallInt? && b.SmallInt? {
      SameStore(w, s, next);
      OwnPush(k, p, w, s, next, Front(s, 2), next, BinaryValue(number, a.i, b.i), w.vm.w);
      AtOnce(k, w, M.Push(p, next, Front(s, 2), BinaryValue(number, a.i, b.i), w), Ours(k, w, s, next, SendBinary(number)));
      hide Under, Mine, Follows, Matches, Push, M.Push, Front, M.Front, Loaded, Whole;
    } else {
      var r := p.env.send(w, false, Symbol(BINARY_NAMES[number]), [a, b]);
      n := SendFollowed(k, p, w, s, Front(s, 2), next, false, Symbol(BINARY_NAMES[number]), [a, b], r);
      ReturnKinds(p, next, Front(s, 2), r);
      hide Under, Mine, Follows, Call, M.Return, Front, M.Front, Loaded, Whole, Run, SendFollows;
    }
  }

  lemma {:induction false} FrontTwo(s: seq<Value>)
    requires |s| >= 2
    ensures M.Front(M.Front(s)) == Front(s, 2) && M.Last(M.Front(s)) == s[|s| - 2] && M.Last(s) == s[|s| - 1]
  {}

  lemma {:induction false} ExecFollows(k: Kernel, o: Others, p: M.Program, w: World, s: seq<Value>, next: nat, i: Instr) returns (n: nat)
    requires Whole(w) && Loaded(k, p, Mine(w).method_) && p.env == EnvOf(k, o) && FollowsExec(k, p, w, s, i)
    ensures M.Exec(p, i, next, s, w).Stuck? || Matches(k, w, M.Exec(p, i, next, s, w), Ours(k, w, s, next, i), n)
  {
    hide Whole, Loaded, EnvOf, Mine, Under, Exec, M.Exec, Run, Matches;
    n := 0;
    Kinds();
    if i.SendMessage? || i.SendToSuper? {
      SendNeeds(p, w, s, next, i);
      if i.n < |p.lits| && s != [] && Last(s).Arguments? { n := SendStep(k, p, w, s, next, i.SendToSuper?, i.n); }
    } else if i.SendBinary? {
      n := BinaryStep(k, p, w, s, next, i.n);
    } else if RunsBlock(i) {
      n := BlockStep(k, o, p, w, s, next, i.argCount);
    } else {
      SimpleFollows(k, o, p, w, s, next, i);
    }
  }

  lemma {:induction false} SendNeeds(p: M.Program, w: World, s: seq<Value>, next: nat, i: Instr)
    requires i.SendMessage? || i.SendToSuper?
    ensures !M.Exec(p, i, next, s, w).Stuck? ==> i.n < |p.lits| && s != [] && Last(s).Arguments?
  {}

  lemma {:induction false} BlockStep(k: Kernel, o: Others, p: M.Program, w: World, s: seq<Value>, next: nat, argCount: nat) returns (n: nat)
    requires Whole(w) && Loaded(k, p, Mine(w).method_) && p.env == EnvOf(k, o) && FollowsExec(k, p, w, s, DoPrimitive(argCount, 8))
    ensures var i := DoPrimitive(argCount, 8);
            M.Exec(p, i, next, s, w).Stuck? || Matches(k, w, M.Exec(p, i, next, s, w), Ours(k, w, s, next, i), n)
  {
    n := 0;
    if argCount <= |s| {
      n := BlockFollowed(k, o, p, w, s, next, argCount);
    }
    hide Whole, Loaded, EnvOf, Mine, Under, Exec, Run, BlockFollows, Follows, Topmost;
  }

  lemma {:induction false} SimpleFollows(k: Kernel, o: Others, p: M.Program, w: World, s: seq<Value>, next: nat, i: Instr)
    requires Whole(w) && Loaded(k, p, Mine(w).method_) && p.env == EnvOf(k, o)
    requires !i.SendMessage? && !i.SendToSuper? && !i.SendBinary? && !RunsBlock(i)
    ensures Matches(k, w, M.Exec(p, i, next, s, w), Ours(k, w, s, next, i), 0)
  {
    GoesOn(k, o, p, w, s, next, i);
    hide Whole, Loaded, EnvOf, Mine, Under, Exec, M.Exec, Run, Matches, Follows;
    if Own(i) {
      VariableFollows(k, o, p, w, s, next, i);
    } else if OnStack(i) {
      StackFollows(k, p, w, s, next, i);
    } else if i.PushBlock? {
      BlockMade(k, o, p, w, s, next, i.argLoc, i.target);
    } else if i.DoPrimitive? {
      PrimitiveFollows(k, o, p, w, s, next, i.argCount, i.number);
    } else {
      ReturnFollows(k, o, p, w, s, next, i);
    }
    AtOnce(k, w, M.Exec(p, i, next, s, w), Ours(k, w, s, next, i));
  }

  /** Only a send, or a block, goes on for ever. */
  lemma {:induction false} GoesOn(k: Kernel, o: Others, p: M.Program, w: World, s: seq<Value>, next: nat, i: Instr)
    requires p.env == EnvOf(k, o) && !i.SendMessage? && !i.SendToSuper? && !i.SendBinary? && !RunsBlock(i)
    ensures !M.Exec(p, i, next, s, w).Diverged?
  {
    EnvFacts(k, o, w);
    hide Mine, EnvOf;
  }

  /** One step of the machine, and the steps of the contexts that it stands for. */
  lemma {:induction false} StepFollows(k: Kernel, o: Others, p: M.Program, w: World, s: seq<Value>, pc: nat) returns (n: nat)
    requires Whole(w) && Loaded(k, p, Mine(w).method_) && p.env == EnvOf(k, o) && FollowsAt(k, p, M.Running(pc, s, w))
    ensures var m := M.Step(p, M.Running(pc, s, w)); m.Stuck? || Matches(k, w, m, StateOf(w, s, pc), n)
  {
    OwnStep(k, p, w, s, pc);
    n := 0;
    var d := Decode(p.bytes, pc);
    if pc < |p.bytes| && d.Decoded? {
      assert FollowsExec(k, p, w, s, d.instr);
      hide Whole, Loaded, EnvOf, Mine, Under, Exec, M.Exec, Run, Matches, FollowsExec, FollowsAt, Decode, Step;
      n := ExecFollows(k, o, p, w, s, d.next, d.instr);
      StepLater(k, w, M.Exec(p, d.instr, d.next, s, w), StateOf(w, s, pc), n);
      n := n + 1;
    }
  }

  lemma {:induction false} StepLater(k: Kernel, w: World, m: M.State, c: State, n: nat)
    requires c.Running?
    ensures Matches(k, w, m, Step(k, false, c), n) ==> Matches(k, w, m, c, n + 1)
  {
    hide Follows, Step;
    if m.Diverged? && Matches(k, w, m, Step(k, false, c), n) {
      forall j: nat ensures Run(k, false, c, j).Running? {
        RunFirst(k, false, c, j);
        if j > 0 { assert Run(k, false, Step(k, false, c), j - 1).Running?; }
      }
    }
  }

  /** The environment knows what comes of everything the activation leaves to others. */
  ghost predicate Faithful(k: Kernel, p: M.Program, m: M.State, j: nat) {
    forall i: nat | i < j :: FollowsAt(k, p, M.Run(p, m, i))
  }

  lemma {:induction false} FaithfulRest(k: Kernel, p: M.Program, m: M.State, j: nat)
    requires Faithful(k, p, m, j) && j > 0
    ensures FollowsAt(k, p, m) && Faithful(k, p, M.Step(p, m), j - 1)
  {
    hide FollowsAt, M.Step;
    assert M.Run(p, m, 0) == m;
    forall i: nat | i < j - 1 ensures FollowsAt(k, p, M.Run(p, M.Step(p, m), i)) {
      assert FollowsAt(k, p, M.Run(p, m, i + 1));
    }
  }

  lemma {:induction false} MachineFirst(p: M.Program, m: M.State, j: nat)
    ensures M.Run(p, m, j) == if j == 0 then m else M.Run(p, M.Step(p, m), j - 1)
    ensures !m.Running? ==> M.Run(p, m, j) == m
  {
    hide M.Step;
    if !m.Running? { M.RunEnded(p, m, j); }
  }

  /** Any number of steps. */
  lemma {:induction false} RunFollows(k: Kernel, o: Others, p: M.Program, w: World, s: seq<Value>, pc: nat, j: nat) returns (n: nat)
    requires Whole(w) && Loaded(k, p, Mine(w).method_) && p.env == EnvOf(k, o) && Faithful(k, p, M.Running(pc, s, w), j)
    requires !M.Run(p, M.Running(pc, s, w), j).Stuck?
    ensures Matches(k, w, M.Run(p, M.Running(pc, s, w), j), StateOf(w, s, pc), n)
    decreases j
  {
    hide M.Run, M.Step, FollowsAt, Faithful, Loaded, EnvOf, Run, Step;
    var m := M.Running(pc, s, w);
    MachineFirst(p, m, j);
    n := 0;
    if j == 0 {
      AtOnce(k, w, m, StateOf(w, s, pc));
      hide Matches, Under;
      return;
    }
    FaithfulRest(k, p, m, j);
    n := StepFollows(k, o, p, w, s, pc);
    var m' := M.Step(p, m);
    MachineFirst(p, m', j - 1);
    if m'.Running? {
      hide Under, Whole, Mine;
      var i := RunFollows(k, o, p, m'.w, m'.stack, m'.pc, j - 1);
      MatchesLater(k, w, m'.w, M.Run(p, m', j - 1), StateOf(w, s, pc), n, StateOf(m'.w, m'.stack, m'.pc), i);
      n := n + i;
    }
  }

  lemma {:induction false} MatchesLater(k: Kernel, w: World, w': World, m: M.State, c: State, n: nat, d: State, i: nat)
    requires Run(k, false, c, n) == d && d.Running? && Same(w, w') && Matches(k, w', m, d, i)
    ensures Matches(k, w, m, c, n + i)
  {
    if m.Diverged? {
      hide Step, Run;
      forall j: nat ensures Run(k, false, c, j).Running? {
        if j >= n {
          Contexts.RunAdd(k, false, c, n, j - n);
        } else {
          Contexts.RunAdd(k, false, c, j, n - j);
          if !Run(k, false, c, j).Running? { Contexts.RunEnded(k, false, Run(k, false, c, j), n - j); }
        }
      }
    } else {
      Contexts.RunAdd(k, false, c, n, i);
      hide Run, Whole;
    }
  }

  // ---- The answers that the kernel gives -------------------------------------------------------------

  /** What a send comes to, if it comes to anything. */
  ghost function AnswerOf(k: Kernel, w: World, super: bool, selector: Value, args: seq<Value>): SendResult {
    if exists r :: SendFollows(k, w, super, selector, args, r) then
      var r :| SendFollows(k, w, super, selector, args, r); r
    else NeverReturns
  }

  ghost function BlockAnswerOf(k: Kernel, w: World, vals: seq<Value>): PrimResult {
    if exists r :: BlockFollows(k, w, vals, r) then
      var r :| BlockFollows(k, w, vals, r); r
    else PrimNever
  }

  /** The environment of the kernel itself: there is nothing left to choose in it. */
  ghost function OthersOf(k: Kernel): Others {
    Others((w: World, super: bool, selector: Value, args: seq<Value>) => AnswerOf(k, w, super, selector, args),
           (w: World, vals: seq<Value>) => BlockAnswerOf(k, w, vals))
  }

  /** A callee's run comes back with a value, goes past, or goes on for ever: it gets neither stuck nor astray,
      nor does it run the sender's own block. */
  ghost predicate Answerable(k: Kernel, w: World, super: bool, selector: Value, args: seq<Value>) {
    exists r :: SendFollows(k, w, super, selector, args, r)
  }

  ghost predicate BlockAnswerable(k: Kernel, w: World, vals: seq<Value>) {
    exists r :: BlockFollows(k, w, vals, r)
  }

  /** What the activation leaves to others comes to something. */
  ghost predicate AnswerableAt(k: Kernel, p: M.Program, m: M.State) {
    m.Running? ==>
      match Decode(p.bytes, m.pc)
      case Decoded(SendMessage(n), _) =>
        n < |p.lits| && m.stack != [] && Last(m.stack).Arguments? ==> Answerable(k, m.w, false, p.lits[n], Last(m.stack).vals)
      case Decoded(SendToSuper(n), _) =>
        n < |p.lits| && m.stack != [] && Last(m.stack).Arguments? ==> Answerable(k, m.w, true, p.lits[n], Last(m.stack).vals)
      case Decoded(SendBinary(n), _) =>
        |m.stack| >= 2 && n <= 2 ==>
          var a, b := m.stack[|m.stack| - 2], m.stack[|m.stack| - 1];
          (a.SmallInt? && b.SmallInt?) || Answerable(k, m.w, false, Symbol(BINARY_NAMES[n]), [a, b])
      case Decoded(DoPrimitive(argCount, number), _) =>
        number == 8 && argCount <= |m.stack| ==> BlockAnswerable(k, m.w, Topmost(m.stack, argCount))
      case _ => true
  }

  lemma {:induction false} AnswersFollow(k: Kernel, p: M.Program, w: World, super: bool, selector: Value, args: seq<Value>)
    requires p.env == EnvOf(k, OthersOf(k))
    ensures Sends(k, p, w, super, selector, args) <==> Answerable(k, w, super, selector, args)
  {
    hide SendFollows, Primitive, NewBlock, WithStore, Mine;
  }

  lemma {:induction false} BlocksFollow(k: Kernel, p: M.Program, w: World, vals: seq<Value>)
    requires p.env == EnvOf(k, OthersOf(k))
    ensures BlockFollows(k, w, vals, p.env.primitive(w, 8, vals)) <==> BlockAnswerable(k, w, vals)
  {
    hide BlockFollows, NewBlock, WithStore, Mine;
  }

  /** In that environment an activation is followed exactly as long as its sends and blocks come to something. */
  lemma {:induction false} FollowsIffAnswerable(k: Kernel, p: M.Program, m: M.State)
    requires p.env == EnvOf(k, OthersOf(k))
    ensures FollowsAt(k, p, m) <==> AnswerableAt(k, p, m)
  {
    forall w, super, selector, args ensures Sends(k, p, w, super, selector, args) <==> Answerable(k, w, super, selector, args) {
      AnswersFollow(k, p, w, super, selector, args);
    }
    forall w, vals ensures BlockFollows(k, w, vals, p.env.primitive(w, 8, vals)) <==> BlockAnswerable(k, w, vals) {
      BlocksFollow(k, p, w, vals);
    }
    hide Decode, Sends, BlockFollows, Answerable, BlockAnswerable, EnvOf, OthersOf, Topmost, Last;
  }
}
