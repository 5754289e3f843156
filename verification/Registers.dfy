/** The interpreter's memory and registers as a value, and the contexts they stand for. */
module Registers {
  import opened Options
  import opened Values
  import opened Contexts

  /** A context as it is in memory; its stack is an object of its own. */
  datatype Frame = Frame(
    method_: nat,
    args: seq<Value>,
    temps: nat,
    slots: nat,
    top: nat,
    pc: nat,
    previous: Option<nat>,
    creating: Option<nat>,
    argLoc: nat,
    start: nat)

  /** Registers that a run starts without: four are filled from the context, or from its method, when they are
      first needed, and `returnedValue` has what the last instruction that computed a value left in it. */
  datatype Spare = Spare(
    arguments: Option<seq<Value>>,
    temporaries: Option<nat>,
    literals: Option<nat>,
    instanceVariables: Option<Value>,
    returnedValue: Value)

  const EMPTY := Spare(None, None, None, None, Nil)

  /** `loaded` says that the registers hold the current context.  `left` has the contexts control has left: it
      is there to be reasoned about, and nothing depends on it. */
  datatype Regs = Regs(
    frames: map<nat, Frame>,
    stacks: map<nat, seq<Value>>,
    w: Store,
    next: nat,
    context: nat,
    method_: nat,
    bytePointer: nat,
    stack: nat,
    stackTop: nat,
    loaded: bool,
    spare: Spare,
    left: set<nat>)

  ghost predicate Framed(k: Kernel, r: Regs, f: Frame) {
    f.slots in r.stacks && |r.stacks[f.slots]| == k.stackSize(f.method_) && f.top <= |r.stacks[f.slots]|
  }

  /** Contexts have stacks of their own, of the size their methods ask for. */
  ghost predicate Memory(k: Kernel, r: Regs) {
    && (forall d | d in r.frames :: d < r.next && Framed(k, r, r.frames[d]))
    && (forall d, e | d in r.frames && e in r.frames && r.frames[d].slots == r.frames[e].slots :: d == e)
    && (forall s | s in r.stacks :: s < r.next)
    && (forall d | d in r.left :: d < r.next)
  }

  /** At the head of the loop the method and stack registers go with the current context. */
  ghost predicate Sound(k: Kernel, r: Regs) {
    && Memory(k, r) && r.loaded && r.context in r.frames && r.context !in r.left
    && r.method_ == r.frames[r.context].method_ && r.stack == r.frames[r.context].slots && r.stackTop <= |r.stacks[r.stack]|
  }

  function Slots(r: Regs, s: nat, n: nat): seq<Value> {
    if s in r.stacks && n <= |r.stacks[s]| then r.stacks[s][..n] else []
  }

  /** The context that a frame, with the registers when it is current, stands for. */
  function View(r: Regs, d: nat): Context
    requires d in r.frames
  {
    var f := r.frames[d];
    var c := Context(f.method_, f.args, f.temps, [], 0, f.previous, f.creating, f.argLoc, f.start);
    if r.loaded && d == r.context then c.(stack := Slots(r, r.stack, r.stackTop), pc := r.bytePointer)
    else if d in r.left then c
    else c.(stack := Slots(r, f.slots, f.top), pc := f.pc)
  }

  function Abs(r: Regs): VM {
    VM(map d | d in r.frames :: View(r, d), r.w, r.next, r.left)
  }

  function Current(r: Regs): Context
    requires r.context in r.frames
  {
    View(r, r.context)
  }

  function StateOf(r: Regs): State {
    Running(r.context, Abs(r))
  }

  // ---- Steps on registers ----------------------------------------------------------------------------

  function Pushed(r: Regs, v: Value): Regs
    requires r.stack in r.stacks && r.stackTop < |r.stacks[r.stack]|
  {
    r.(stacks := r.stacks[r.stack := r.stacks[r.stack][r.stackTop := v]], stackTop := r.stackTop + 1)
  }

  function Popped(r: Regs, n: nat): Regs
    requires n <= r.stackTop
  {
    r.(stackTop := r.stackTop - n)
  }

  /** The spare registers are not part of what the others stand for. */
  lemma {:induction false} SpareMeans(k: Kernel, r: Regs, spare: Spare)
    requires Sound(k, r)
    ensures var s := r.(spare := spare);
            Sound(k, s) && Abs(s) == Abs(r) && Current(s) == Current(r) && StateOf(s) == StateOf(r)
  {
    var s := r.(spare := spare);
    forall d | d in r.frames ensures View(s, d) == View(r, d) {}
  }

  /** Changing the current context changes nothing else. */
  lemma {:induction false} OnlyCurrent(r: Regs, s: Regs)
    requires r.context in r.frames && s.frames == r.frames && s.context == r.context && r.loaded && s.loaded && s.left == r.left
    requires forall d | d in r.frames && d != r.context && d !in r.left :: Slots(s, r.frames[d].slots, r.frames[d].top) == Slots(r, r.frames[d].slots, r.frames[d].top)
    ensures Abs(s) == Abs(r).(contexts := Abs(r).contexts[r.context := Current(s)], w := s.w, next := s.next)
  {}

  lemma {:induction false} PushedMeans(k: Kernel, r: Regs, v: Value)
    requires Sound(k, r)
    ensures |Current(r).stack| == r.stackTop && k.stackSize(Current(r).method_) == |r.stacks[r.stack]|
    ensures r.stackTop < |r.stacks[r.stack]| ==>
              Sound(k, Pushed(r, v)) && StateOf(Pushed(r, v)) == Push(k, r.context, Abs(r), Current(r), v)
    ensures r.stackTop == |r.stacks[r.stack]| ==> Push(k, r.context, Abs(r), Current(r), v) == Stuck
  {
    if r.stackTop < |r.stacks[r.stack]| {
      var s := Pushed(r, v);
      assert s.stacks[s.stack][..s.stackTop] == r.stacks[r.stack][..r.stackTop] + [v];
      OnlyCurrent(r, s);
    }
  }

  lemma {:induction false} PoppedMeans(k: Kernel, r: Regs, n: nat)
    requires Sound(k, r) && n <= r.stackTop
    ensures Sound(k, Popped(r, n)) && Current(Popped(r, n)) == Current(r).(stack := Front(Current(r).stack, n))
    ensures Abs(Popped(r, n)) == Abs(r).(contexts := Abs(r).contexts[r.context := Current(Popped(r, n))])
  {
    var s := Popped(r, n);
    assert s.stacks[s.stack][..s.stackTop] == Front(r.stacks[r.stack][..r.stackTop], n);
    OnlyCurrent(r, s);
  }

  lemma {:induction false} JumpMeans(k: Kernel, r: Regs, pc: nat)
    requires Sound(k, r)
    ensures var s := r.(bytePointer := pc);
            Sound(k, s) && Current(s) == Current(r).(pc := pc) && StateOf(s) == With(r.context, Abs(r), Current(s))
  {
    OnlyCurrent(r, r.(bytePointer := pc));
  }

  lemma {:induction false} WorldMeans(k: Kernel, r: Regs, w: Store)
    requires Sound(k, r)
    ensures var s := r.(w := w);
            && Sound(k, s) && Current(s) == Current(r) && Abs(s) == Abs(r).(w := w)
            && StateOf(s) == With(r.context, Abs(r).(w := w), Current(r))
  {
    OnlyCurrent(r, r.(w := w));
  }

  /** The contexts of Abs are the views. */
  lemma {:induction false} AbsIs(r: Regs, m: map<nat, Context>)
    ensures Abs(r).contexts.Keys == r.frames.Keys && (forall d | d in r.frames :: Abs(r).contexts[d] == View(r, d))
    ensures m.Keys == r.frames.Keys && (forall d | d in r.frames :: m[d] == View(r, d)) ==> Abs(r).contexts == m
    ensures Abs(r).w == r.w && Abs(r).next == r.next && Abs(r).left == r.left
  {
    hide View;
  }

  /** The current context is in the contexts. */
  lemma {:induction false} CurrentIn(k: Kernel, r: Regs)
    requires Sound(k, r)
    ensures r.context in Abs(r).contexts && Abs(r).contexts[r.context] == Current(r)
    ensures Abs(r).contexts[r.context := Current(r)] == Abs(r).contexts
  {}

  // ---- Calls, returns, blocks ------------------------------------------------------------------------

  /** The registers go into the current context. */
  function Saved(r: Regs): Regs
    requires r.context in r.frames
  {
    r.(frames := r.frames[r.context := r.frames[r.context].(top := r.stackTop, pc := r.bytePointer)])
  }

  /** The registers are taken from a context. */
  function Loaded(r: Regs, t: nat): Regs
    requires t in r.frames
  {
    var f := r.frames[t];
    r.(context := t, method_ := f.method_, bytePointer := f.pc, stack := f.slots, stackTop := f.top, loaded := true, spare := EMPTY)
  }

  /** A stack object as it is made. */
  function Blank(n: nat): (s: seq<Value>)
    ensures |s| == n
  {
    seq(n, _ => Nil)
  }

  /** A new context, with its stack, becomes current. */
  function Called(k: Kernel, r: Regs, m: nat, args: seq<Value>, temps: nat, w: Store, link: Option<nat>): Regs
    requires r.context in r.frames
  {
    var n := r.next;
    var s := Saved(r);
    Loaded(s.(frames := s.frames[n := Frame(m, args, temps, n, 0, 0, link, None, 0, 0)],
              stacks := s.stacks[n := Blank(k.stackSize(m))], w := w, next := n + 1), n)
    .(spare := Spare(Some(args), Some(temps), None, None, r.spare.returnedValue))
  }

  lemma {:induction false} CalledSound(k: Kernel, r: Regs, m: nat, args: seq<Value>, temps: nat, w: Store, link: Option<nat>)
    requires Sound(k, r)
    ensures Sound(k, Called(k, r, m, args, temps, w, link))
  {
    assert Called(k, r, m, args, temps, w, link).frames[r.next].slots == r.next;
  }

  lemma {:induction false} CalledViews(k: Kernel, r: Regs, m: nat, args: seq<Value>, temps: nat, w: Store, link: Option<nat>)
    requires Sound(k, r)
    ensures var s := Called(k, r, m, args, temps, w, link);
            && (forall d | d in r.frames :: View(s, d) == View(r, d))
            && View(s, r.next) == Context(m, args, temps, [], 0, link, None, 0, 0)
  {}

  lemma {:induction false} CalledMeans(k: Kernel, r: Regs, m: nat, args: seq<Value>, temps: nat, w: Store, link: Option<nat>)
    requires Sound(k, r)
    ensures var s := Called(k, r, m, args, temps, w, link);
            && Sound(k, s)
            && StateOf(s) == Running(r.next, VM(Abs(r).contexts[r.next := Context(m, args, temps, [], 0, link, None, 0, 0)], w, r.next + 1, r.left))
  {
    CalledSound(k, r, m, args, temps, w, link);
    CalledViews(k, r, m, args, temps, w, link);
    hide View, Memory, Abs;
    AbsIs(r, map[]);
    AbsIs(Called(k, r, m, args, temps, w, link), Abs(r).contexts[r.next := Context(m, args, temps, [], 0, link, None, 0, 0)]);
  }

  /** Control leaves the current context. */
  function Departed(r: Regs): Regs {
    r.(left := r.left + {r.context}, loaded := false)
  }

  /** Control comes back to t: wherever that stood when it was last saved. */
  function Entered(r: Regs, t: nat): Regs
    requires t in r.frames
  {
    Loaded(Departed(r), t).(left := r.left + {r.context} - {t})
  }

  lemma {:induction false} EnteredSound(k: Kernel, r: Regs, t: nat)
    requires Sound(k, r) && t in r.frames
    ensures Sound(k, Entered(r, t))
  {}

  /** If control had not left it, that is where it stood when control went on from it. */
  lemma {:induction false} ReturnMeans(k: Kernel, r: Regs, t: nat)
    requires Sound(k, r) && t in r.frames && t !in r.left && t != r.context
    ensures var s := Entered(r, t);
            && Sound(k, s)
            && Abs(s) == Leave(r.context, Abs(r), Current(r)) && s.context == t && Current(s) == Abs(r).contexts[t]
  {
    var s := Entered(r, t);
    assert s.left == r.left + {r.context};
    forall d | d in r.frames && d != r.context ensures View(s, d) == View(r, d) {}
  }

  /** Or the process ends. */
  lemma {:induction false} DepartedMeans(k: Kernel, r: Regs)
    requires Sound(k, r)
    ensures Memory(k, Departed(r)) && Abs(Departed(r)) == Leave(r.context, Abs(r), Current(r))
  {
    var s := Departed(r);
    forall d | d in r.frames && d != r.context ensures View(s, d) == View(r, d) {}
  }

  /** A block is made, with a stack of its own. */
  function Blocked(k: Kernel, r: Regs, argLoc: nat): Regs
    requires r.context in r.frames
  {
    var f, n := r.frames[r.context], r.next;
    var home := if f.creating.Some? then f.creating else Some(r.context);
    r.(frames := r.frames[n := Frame(f.method_, f.args, f.temps, n, 0, 0, None, home, argLoc, r.bytePointer)],
       stacks := r.stacks[n := Blank(k.stackSize(f.method_))], next := n + 1, left := r.left + {n},
       spare := Spare(Some(f.args), Some(f.temps), None, None, Object(n)))
  }

  lemma {:induction false} BlockedSound(k: Kernel, r: Regs, argLoc: nat)
    requires Sound(k, r)
    ensures Sound(k, Blocked(k, r, argLoc))
  {
    assert Blocked(k, r, argLoc).frames[r.next].slots == r.next;
  }

  lemma {:induction false} BlockedMeans(k: Kernel, r: Regs, argLoc: nat)
    requires Sound(k, r)
    ensures var s, c := Blocked(k, r, argLoc), Current(r);
            var home := if c.creating.Some? then c.creating else Some(r.context);
            && Sound(k, s) && Current(s) == c && s.context == r.context
            && Abs(s) == VM(Abs(r).contexts[r.next := Context(c.method_, c.args, c.temps, [], 0, None, home, argLoc, c.pc)], r.w, r.next + 1, r.left + {r.next})
  {
    var s, c := Blocked(k, r, argLoc), Current(r);
    BlockedSound(k, r, argLoc);
    BlockedViews(k, r, argLoc);
    hide View, Memory, Abs;
    AbsIs(r, map[]);
    var home := if c.creating.Some? then c.creating else Some(r.context);
    AbsIs(s, Abs(r).contexts[r.next := Context(c.method_, c.args, c.temps, [], 0, None, home, argLoc, c.pc)]);
  }

  lemma {:induction false} BlockedViews(k: Kernel, r: Regs, argLoc: nat)
    requires Sound(k, r)
    ensures var s, c := Blocked(k, r, argLoc), Current(r);
            && c.creating == r.frames[r.context].creating
            && (forall d | d in r.frames :: View(s, d) == View(r, d))
            && View(s, r.next) == Context(c.method_, c.args, c.temps, [], 0, None, if c.creating.Some? then c.creating else Some(r.context), argLoc, c.pc)
  {}

  /** A block is run: it returns where the context that runs it would. */
  function Invoked(r: Regs, b: nat, w: Store): Regs
    requires b in r.frames && r.context in r.frames
  {
    var s := Departed(r);
    var f := r.frames[b].(previous := r.frames[r.context].previous);
    s.(frames := r.frames[b := f], left := s.left - {b}, w := w, context := b, method_ := f.method_, bytePointer := f.start,
       stack := f.slots, stackTop := 0, loaded := true, spare := Spare(None, Some(f.temps), None, None, Object(b)))
  }

  lemma {:induction false} InvokedSound(k: Kernel, r: Regs, b: nat, w: Store)
    requires Sound(k, r) && b in r.frames
    ensures Sound(k, Invoked(r, b, w))
  {}

  lemma {:induction false} InvokedViews(k: Kernel, r: Regs, b: nat, w: Store)
    requires Sound(k, r) && b in r.frames
    ensures var s := Invoked(r, b, w);
            && (forall d | d in r.frames && d != r.context && d != b :: View(s, d) == View(r, d))
            && View(s, b) == View(r, b).(stack := [], pc := r.frames[b].start, previous := Current(r).previous)
            && (b != r.context ==> View(s, r.context) == Current(r).(stack := [], pc := 0))
  {}

  lemma {:induction false} InvokedMeans(k: Kernel, r: Regs, b: nat, w: Store)
    requires Sound(k, r) && b in r.frames
    ensures var s, gone := Invoked(r, b, w), Leave(r.context, Abs(r), Current(r));
            && Sound(k, s)
            && StateOf(s) == Running(b, VM(gone.contexts[b := Abs(r).contexts[b].(stack := [], pc := r.frames[b].start, previous := Current(r).previous)],
                                           w, r.next, gone.left - {b}))
  {
    InvokedSound(k, r, b, w);
    InvokedViews(k, r, b, w);
    hide View, Memory, Abs;
    AbsIs(r, map[]);
    var gone := Leave(r.context, Abs(r), Current(r));
    AbsIs(Invoked(r, b, w), gone.contexts[b := Abs(r).contexts[b].(stack := [], pc := r.frames[b].start, previous := Current(r).previous)]);
  }

  /** Saving the registers and taking them up again changes nothing. */
  lemma {:induction false} SavedMeans(k: Kernel, r: Regs)
    requires Sound(k, r)
    ensures var s := Saved(r).(loaded := false);
            Memory(k, s) && r.context in s.frames && r.context !in s.left && Abs(s) == Abs(r)
  {
    var s := Saved(r).(loaded := false);
    forall d | d in r.frames ensures View(s, d) == View(r, d) {}
  }

  lemma {:induction false} LoadedMeans(k: Kernel, r: Regs, t: nat)
    requires Memory(k, r) && !r.loaded && t in r.frames && t !in r.left
    ensures Sound(k, Loaded(r, t)) && StateOf(Loaded(r, t)) == Running(t, Abs(r))
  {
    forall d | d in r.frames ensures View(Loaded(r, t), d) == View(r, d) {}
  }
}
