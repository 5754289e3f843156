/** A process for which it matters how a run is cut into slices: a block returns to a method that has returned
    already, and that goes on wherever it was last saved. */
module Strays {
  import opened Bytes
  import opened Options
  import opened Bytecode
  import opened Values
  import opened Contexts
  import opened Registers
  import opened Loop
  import opened Slicing
  import opened Tracing
  import opened Samples

  // run       ^ self start value        (method 0)
  // start     ^ self make; yourself     (method 1)
  // make      ^ [ ^ true ]              (method 2)
  // value     <8 self>                  (method 3)
  // yourself  ^ self                    (method 4)
  //
  // The block returns through `make` to `start`, which has returned.

  const STRAYING: Kernel :=
    Kernel(
      m => if m == 0 then RUN else if m == 1 then START else if m == 2 then MAKE else if m == 3 then VALUE else YOURSELF,
      (m, n) => if m == 0 then Symbol(if n == 0 then "start" else "value") else Symbol(if n == 0 then "make" else "yourself"),
      m => 4,
      (w, v, n) => Nil,
      (w, v, n, x) => w,
      (w, t, n) => Nil,
      (w, t, n, x) => w,
      (w, m) => (NO_TEMPORARIES, w),
      (w, from, rcv, selector) =>
        if selector == Symbol("start") then Some(1) else if selector == Symbol("make") then Some(2) else if selector == Symbol("value") then Some(3) else Some(4),
      (w, n, vs) => Failed(w, |vs|),
      (w, t, n, vs) => Some(w),
      Nil)

  /** All that is as the compiler makes it. */
  lemma {:induction false} AsCompiled()
    ensures Compiles(RUN_SOURCE, STRAYING.bytes(0), [STRAYING.literal(0, 0), STRAYING.literal(0, 1)])
    ensures Compiles(START_SOURCE, STRAYING.bytes(1), [STRAYING.literal(1, 0), STRAYING.literal(1, 1)])
    ensures Compiles(MAKE_SOURCE, STRAYING.bytes(2), []) && Compiles(VALUE_SOURCE, STRAYING.bytes(3), []) && Compiles(YOURSELF_SOURCE, STRAYING.bytes(4), [])
  {
    hide Compiles;
    RunCompiled();
    StartCompiled();
    MakeCompiled();
    ValueCompiled();
    YourselfCompiled();
  }

  const SENT := Arguments([SELF])
  const BLOCK := Object(3)
  const BLOCK_SENT := Arguments([BLOCK])

  const RUN_FRAME := Frame(0, [SELF], 0, 0, 0, 0, None, None, 0, 0)
  const START_FRAME := Frame(1, [SELF], 0, 1, 0, 0, Some(0), None, 0, 0)
  const MAKE_FRAME := Frame(2, [SELF], 0, 2, 0, 0, Some(1), None, 0, 0)
  const BLOCK_FRAME := Frame(2, [SELF], 0, 3, 0, 0, None, Some(2), 0, 3)
  const YOURSELF_FRAME := Frame(4, [BLOCK], 0, 4, 0, 0, Some(1), None, 0, 0)
  const VALUE_FRAME := Frame(3, [BLOCK], 0, 5, 0, 0, None, None, 0, 0)

  // ---- Up to the block -------------------------------------------------------------------------------

  /** The receiver is pushed, and put into an array. */
  lemma {:induction false} Marks(k: Kernel, r: Regs, x: Value)
    requires Next(k, r, 0, PushArgument(0), 1) && Next(k, r, 1, MarkArguments(1), 1) && ArgumentsOf(r) == [x]
    ensures Looping(k, Going(At(r, EMPTY_STACK, 0, 0)), 2) ==
            Going(At(r.(spare := r.spare.(arguments := None)), Four(Arguments([x]), Nil, Nil), 1, 2))
  {
    hide Looping, Decode, Stepping;
    var s1, s2, r1 := Four(x, Nil, Nil), Four(Arguments([x]), Nil, Nil), WithArguments(r);
    var o := Going(At(r, EMPTY_STACK, 0, 0));
    assert EMPTY_STACK[0 := x] == s1 && s1[0 := Arguments([x])] == s2;
    ArgumentAt(k, r, EMPTY_STACK, 0, 0, 0);
    MarkAt(k, r1, s1, 1, 1);
    Start(k, o.r);
    Then(k, o, 0, o.r, Going(At(r1, s1, 1, 1)));
    Then(k, o, 1, At(r1, s1, 1, 1), Going(At(r.(spare := r.spare.(arguments := None)), s2, 1, 2)));
  }

  lemma {:induction false} RunDecodes()
    ensures Decode(RUN, 0) == Decoded(PushArgument(0), 1) && Decode(RUN, 1) == Decoded(MarkArguments(1), 2)
    ensures Decode(RUN, 2) == Decoded(SendMessage(0), 3) && Decode(RUN, 3) == Decoded(MarkArguments(1), 4)
    ensures Decode(RUN, 4) == Decoded(SendMessage(1), 5) && Decode(RUN, 5) == Decoded(StackReturn, 6)
  {}

  lemma {:induction false} StartDecodes()
    ensures Decode(START, 0) == Decoded(PushArgument(0), 1) && Decode(START, 1) == Decoded(MarkArguments(1), 2)
    ensures Decode(START, 2) == Decoded(SendMessage(0), 3) && Decode(START, 3) == Decoded(Duplicate, 4)
    ensures Decode(START, 4) == Decoded(MarkArguments(1), 5) && Decode(START, 5) == Decoded(SendMessage(1), 6)
    ensures Decode(START, 6) == Decoded(PopTop, 7) && Decode(START, 7) == Decoded(StackReturn, 8)
  {}

  lemma {:induction false} MakeDecodes()
    ensures Decode(MAKE, 0) == Decoded(PushBlock(0, 6), 3) && Decode(MAKE, 3) == Decoded(PushConstant(TRUE_CONST), 4)
    ensures Decode(MAKE, 4) == Decoded(BlockReturn, 5) && Decode(MAKE, 6) == Decoded(StackReturn, 7)
  {}

  lemma {:induction false} ValueDecodes()
    ensures Decode(VALUE, 0) == Decoded(PushArgument(0), 1) && Decode(VALUE, 1) == Decoded(DoPrimitive(1, 8), 3)
    ensures Decode(YOURSELF, 0) == Decoded(PushArgument(0), 1) && Decode(YOURSELF, 1) == Decoded(StackReturn, 2)
  {}

  lemma {:induction false} EmptyStack()
    ensures Blank(4) == EMPTY_STACK
  {}

  /** The spare registers when a method has been entered. */
  function Fresh(args: seq<Value>, v: Value): Spare {
    Spare(Some(args), Some(NO_TEMPORARIES), None, None, v)
  }

  /** And when one has been returned to. */
  function Back(v: Value): Spare {
    EMPTY.(returnedValue := v)
  }

  /** In `run`, at the start. */
  function InRun(w: Store): Regs {
    Regs(map[0 := RUN_FRAME], map[0 := EMPTY_STACK], w, 1, 0, 0, 0, 0, 0, true, EMPTY, {})
  }

  /** In `start`. */
  function InStart(w: Store): Regs {
    Regs(map[0 := RUN_FRAME.(pc := 3), 1 := START_FRAME], map[0 := Four(SENT, Nil, Nil), 1 := EMPTY_STACK],
         w, 2, 1, 1, 0, 1, 0, true, Fresh([SELF], Nil), {})
  }

  /** In `make`. */
  function InMake(w: Store): Regs {
    Regs(map[0 := RUN_FRAME.(pc := 3), 1 := START_FRAME.(pc := 3), 2 := MAKE_FRAME],
         map[0 := Four(SENT, Nil, Nil), 1 := Four(SENT, Nil, Nil), 2 := EMPTY_STACK],
         w, 3, 2, 2, 0, 2, 0, true, Fresh([SELF], Nil), {})
  }

  lemma {:induction false} RunToStart(w: Store)
    ensures Looping(STRAYING, Going(At(InRun(w), EMPTY_STACK, 0, 0)), 3) == Going(At(InStart(w), EMPTY_STACK, 0, 0))
  {
    RunDecodes();
    hide Looping, Decode, Stepping;
    var k, r, s := STRAYING, InRun(w), Four(SENT, Nil, Nil);
    Marks(k, r, SELF);
    assert r.(spare := r.spare.(arguments := None)) == r;
    SendAt(k, r, s, 1, 2, 0, 1, Some(0));
    CalledStart(w);
    Then(k, Going(At(r, EMPTY_STACK, 0, 0)), 2, At(r, s, 1, 2), Going(At(InStart(w), EMPTY_STACK, 0, 0)));
  }

  lemma {:induction false} CalledStart(w: Store)
    ensures Called(STRAYING, At(InRun(w), Four(SENT, Nil, Nil), 0, 3).(spare := EMPTY.(literals := Some(0))), 1, [SELF], NO_TEMPORARIES, w, Some(0)) ==
            At(InStart(w), EMPTY_STACK, 0, 0)
  {
    EmptyStack();
    hide Blank, Four;
    var c := Called(STRAYING, At(InRun(w), Four(SENT, Nil, Nil), 0, 3).(spare := EMPTY.(literals := Some(0))), 1, [SELF], NO_TEMPORARIES, w, Some(0));
    var d := At(InStart(w), EMPTY_STACK, 0, 0);
    assert c.frames == d.frames && c.stacks == d.stacks;
  }

  lemma {:induction false} StartToMake(w: Store)
    ensures Looping(STRAYING, Going(At(InStart(w), EMPTY_STACK, 0, 0)), 3) == Going(At(InMake(w), EMPTY_STACK, 0, 0))
  {
    StartDecodes();
    hide Looping, Decode, Stepping;
    var k, r, s := STRAYING, InStart(w), Four(SENT, Nil, Nil);
    var q := r.(spare := r.spare.(arguments := None));
    Marks(k, r, SELF);
    SendAt(k, q, s, 1, 2, 0, 2, Some(1));
    CalledMake(w, q.spare.(literals := Some(1)));
    Then(k, Going(At(r, EMPTY_STACK, 0, 0)), 2, At(q, s, 1, 2), Going(At(InMake(w), EMPTY_STACK, 0, 0)));
  }

  lemma {:induction false} CalledMake(w: Store, spare: Spare)
    requires spare.returnedValue == Nil
    ensures Called(STRAYING, At(InStart(w), Four(SENT, Nil, Nil), 0, 3).(spare := spare), 2, [SELF], NO_TEMPORARIES, w, Some(1)) ==
            At(InMake(w), EMPTY_STACK, 0, 0)
  {
    EmptyStack();
    hide Blank, Four;
    var c := Called(STRAYING, At(InStart(w), Four(SENT, Nil, Nil), 0, 3).(spare := spare), 2, [SELF], NO_TEMPORARIES, w, Some(1));
    var d := At(InMake(w), EMPTY_STACK, 0, 0);
    assert c.frames == d.frames && c.stacks == d.stacks;
  }

  /** In `make`, with the block. */
  function WithBlock(w: Store): Regs {
    Regs(map[0 := RUN_FRAME.(pc := 3), 1 := START_FRAME.(pc := 3), 2 := MAKE_FRAME, 3 := BLOCK_FRAME],
         map[0 := Four(SENT, Nil, Nil), 1 := Four(SENT, Nil, Nil), 2 := EMPTY_STACK, 3 := EMPTY_STACK],
         w, 4, 2, 2, 0, 2, 0, true, Fresh([SELF], BLOCK), {3})
  }

  /** Back in `start`, with the block. */
  function Made(w: Store): Regs {
    Regs(map[0 := RUN_FRAME.(pc := 3), 1 := START_FRAME.(pc := 3), 2 := MAKE_FRAME, 3 := BLOCK_FRAME],
         map[0 := Four(SENT, Nil, Nil), 1 := Four(SENT, Nil, Nil), 2 := Four(BLOCK, Nil, Nil), 3 := EMPTY_STACK],
         w, 4, 1, 1, 0, 1, 0, true, Back(BLOCK), {2, 3})
  }

  lemma {:induction false} MakesBlock(w: Store)
    ensures Stepping(STRAYING, At(InMake(w), EMPTY_STACK, 0, 0)) == Going(At(WithBlock(w), Four(BLOCK, Nil, Nil), 1, 6))
  {
    MakeDecodes();
    EmptyStack();
    hide Decode, Blank;
    var r := At(InMake(w), EMPTY_STACK, 0, 0);
    var b := Blocked(STRAYING, r.(bytePointer := 3), 0).(bytePointer := 6);
    assert Stepping(STRAYING, r) == Pushing(b, BLOCK);
    var d := At(WithBlock(w), Four(BLOCK, Nil, Nil), 1, 6);
    assert b.frames == d.frames && b.left == d.left;
    assert b.stacks[2][0 := BLOCK] == Four(BLOCK, Nil, Nil);
    assert Pushed(b, BLOCK).stacks == d.stacks;
  }

  lemma {:induction false} MakeReturns(w: Store)
    ensures Stepping(STRAYING, At(WithBlock(w), Four(BLOCK, Nil, Nil), 1, 6)) == Going(At(Made(w), Four(BLOCK, Nil, Nil), 1, 3))
  {
    MakeDecodes();
    hide Stepping, Decode;
    var b, q, s := WithBlock(w), Made(w), Four(BLOCK, Nil, Nil);
    ReturnAt(STRAYING, b, s, 1, 6, StackReturn, 1, Four(SENT, Nil, Nil));
    assert Four(SENT, Nil, Nil)[0 := BLOCK] == s && s[0] == BLOCK;
    hide Four;
    assert b.stacks[2 := s] == q.stacks && b.left + {2} - {1} == q.left;
  }

  /** In `yourself`. */
  function InYourself(w: Store): Regs {
    Regs(map[0 := RUN_FRAME.(pc := 3), 1 := START_FRAME.(top := 1, pc := 6), 2 := MAKE_FRAME, 3 := BLOCK_FRAME, 4 := YOURSELF_FRAME],
         map[0 := Four(SENT, Nil, Nil), 1 := Four(BLOCK, BLOCK_SENT, Nil), 2 := Four(BLOCK, Nil, Nil), 3 := EMPTY_STACK, 4 := EMPTY_STACK],
         w, 5, 4, 4, 0, 4, 0, true, Fresh([BLOCK], BLOCK), {2, 3})
  }

  /** Back in `start`, for good, which has last saved pc. */
  function Cascaded(w: Store, pc: nat, v: Value): Regs {
    Regs(map[0 := RUN_FRAME.(pc := 3), 1 := START_FRAME.(top := 1, pc := pc), 2 := MAKE_FRAME, 3 := BLOCK_FRAME, 4 := YOURSELF_FRAME],
         map[0 := Four(SENT, Nil, Nil), 1 := Four(BLOCK, BLOCK_SENT, Nil), 2 := Four(BLOCK, Nil, Nil), 3 := EMPTY_STACK, 4 := Four(BLOCK, Nil, Nil)],
         w, 5, 1, 1, 0, 1, 0, true, Back(v), {2, 3, 4})
  }

  lemma {:induction false} MapFive<T(!new)>(a: T, b: T, c: T, d: T, b': T, e: T)
    ensures var m: map<nat, T> := map[0 := a, 1 := b, 2 := c, 3 := d];
            m[1 := b'][4 := e] == map[0 := a, 1 := b', 2 := c, 3 := d, 4 := e]
  {}

  lemma {:induction false} CalledYourself(w: Store, spare: Spare)
    requires spare.returnedValue == BLOCK
    ensures Called(STRAYING, At(Made(w), Four(BLOCK, BLOCK_SENT, Nil), 1, 6).(spare := spare), 4, [BLOCK], NO_TEMPORARIES, w, Some(1)) ==
            At(InYourself(w), EMPTY_STACK, 0, 0)
  {
    EmptyStack();
    hide Blank, Four;
    MapFive(RUN_FRAME.(pc := 3), START_FRAME.(pc := 3), MAKE_FRAME, BLOCK_FRAME, START_FRAME.(top := 1, pc := 6), YOURSELF_FRAME);
    MapFive(Four(SENT, Nil, Nil), Four(SENT, Nil, Nil), Four(BLOCK, Nil, Nil), EMPTY_STACK, Four(BLOCK, BLOCK_SENT, Nil), EMPTY_STACK);
    assert At(InYourself(w), EMPTY_STACK, 0, 0).stacks == InYourself(w).stacks;
  }

  lemma {:induction false} MarksAgain(w: Store)
    ensures var k, r, s, s1, s2 := STRAYING, Made(w), Four(BLOCK, Nil, Nil), Four(BLOCK, BLOCK, Nil), Four(BLOCK, BLOCK_SENT, Nil);
            Stepping(k, At(r, s, 1, 3)) == Going(At(r, s1, 2, 4)) && Stepping(k, At(r, s1, 2, 4)) == Going(At(r, s2, 2, 5))
  {
    StartDecodes();
    hide Decode, Stepping;
    var k, r, s, s1, s2 := STRAYING, Made(w), Four(BLOCK, Nil, Nil), Four(BLOCK, BLOCK, Nil), Four(BLOCK, BLOCK_SENT, Nil);
    assert s[1 := BLOCK] == s1 && s1[1 := BLOCK_SENT] == s2;
    DuplicateAt(k, r, s, 1, 3);
    MarkAt(k, r, s1, 2, 4);
    assert Holding(r, BLOCK) == r && r.(spare := r.spare.(arguments := None)) == r;
  }

  lemma {:induction false} SendsYourself(w: Store)
    ensures Looping(STRAYING, Going(At(Made(w), Four(BLOCK, Nil, Nil), 1, 3)), 3) == Going(At(InYourself(w), EMPTY_STACK, 0, 0))
  {
    StartDecodes();
    hide Looping, Decode, Stepping;
    var k, r, s, s1, s2 := STRAYING, Made(w), Four(BLOCK, Nil, Nil), Four(BLOCK, BLOCK, Nil), Four(BLOCK, BLOCK_SENT, Nil);
    var o := Going(At(r, s, 1, 3));
    MarksAgain(w);
    SendAt(k, r, s2, 2, 5, 1, 4, Some(1));
    CalledYourself(w, r.spare.(literals := Some(1)));
    hide Made, InYourself, Four, At, Called;
    Start(k, o.r);
    Then(k, o, 0, o.r, Going(At(r, s1, 2, 4)));
    Then(k, o, 1, At(r, s1, 2, 4), Going(At(r, s2, 2, 5)));
    Then(k, o, 2, At(r, s2, 2, 5), Going(At(InYourself(w), EMPTY_STACK, 0, 0)));
  }

  lemma {:induction false} YourselfReturns(w: Store)
    ensures Stepping(STRAYING, At(InYourself(w), EMPTY_STACK, 0, 0)) == Going(At(InYourself(w), Four(BLOCK, Nil, Nil), 1, 1))
    ensures Stepping(STRAYING, At(InYourself(w), Four(BLOCK, Nil, Nil), 1, 1)) == Going(At(Cascaded(w, 6, BLOCK), Four(BLOCK, BLOCK, Nil), 2, 6))
  {
    ValueDecodes();
    hide Stepping, Decode;
    var k, r, q, s := STRAYING, InYourself(w), Cascaded(w, 6, BLOCK), Four(BLOCK, Nil, Nil);
    ArgumentAt(k, r, EMPTY_STACK, 0, 0, 0);
    assert EMPTY_STACK[0 := BLOCK] == s && WithArguments(r) == r;
    ReturnAt(k, r, s, 1, 1, StackReturn, 1, Four(BLOCK, BLOCK_SENT, Nil));
    assert Four(BLOCK, BLOCK_SENT, Nil)[1 := BLOCK] == Four(BLOCK, BLOCK, Nil);
    hide Four;
    assert r.stacks[4 := s] == q.stacks && r.left + {4} - {1} == q.left;
  }

  lemma {:induction false} Begins(w: Store)
    ensures Looping(STRAYING, Going(At(InRun(w), EMPTY_STACK, 0, 0)), 14) == Going(At(Cascaded(w, 6, BLOCK), Four(BLOCK, BLOCK, Nil), 1, 7))
  {
    hide Looping, Decode, Stepping, At, InRun, InStart, InMake, InYourself, Made, WithBlock, Four;
    var k, o, s, c := STRAYING, Going(At(InRun(w), EMPTY_STACK, 0, 0)), Four(BLOCK, Nil, Nil), Cascaded(w, 6, BLOCK);
    RunToStart(w);
    StartToMake(w);
    LoopingAdd(k, o, 3, 3);
    MakesBlock(w);
    MakeReturns(w);
    Then(k, o, 6, At(InMake(w), EMPTY_STACK, 0, 0), Going(At(WithBlock(w), s, 1, 6)));
    Then(k, o, 7, At(WithBlock(w), s, 1, 6), Going(At(Made(w), s, 1, 3)));
    SendsYourself(w);
    LoopingAdd(k, o, 8, 3);
    YourselfReturns(w);
    Then(k, o, 11, At(InYourself(w), EMPTY_STACK, 0, 0), Going(At(InYourself(w), s, 1, 1)));
    Then(k, o, 12, At(InYourself(w), s, 1, 1), Going(At(c, Four(BLOCK, BLOCK, Nil), 2, 6)));
    PopsYourself(w);
    Then(k, o, 13, At(c, Four(BLOCK, BLOCK, Nil), 2, 6), Going(At(c, Four(BLOCK, BLOCK, Nil), 1, 7)));
  }

  lemma {:induction false} PopsYourself(w: Store)
    ensures var c, s := Cascaded(w, 6, BLOCK), Four(BLOCK, BLOCK, Nil); Stepping(STRAYING, At(c, s, 2, 6)) == Going(At(c, s, 1, 7))
  {
    StartDecodes();
    hide Decode, Stepping;
    PopAt(STRAYING, Cascaded(w, 6, BLOCK), Four(BLOCK, BLOCK, Nil), 2, 6);
  }

  // ---- From the end of `start` to `start` again ------------------------------------------------------

  /** In `run`, with the block that `start` has returned. */
  function BackInRun(w: Store, pc: nat): Regs {
    Regs(map[0 := RUN_FRAME.(pc := 3), 1 := START_FRAME.(top := 1, pc := pc), 2 := MAKE_FRAME, 3 := BLOCK_FRAME, 4 := YOURSELF_FRAME],
         map[0 := Four(SENT, Nil, Nil), 1 := Four(BLOCK, BLOCK, Nil), 2 := Four(BLOCK, Nil, Nil), 3 := EMPTY_STACK, 4 := Four(BLOCK, Nil, Nil)],
         w, 5, 0, 0, 0, 0, 0, true, Back(BLOCK), {1, 2, 3, 4})
  }

  lemma {:induction false} StartReturns(w: Store, pc: nat, v: Value)
    ensures Stepping(STRAYING, At(Cascaded(w, pc, v), Four(BLOCK, BLOCK, Nil), 1, 7)) == Going(At(BackInRun(w, pc), Four(BLOCK, Nil, Nil), 1, 3))
  {
    StartDecodes();
    hide Stepping, Decode;
    var b, q, s := Cascaded(w, pc, v), BackInRun(w, pc), Four(BLOCK, BLOCK, Nil);
    ReturnAt(STRAYING, b, s, 1, 7, StackReturn, 0, Four(SENT, Nil, Nil));
    assert Four(SENT, Nil, Nil)[0 := BLOCK] == Four(BLOCK, Nil, Nil) && s[0] == BLOCK;
    hide Four;
    assert b.stacks[1 := s] == q.stacks;
    assert b.left + {1} - {0} == q.left;
  }

  /** In `value`; there is nothing left to do for `run`. */
  function InValue(w: Store, pc: nat): Regs {
    Regs(map[0 := RUN_FRAME.(pc := 5), 1 := START_FRAME.(top := 1, pc := pc), 2 := MAKE_FRAME, 3 := BLOCK_FRAME, 4 := YOURSELF_FRAME, 5 := VALUE_FRAME],
         map[0 := Four(BLOCK_SENT, Nil, Nil), 1 := Four(BLOCK, BLOCK, Nil), 2 := Four(BLOCK, Nil, Nil), 3 := EMPTY_STACK, 4 := Four(BLOCK, Nil, Nil), 5 := EMPTY_STACK],
         w, 6, 5, 3, 0, 5, 0, true, Fresh([BLOCK], BLOCK), {1, 2, 3, 4})
  }

  lemma {:induction false} MapSix<T(!new)>(a: T, b: T, c: T, d: T, e: T, a': T, f: T)
    ensures var m: map<nat, T> := map[0 := a, 1 := b, 2 := c, 3 := d, 4 := e];
            m[0 := a'][5 := f] == map[0 := a', 1 := b, 2 := c, 3 := d, 4 := e, 5 := f]
  {}

  lemma {:induction false} CalledValue(w: Store, pc: nat, spare: Spare)
    requires spare.returnedValue == BLOCK
    ensures Called(STRAYING, At(BackInRun(w, pc), Four(BLOCK_SENT, Nil, Nil), 0, 5).(spare := spare), 3, [BLOCK], NO_TEMPORARIES, w, None) ==
            At(InValue(w, pc), EMPTY_STACK, 0, 0)
  {
    EmptyStack();
    hide Blank, Four;
    MapSix(RUN_FRAME.(pc := 3), START_FRAME.(top := 1, pc := pc), MAKE_FRAME, BLOCK_FRAME, YOURSELF_FRAME, RUN_FRAME.(pc := 5), VALUE_FRAME);
    MapSix(Four(SENT, Nil, Nil), Four(BLOCK, BLOCK, Nil), Four(BLOCK, Nil, Nil), EMPTY_STACK, Four(BLOCK, Nil, Nil), Four(BLOCK_SENT, Nil, Nil), EMPTY_STACK);
    assert At(InValue(w, pc), EMPTY_STACK, 0, 0).stacks == InValue(w, pc).stacks;
  }

  lemma {:induction false} SendsValue(w: Store, pc: nat)
    ensures var r := BackInRun(w, pc); Stepping(STRAYING, At(r, Four(BLOCK, Nil, Nil), 1, 3)) == Going(At(r, Four(BLOCK_SENT, Nil, Nil), 1, 4))
    ensures Stepping(STRAYING, At(BackInRun(w, pc), Four(BLOCK_SENT, Nil, Nil), 1, 4)) == Going(At(InValue(w, pc), EMPTY_STACK, 0, 0))
  {
    RunDecodes();
    hide Decode, Stepping, Blank;
    var k, r, s := STRAYING, BackInRun(w, pc), Four(BLOCK, Nil, Nil);
    MarkAt(k, r, s, 1, 3);
    assert r.(spare := r.spare.(arguments := None)) == r;
    assert s[0 := BLOCK_SENT] == Four(BLOCK_SENT, Nil, Nil);
    SendAt(k, r, Four(BLOCK_SENT, Nil, Nil), 1, 4, 1, 3, None);
    CalledValue(w, pc, r.spare.(literals := Some(0)));
  }

  /** In the block. */
  function InBlock(w: Store, pc: nat): Regs {
    Regs(map[0 := RUN_FRAME.(pc := 5), 1 := START_FRAME.(top := 1, pc := pc), 2 := MAKE_FRAME, 3 := BLOCK_FRAME, 4 := YOURSELF_FRAME, 5 := VALUE_FRAME],
         map[0 := Four(BLOCK_SENT, Nil, Nil), 1 := Four(BLOCK, BLOCK, Nil), 2 := Four(BLOCK, Nil, Nil), 3 := EMPTY_STACK, 4 := Four(BLOCK, Nil, Nil), 5 := Four(BLOCK, Nil, Nil)],
         w, 6, 3, 2, 0, 3, 0, true, Spare(None, Some(NO_TEMPORARIES), None, None, BLOCK), {1, 2, 4, 5})
  }

  lemma {:induction false} RunsBlock(w: Store, pc: nat)
    ensures Stepping(STRAYING, At(InValue(w, pc), EMPTY_STACK, 0, 0)) == Going(At(InValue(w, pc), Four(BLOCK, Nil, Nil), 1, 1))
    ensures Stepping(STRAYING, At(InValue(w, pc), Four(BLOCK, Nil, Nil), 1, 1)) == Going(At(InBlock(w, pc), EMPTY_STACK, 0, 3))
  {
    ValueDecodes();
    hide Decode;
    var k, r, s := STRAYING, InValue(w, pc), Four(BLOCK, Nil, Nil);
    var q := At(r, s, 1, 1).(bytePointer := 3);
    assert TopValues(q, 1) == [BLOCK];
    hide TopValues;
    assert Stepping(k, At(r, s, 1, 1)) == Going(Invoked(q, 3, w));
    hide Stepping;
    ArgumentAt(k, r, EMPTY_STACK, 0, 0, 0);
    assert EMPTY_STACK[0 := BLOCK] == s && WithArguments(r) == r;
    BlockInvoked(w, pc);
  }

  lemma {:induction false} BlockInvoked(w: Store, pc: nat)
    ensures Invoked(At(InValue(w, pc), Four(BLOCK, Nil, Nil), 1, 3), 3, w) == At(InBlock(w, pc), EMPTY_STACK, 0, 3)
  {
    hide Four;
    var q, d := Invoked(At(InValue(w, pc), Four(BLOCK, Nil, Nil), 1, 3), 3, w), At(InBlock(w, pc), EMPTY_STACK, 0, 3);
    assert q.frames == d.frames && q.left == d.left && q.stacks == d.stacks;
  }

  /** In `start` again, when it has returned already. */
  function Astray(w: Store, pc: nat): Regs {
    Regs(map[0 := RUN_FRAME.(pc := 5), 1 := START_FRAME.(top := 1, pc := pc), 2 := MAKE_FRAME, 3 := BLOCK_FRAME, 4 := YOURSELF_FRAME, 5 := VALUE_FRAME],
         map[0 := Four(BLOCK_SENT, Nil, Nil), 1 := Four(BLOCK, BLOCK, Nil), 2 := Four(BLOCK, Nil, Nil), 3 := Four(True, Nil, Nil), 4 := Four(BLOCK, Nil, Nil), 5 := Four(BLOCK, Nil, Nil)],
         w, 6, 1, 1, 0, 1, 0, true, Back(True), {2, 3, 4, 5})
  }

  lemma {:induction false} BlockAnswers(w: Store, pc: nat)
    ensures Stepping(STRAYING, At(InBlock(w, pc), EMPTY_STACK, 0, 3)) == Going(At(InBlock(w, pc), Four(True, Nil, Nil), 1, 4))
  {
    MakeDecodes();
    hide Decode, Stepping;
    ConstantAt(STRAYING, InBlock(w, pc), EMPTY_STACK, 0, 3, TRUE_CONST);
    assert EMPTY_STACK[0 := Constant(TRUE_CONST)] == Four(True, Nil, Nil);
  }

  lemma {:induction false} BlockStrays(w: Store, pc: nat)
    ensures Stepping(STRAYING, At(InBlock(w, pc), Four(True, Nil, Nil), 1, 4)) == Going(At(Astray(w, pc), Four(BLOCK, True, Nil), 2, pc))
  {
    MakeDecodes();
    hide Stepping, Decode;
    var b, q, s := InBlock(w, pc), Astray(w, pc), Four(True, Nil, Nil);
    ReturnAt(STRAYING, b, s, 1, 4, BlockReturn, 1, Four(BLOCK, BLOCK, Nil));
    assert Four(BLOCK, BLOCK, Nil)[1 := True] == Four(BLOCK, True, Nil) && s[0] == True;
    hide Four;
    assert b.stacks[3 := s] == q.stacks && b.left + {3} - {1} == q.left;
  }

  /** From `start` having its block, to `start` again. */
  lemma {:induction false} GoesAstray(w: Store, pc: nat, v: Value)
    ensures Looping(STRAYING, Going(At(Cascaded(w, pc, v), Four(BLOCK, BLOCK, Nil), 1, 7)), 7) == Going(At(Astray(w, pc), Four(BLOCK, True, Nil), 2, pc))
  {
    hide Looping, Decode, Stepping, At, Cascaded, BackInRun, InValue, InBlock, Astray, Four;
    var k, o, s, in_, run := STRAYING, Going(At(Cascaded(w, pc, v), Four(BLOCK, BLOCK, Nil), 1, 7)), Four(BLOCK, Nil, Nil), InValue(w, pc), BackInRun(w, pc);
    StartReturns(w, pc, v);
    SendsValue(w, pc);
    RunsBlock(w, pc);
    BlockAnswers(w, pc);
    BlockStrays(w, pc);
    Start(k, o.r);
    Then(k, o, 0, o.r, Going(At(run, s, 1, 3)));
    Then(k, o, 1, At(run, s, 1, 3), Going(At(run, Four(BLOCK_SENT, Nil, Nil), 1, 4)));
    Then(k, o, 2, At(run, Four(BLOCK_SENT, Nil, Nil), 1, 4), Going(At(in_, EMPTY_STACK, 0, 0)));
    Then(k, o, 3, At(in_, EMPTY_STACK, 0, 0), Going(At(in_, s, 1, 1)));
    Then(k, o, 4, At(in_, s, 1, 1), Going(At(InBlock(w, pc), EMPTY_STACK, 0, 3)));
    Then(k, o, 5, At(InBlock(w, pc), EMPTY_STACK, 0, 3), Going(At(InBlock(w, pc), Four(True, Nil, Nil), 1, 4)));
    Then(k, o, 6, At(InBlock(w, pc), Four(True, Nil, Nil), 1, 4), Going(At(Astray(w, pc), Four(BLOCK, True, Nil), 2, pc)));
  }

  // ---- The end ---------------------------------------------------------------------------------------

  /** In `run` again, which has nothing to do but to answer what it is given. */
  function Returned(w: Store, pc: nat, v: Value): Regs {
    var r := Astray(w, pc);
    r.(context := 0, method_ := 0, stack := 0, stacks := r.stacks[1 := Four(BLOCK, True, Nil)], spare := Back(v), left := {1, 2, 3, 4, 5})
  }

  lemma {:induction false} Ends(w: Store, pc: nat, height: nat, v: Value)
    requires 0 < height <= 4 && v == Four(BLOCK, True, Nil)[height - 1]
    ensures var o := Looping(STRAYING, Going(At(Astray(w, pc), Four(BLOCK, True, Nil), height, 7)), 2); o.Over? && o.v == v
  {
    var k, r, s, q := STRAYING, Astray(w, pc), Four(BLOCK, True, Nil), Returned(w, pc, v);
    StartDecodes();
    RunDecodes();
    hide Decode, Stepping, Looping;
    ReturnAt(k, r, s, height, 7, StackReturn, 0, Four(BLOCK_SENT, Nil, Nil));
    assert r.left + {1} - {0} == q.left;
    var t := Four(BLOCK_SENT, Nil, Nil)[0 := v];
    EndAt(k, q, t, 1, 5);
    var o := Going(At(r, s, height, 7));
    Start(k, o.r);
    Then(k, o, 0, o.r, Going(At(q, t, 1, 5)));
    Then(k, o, 1, At(q, t, 1, 5), Stepping(k, At(q, t, 1, 5)));
  }

  /** If nothing was saved in `start` since its last send, it goes on right after that. */
  lemma {:induction false} WholeEnd(w: Store)
    ensures var o := Looping(STRAYING, Going(At(Cascaded(w, 6, BLOCK), Four(BLOCK, BLOCK, Nil), 1, 7)), 10); o.Over? && o.v == BLOCK
  {
    hide Looping, Stepping, At, Cascaded, Astray;
    var k, o, r, s := STRAYING, Going(At(Cascaded(w, 6, BLOCK), Four(BLOCK, BLOCK, Nil), 1, 7)), Astray(w, 6), Four(BLOCK, True, Nil);
    GoesAstray(w, 6, BLOCK);
    PopsTrue(w);
    Then(k, o, 7, At(r, s, 2, 6), Going(At(r, s, 1, 7)));
    Ends(w, 6, 1, BLOCK);
    LoopingAdd(k, o, 8, 2);
  }

  lemma {:induction false} PopsTrue(w: Store)
    ensures var r, s := Astray(w, 6), Four(BLOCK, True, Nil); Stepping(STRAYING, At(r, s, 2, 6)) == Going(At(r, s, 1, 7))
  {
    StartDecodes();
    hide Decode, Stepping;
    PopAt(STRAYING, Astray(w, 6), Four(BLOCK, True, Nil), 2, 6);
  }

  /** If it was suspended after that, it goes on from there, above the value it had then. */
  lemma {:induction false} CutEnd(w: Store)
    ensures var o := Looping(STRAYING, Going(At(Cascaded(w, 7, Nil), Four(BLOCK, BLOCK, Nil), 1, 7)), 10); o.Over? && o.v == True
  {
    hide Looping, Stepping, At, Cascaded, Astray;
    var k, o := STRAYING, Going(At(Cascaded(w, 7, Nil), Four(BLOCK, BLOCK, Nil), 1, 7));
    GoesAstray(w, 7, Nil);
    Ends(w, 7, 2, True);
    LoopingAdd(k, o, 7, 2);
    Stays(k, o, 9);
  }

  lemma {:induction false} CutHere(w: Store)
    ensures var r := At(Cascaded(w, 6, BLOCK), Four(BLOCK, BLOCK, Nil), 1, 7);
            r.context in r.frames && Resumed(r) == At(Cascaded(w, 7, Nil), Four(BLOCK, BLOCK, Nil), 1, 7)
  {
    var r := At(Cascaded(w, 6, BLOCK), Four(BLOCK, BLOCK, Nil), 1, 7);
    assert Resumed(r).frames == Cascaded(w, 7, Nil).frames;
  }

  function Strayer(w: Store): Process {
    Waiting(0, InRun(w).(loaded := false))
  }

  lemma {:induction false} StrayerReady(w: Store)
    ensures Ready(STRAYING, Strayer(w)) && Loaded(Strayer(w).r, 0) == At(InRun(w), EMPTY_STACK, 0, 0)
  {
    assert At(InRun(w), EMPTY_STACK, 0, 0).stacks == InRun(w).stacks;
  }

  lemma {:induction false} RunBothWays(w: Store)
    ensures Steps([25]) == Steps([15, 11]) == 24
    ensures var one := Slices(STRAYING, Strayer(w), [25]); one.Finished? && one.v == BLOCK
    ensures var other := Slices(STRAYING, Strayer(w), [15, 11]); other.Finished? && other.v == True
  {
    hide Looping, At, InRun, Cascaded, Four, Loaded, Resumed, Ready, Slices, Steps;
    var k, p, mid := STRAYING, Strayer(w), At(Cascaded(w, 6, BLOCK), Four(BLOCK, BLOCK, Nil), 1, 7);
    StrayerReady(w);
    CutHere(w);
    Begins(w);
    WholeEnd(w);
    CutEnd(w);
    CutShows(k, p, At(InRun(w), EMPTY_STACK, 0, 0), 14, mid, 10, BLOCK, True);
  }

  /** The same 24 instructions: run at once the process answers the block, cut after 14 it answers true.  One run
      of the contexts alone strays, and no register shows. */
  lemma {:induction false} StrayingShows(w: Store)
    ensures Ready(STRAYING, Strayer(w)) && Steps([25]) == Steps([15, 11]) == 24
    ensures var one := Slices(STRAYING, Strayer(w), [25]); one.Finished? && one.v == BLOCK
    ensures var other := Slices(STRAYING, Strayer(w), [15, 11]); other.Finished? && other.v == True
    ensures RegistersHidden(STRAYING, StateIn(Strayer(w)), 24) && Run(STRAYING, true, StateIn(Strayer(w)), 24).Strayed?
  {
    hide Strayer, Ready, Slices, Run, RegistersHidden, StateIn, Steps, Loaded;
    var k, p := STRAYING, Strayer(w);
    StrayerReady(w);
    RunBothWays(w);
    NeverShows(StateIn(p), 24);
    if !Run(k, true, StateIn(p), 24).Strayed? {
      SlicingsAgree(k, p, [25], [15, 11]);
      FinishedValue(Slices(k, p, [25]), Slices(k, p, [15, 11]));
    }
  }

  lemma {:induction false} FinishedValue(p: Process, q: Process)
    requires p.Finished? && q.Finished? && StateIn(p) == StateIn(q)
    ensures p.v == q.v
  {
    hide Abs;
  }

  /** No block is refused, no primitive of the library fails, and none flushes the method cache. */
  lemma {:induction false} NeverShows(s: State, n: nat)
    ensures RegistersHidden(STRAYING, s, n)
  {
    hide Run, Decode, Topmost, BlockArguments;
    forall j: nat | j < n ensures !RegisterShows(STRAYING, Run(STRAYING, true, s, j)) {
      var t := Run(STRAYING, true, s, j);
      if t.Running? && t.cur in t.vm.contexts {
        NoFlush(t.vm.contexts[t.cur].method_, t.vm.contexts[t.cur].pc);
      }
    }
  }

  lemma {:induction false} NoFlush(m: nat, pc: nat)
    ensures var d := Decode(STRAYING.bytes(m), pc); d.Decoded? && d.instr.DoPrimitive? ==> d.instr.number != FLUSH_CACHE
  {
    assert forall b | b in STRAYING.bytes(m) :: b != 34;
  }
}
