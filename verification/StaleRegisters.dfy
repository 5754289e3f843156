/** Three processes for which it matters how a run is cut into slices, as a primitive leaves something in a register
    that is not the context's, or answers what it finds in one: a tick clears the register. */
module StaleRegisters {
  import opened Bytes
  import opened Options
  import opened Bytecode
  import opened Syntax
  import opened Values
  import opened Contexts
  import opened Registers
  import opened Loop
  import opened Slicing
  import opened Tracing
  import opened Samples

  const A_BLOCK := Object(1)

  /** The temporaries of a context are an array with room for one, in which is its own number. */
  const PLAIN: Kernel :=
    Kernel(
      m => [],
      (m, n) => Nil,
      m => 4,
      (w, v, n) => Nil,
      (w, v, n, x) => w,
      (w, t, n) => SmallInt(t),
      (w, t, n, x) => w,
      (w, m) => (NO_TEMPORARIES, w),
      (w, from, rcv, selector) => None,
      (w, n, vs) => if n == FLUSH_CACHE then Done(Nil, w) else LibraryFailed(w),
      (w, t, n, vs) => if n + |vs| > 1 then None else Some(w),
      Nil)

  const FAILING := PLAIN.(bytes := m => FAILS)
  const REFUSING := PLAIN.(bytes := m => PROBE)
  const FLUSHING := PLAIN.(bytes := m => FLUSH)

  lemma {:induction false} AsCompiled()
    ensures Compiles(FAILS_SOURCE, FAILING.bytes(0), []) && Compiles(PROBE_SOURCE, REFUSING.bytes(0), []) && Compiles(FLUSH_SOURCE, FLUSHING.bytes(0), [])
  {
    hide Compiles;
    FailsCompiled();
    ProbeCompiled();
    FlushCompiled();
  }

  /** The method's context, and a block of another one, which has returned. */
  const PROBE_FRAME := Frame(0, [SELF, A_BLOCK], 1, 0, 0, 0, None, None, 0, 0)
  const BLOCK_FRAME := Frame(1, [SELF], 2, 3, 0, 0, None, Some(2), 1, 3)
  const HOME_FRAME := Frame(1, [SELF], 2, 4, 0, 0, None, None, 0, 0)

  /** At the start. */
  function Begin(w: Store): Regs {
    Regs(map[0 := PROBE_FRAME, 1 := BLOCK_FRAME, 2 := HOME_FRAME], map[0 := EMPTY_STACK, 3 := EMPTY_STACK, 4 := EMPTY_STACK],
         w, 5, 0, 0, 0, 0, 0, true, EMPTY, {1, 2})
  }

  function Probe(w: Store): Process {
    Waiting(0, Begin(w).(loaded := false))
  }

  lemma {:induction false} ProbeReady(k: Kernel, w: Store)
    requires k.stackSize == PLAIN.stackSize
    ensures Ready(k, Probe(w)) && Probe(w).Waiting? && Probe(w).context == 0 && 0 in Probe(w).r.frames
    ensures Loaded(Probe(w).r, 0) == At(Begin(w), EMPTY_STACK, 0, 0)
  {
    assert At(Begin(w), EMPTY_STACK, 0, 0).stacks == Begin(w).stacks;
  }

  /** Something has been left in the spare registers. */
  function Spared(w: Store, spare: Spare): Regs {
    Begin(w).(spare := spare)
  }

  /** A tick has come. */
  function Ticked(w: Store, top: nat, pc: nat): Regs {
    Begin(w).(frames := map[0 := PROBE_FRAME.(top := top, pc := pc), 1 := BLOCK_FRAME, 2 := HOME_FRAME])
  }

  lemma {:induction false} ResumedHere(w: Store, spare: Spare, s: seq<Value>, top: nat, pc: nat)
    ensures var r := At(Spared(w, spare), s, top, pc); r.context in r.frames && Resumed(r) == At(Ticked(w, top, pc), s, top, pc)
  {
    assert Resumed(At(Spared(w, spare), s, top, pc)).frames == Ticked(w, top, pc).frames;
  }

  /** Registers that are in the method's context, which returns to none. */
  ghost predicate Here(r: Regs) {
    r.context == 0 && r.method_ == 0 && 0 in r.frames && r.frames[0].previous == None
  }

  // ---- A primitive of the library fails --------------------------------------------------------------

  lemma {:induction false} FailsDecodes()
    ensures Decode(FAILS, 0) == Decoded(PushConstant(5), 1) && Decode(FAILS, 1) == Decoded(DoPrimitive(1, 99), 3)
    ensures Decode(FAILS, 3) == Decoded(PopTop, 4) && Decode(FAILS, 4) == Decoded(PushArgument(0), 5) && Decode(FAILS, 5) == Decoded(StackReturn, 6)
  {}

  /** The primitive's arguments are in the register for the arguments. */
  const ITS_ARGUMENTS := EMPTY.(arguments := Some([SmallInt(5)]))

  lemma {:induction false} PrimitiveFails(w: Store)
    ensures Stepping(FAILING, At(Begin(w), Four(SmallInt(5), Nil, Nil), 1, 1)) == Going(At(Spared(w, ITS_ARGUMENTS), EMPTY_STACK, 1, 3))
  {
    FailsDecodes();
    hide Decode;
    var s := Four(SmallInt(5), Nil, Nil);
    assert s[0..1] == [SmallInt(5)] && s[0 := Nil] == EMPTY_STACK;
  }

  lemma {:induction false} Fails(w: Store)
    ensures Looping(FAILING, Going(At(Begin(w), EMPTY_STACK, 0, 0)), 2) == Going(At(Spared(w, ITS_ARGUMENTS), EMPTY_STACK, 1, 3))
  {
    FailsDecodes();
    hide Decode, Looping, Stepping;
    var k, r, s := FAILING, Begin(w), Four(SmallInt(5), Nil, Nil);
    ConstantAt(k, r, EMPTY_STACK, 0, 0, 5);
    assert EMPTY_STACK[0 := Constant(5)] == s;
    PrimitiveFails(w);
    var o := Going(At(r, EMPTY_STACK, 0, 0));
    Start(k, o.r);
    Then(k, o, 0, o.r, Going(At(r, s, 1, 1)));
    Then(k, o, 1, At(r, s, 1, 1), Going(At(Spared(w, ITS_ARGUMENTS), EMPTY_STACK, 1, 3)));
  }

  /** What PushArgument finds is what the method answers. */
  lemma {:induction false} FailsAnswers(r: Regs, v: Value)
    requires Here(r) && ArgumentsOf(r) != [] && ArgumentsOf(r)[0] == v
    ensures var o := Looping(FAILING, Going(At(r, EMPTY_STACK, 1, 3)), 3); o.Over? && o.v == v
  {
    var k, s := FAILING, EMPTY_STACK;
    FailsDecodes();
    hide Decode, Looping, Stepping;
    PopAt(k, r, s, 1, 3);
    ArgumentAt(k, r, s, 0, 4, 0);
    var q, t := WithArguments(r), s[0 := v];
    EndAt(k, q, t, 1, 5);
    var o := Going(At(r, s, 1, 3));
    Start(k, o.r);
    Then(k, o, 0, o.r, Going(At(r, s, 0, 4)));
    Then(k, o, 1, At(r, s, 0, 4), Going(At(q, t, 1, 5)));
    Then(k, o, 2, At(q, t, 1, 5), Stepping(k, At(q, t, 1, 5)));
  }

  /** The same 5 instructions: run at once the method answers the primitive's argument instead of self. */
  lemma {:induction false} FailingShows(w: Store)
    ensures Ready(FAILING, Probe(w)) && Steps([6]) == Steps([3, 4]) == 5
    ensures var one := Slices(FAILING, Probe(w), [6]); one.Finished? && one.v == SmallInt(5)
    ensures var other := Slices(FAILING, Probe(w), [3, 4]); other.Finished? && other.v == SELF
  {
    hide Looping, Loaded, Resumed, Ready, Slices, Steps;
    ProbeReady(FAILING, w);
    Fails(w);
    FailsAnswers(Spared(w, ITS_ARGUMENTS), SmallInt(5));
    FailsAnswers(Ticked(w, 1, 3), SELF);
    ResumedHere(w, ITS_ARGUMENTS, EMPTY_STACK, 1, 3);
    hide At, Begin, Probe, Spared, Ticked, Four;
    CutShows(FAILING, Probe(w), At(Begin(w), EMPTY_STACK, 0, 0), 2, At(Spared(w, ITS_ARGUMENTS), EMPTY_STACK, 1, 3), 3, SmallInt(5), SELF);
  }

  // ---- A block is refused ----------------------------------------------------------------------------

  lemma {:induction false} ProbeDecodes()
    ensures Decode(PROBE, 0) == Decoded(PushConstant(7), 1) && Decode(PROBE, 1) == Decoded(PushArgument(1), 2)
    ensures Decode(PROBE, 2) == Decoded(DoPrimitive(2, 8), 4) && Decode(PROBE, 4) == Decoded(PopTop, 5)
    ensures Decode(PROBE, 5) == Decoded(PushTemporary(0), 6) && Decode(PROBE, 6) == Decoded(StackReturn, 7)
  {}

  const FILLED := EMPTY.(arguments := Some([SELF, A_BLOCK]))

  /** The block's temporaries are in the register for the temporaries. */
  const ITS_TEMPORARIES := FILLED.(temporaries := Some(2))

  lemma {:induction false} BlockRefused(w: Store)
    ensures Stepping(REFUSING, At(Spared(w, FILLED), Four(SmallInt(7), A_BLOCK, Nil), 2, 2)) ==
            Going(At(Spared(w, ITS_TEMPORARIES), Four(Nil, A_BLOCK, Nil), 1, 4))
  {
    ProbeDecodes();
    hide Decode;
    var s := Four(SmallInt(7), A_BLOCK, Nil);
    assert s[0..2] == [SmallInt(7), A_BLOCK] && [SmallInt(7), A_BLOCK][..1] == [SmallInt(7)] && s[0 := Nil] == Four(Nil, A_BLOCK, Nil);
  }

  lemma {:induction false} Refuses(w: Store)
    ensures Looping(REFUSING, Going(At(Begin(w), EMPTY_STACK, 0, 0)), 3) == Going(At(Spared(w, ITS_TEMPORARIES), Four(Nil, A_BLOCK, Nil), 1, 4))
  {
    ProbeDecodes();
    hide Decode, Looping, Stepping;
    var k, r, s1, s2 := REFUSING, Begin(w), Four(SmallInt(7), Nil, Nil), Four(SmallInt(7), A_BLOCK, Nil);
    ConstantAt(k, r, EMPTY_STACK, 0, 0, 7);
    ArgumentAt(k, r, s1, 1, 1, 1);
    assert EMPTY_STACK[0 := Constant(7)] == s1 && s1[1 := A_BLOCK] == s2 && WithArguments(r) == Spared(w, FILLED);
    BlockRefused(w);
    var o := Going(At(r, EMPTY_STACK, 0, 0));
    Start(k, o.r);
    hide Spared, At, Four, Begin;
    Then(k, o, 0, o.r, Going(At(r, s1, 1, 1)));
    Then(k, o, 1, At(r, s1, 1, 1), Going(At(Spared(w, FILLED), s2, 2, 2)));
    Then(k, o, 2, At(Spared(w, FILLED), s2, 2, 2), Going(At(Spared(w, ITS_TEMPORARIES), Four(Nil, A_BLOCK, Nil), 1, 4)));
  }

  /** What PushTemporary finds is what the method answers. */
  lemma {:induction false} ProbeAnswers(r: Regs, t: nat)
    requires Here(r) && TemporariesOf(r) == t
    ensures var o := Looping(REFUSING, Going(At(r, Four(Nil, A_BLOCK, Nil), 1, 4)), 3); o.Over? && o.v == SmallInt(t)
  {
    var k, s := REFUSING, Four(Nil, A_BLOCK, Nil);
    ProbeDecodes();
    hide Decode, Looping, Stepping;
    PopAt(k, r, s, 1, 4);
    TemporaryAt(k, r, s, 0, 5, 0);
    var q, u := WithTemporaries(r), s[0 := SmallInt(t)];
    EndAt(k, q, u, 1, 6);
    var o := Going(At(r, s, 1, 4));
    Start(k, o.r);
    Then(k, o, 0, o.r, Going(At(r, s, 0, 5)));
    Then(k, o, 1, At(r, s, 0, 5), Going(At(q, u, 1, 6)));
    Then(k, o, 2, At(q, u, 1, 6), Stepping(k, At(q, u, 1, 6)));
  }

  /** The same 6 instructions: run at once the method answers the block's temporary instead of its own. */
  lemma {:induction false} RefusingShows(w: Store)
    ensures Ready(REFUSING, Probe(w)) && Steps([7]) == Steps([4, 4]) == 6
    ensures var one := Slices(REFUSING, Probe(w), [7]); one.Finished? && one.v == SmallInt(2)
    ensures var other := Slices(REFUSING, Probe(w), [4, 4]); other.Finished? && other.v == SmallInt(1)
  {
    hide Looping, Loaded, Resumed, Ready, Slices, Steps;
    ProbeReady(REFUSING, w);
    Refuses(w);
    ProbeAnswers(Spared(w, ITS_TEMPORARIES), 2);
    ProbeAnswers(Ticked(w, 1, 4), 1);
    ResumedHere(w, ITS_TEMPORARIES, Four(Nil, A_BLOCK, Nil), 1, 4);
    hide At, Begin, Probe, Spared, Ticked, Four;
    CutShows(REFUSING, Probe(w), At(Begin(w), EMPTY_STACK, 0, 0), 3, At(Spared(w, ITS_TEMPORARIES), Four(Nil, A_BLOCK, Nil), 1, 4), 3, SmallInt(2), SmallInt(1));
  }

  // ---- The method cache is flushed -------------------------------------------------------------------

  lemma {:induction false} FlushDecodes()
    ensures Decode(FLUSH, 0) == Decoded(PushArgument(0), 1) && Decode(FLUSH, 1) == Decoded(SendUnary(0), 2)
    ensures Decode(FLUSH, 2) == Decoded(PopTop, 3) && Decode(FLUSH, 3) == Decoded(DoPrimitive(0, 34), 5)
  {}

  const COMPUTED := FILLED.(returnedValue := False)

  lemma {:induction false} Computes(w: Store)
    ensures Looping(FLUSHING, Going(At(Begin(w), EMPTY_STACK, 0, 0)), 2) == Going(At(Spared(w, COMPUTED), Four(False, Nil, Nil), 1, 2))
  {
    FlushDecodes();
    hide Decode, Looping, Stepping;
    var k, r, s := FLUSHING, Begin(w), Four(SELF, Nil, Nil);
    ArgumentAt(k, r, EMPTY_STACK, 0, 0, 0);
    UnaryAt(k, Spared(w, FILLED), s, 1, 1, 0);
    assert EMPTY_STACK[0 := SELF] == s && WithArguments(r) == Spared(w, FILLED) && s[0 := False] == Four(False, Nil, Nil);
    var o := Going(At(r, EMPTY_STACK, 0, 0));
    Start(k, o.r);
    Then(k, o, 0, o.r, Going(At(Spared(w, FILLED), s, 1, 1)));
    Then(k, o, 1, At(Spared(w, FILLED), s, 1, 1), Going(At(Spared(w, COMPUTED), Four(False, Nil, Nil), 1, 2)));
  }

  lemma {:induction false} FlushEnds(r: Regs, s: seq<Value>)
    requires Here(r) && |s| == 4
    ensures var o := Stepping(FLUSHING, At(r, s, 0, 3)); o.Over? && o.v == r.spare.returnedValue
  {
    FlushDecodes();
    hide Decode;
  }

  /** What the register has is what the method answers. */
  lemma {:induction false} FlushAnswers(r: Regs)
    requires Here(r)
    ensures var o := Looping(FLUSHING, Going(At(r, Four(False, Nil, Nil), 1, 2)), 2); o.Over? && o.v == r.spare.returnedValue
  {
    var k, s := FLUSHING, Four(False, Nil, Nil);
    FlushDecodes();
    hide Decode, Looping, Stepping;
    PopAt(k, r, s, 1, 2);
    FlushEnds(r, s);
    var o := Going(At(r, s, 1, 2));
    Start(k, o.r);
    Then(k, o, 0, o.r, Going(At(r, s, 0, 3)));
    Then(k, o, 1, At(r, s, 0, 3), Stepping(k, At(r, s, 0, 3)));
  }

  /** The same 4 instructions: run at once the primitive answers what the last one computed, and cut before it
      nil. */
  lemma {:induction false} FlushingShows(w: Store)
    ensures Ready(FLUSHING, Probe(w)) && Steps([5]) == Steps([3, 3]) == 4
    ensures var one := Slices(FLUSHING, Probe(w), [5]); one.Finished? && one.v == False
    ensures var other := Slices(FLUSHING, Probe(w), [3, 3]); other.Finished? && other.v == Nil
  {
    hide Looping, Loaded, Resumed, Ready, Slices, Steps;
    ProbeReady(FLUSHING, w);
    Computes(w);
    FlushAnswers(Spared(w, COMPUTED));
    FlushAnswers(Ticked(w, 1, 2));
    ResumedHere(w, COMPUTED, Four(False, Nil, Nil), 1, 2);
    hide At, Begin, Probe, Spared, Ticked, Four;
    CutShows(FLUSHING, Probe(w), At(Begin(w), EMPTY_STACK, 0, 0), 2, At(Spared(w, COMPUTED), Four(False, Nil, Nil), 1, 2), 2, False, Nil);
  }
}
