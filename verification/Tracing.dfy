/** Runs of the loop, instruction by instruction. */
module Tracing {
  import opened Bytes
  import opened Options
  import opened Bytecode
  import opened Syntax
  import opened Values
  import opened Contexts
  import opened Registers
  import opened Loop

  lemma {:induction false} LoopingAdd(k: Kernel, o: Outcome, a: nat, b: nat)
    ensures Looping(k, o, a + b) == Looping(k, Looping(k, o, a), b)
    decreases a
  {
    hide Stepping;
    if a > 0 && o.Going? {
      LoopingAdd(k, Stepping(k, o.r), a - 1, b);
    }
  }

  lemma {:induction false} Start(k: Kernel, r: Regs)
    ensures Looping(k, Going(r), 0) == Going(r)
  {}

  /** One instruction more. */
  lemma {:induction false} Then(k: Kernel, o: Outcome, n: nat, r: Regs, o': Outcome)
    requires Looping(k, o, n) == Going(r) && Stepping(k, r) == o'
    ensures Looping(k, o, n + 1) == o'
  {
    LoopingAdd(k, o, n, 1);
    assert Looping(k, o', 0) == o';
    hide Stepping;
  }

  /** A run that has ended stays as it is. */
  lemma {:induction false} Stays(k: Kernel, o: Outcome, n: nat)
    requires !Looping(k, o, n).Going?
    ensures Looping(k, o, n + 1) == Looping(k, o, n)
  {
    LoopingAdd(k, o, n, 1);
    hide Stepping;
  }

  lemma {:induction false} SliceFrom(k: Kernel, p: Process, n: nat, r: Regs)
    requires p.Waiting? && p.context in p.r.frames && Loaded(p.r, p.context) == r && n > 0
    ensures Slice(k, p, n) ==
            match Looping(k, Going(r), n - 1)
            case Going(q) => Suspended(q)
            case Over(v, q) => Finished(v, q)
            case Bad => Wrecked
  {
    hide Looping, Loaded, Suspended;
  }

  lemma {:induction false} OneSlice(k: Kernel, p: Process, n: nat)
    ensures Slices(k, p, [n]) == Slice(k, p, n)
    ensures Steps([n]) == if n == 0 then 0 else n - 1
  {
    assert [n][1..] == [];
    hide Slice;
    assert Slices(k, Slice(k, p, n), []) == Slice(k, p, n) && Steps([]) == 0;
  }

  lemma {:induction false} TwoSlices(k: Kernel, p: Process, a: nat, b: nat)
    requires a > 0 && b > 0
    ensures Slices(k, p, [a, b]) == Slice(k, Slice(k, p, a), b)
    ensures Steps([a, b]) == a + b - 2
  {
    assert [a, b][0] == a && [a, b][1..] == [b];
    hide Slice;
    OneSlice(k, Slice(k, p, a), b);
    OneSlice(k, p, b);
  }

  /** The registers after a tick. */
  function Resumed(r: Regs): Regs
    requires r.context in r.frames
  {
    Loaded(Saved(r).(loaded := false), r.context)
  }

  lemma {:induction false} ResumedIs(r: Regs)
    requires r.context in r.frames
    ensures var q := Suspended(r); q.Waiting? && q.context in q.r.frames && Loaded(q.r, q.context) == Resumed(r)
  {}

  /** The same n + m instructions: the process runs to an end at once, and to one with a tick after n of them. */
  lemma {:induction false} CutShows(k: Kernel, p: Process, start: Regs, n: nat, mid: Regs, m: nat, v: Value, cut: Value)
    requires p.Waiting? && p.context in p.r.frames && Loaded(p.r, p.context) == start
    requires Looping(k, Going(start), n) == Going(mid) && mid.context in mid.frames
    requires var o := Looping(k, Going(mid), m); o.Over? && o.v == v
    requires var o := Looping(k, Going(Resumed(mid)), m); o.Over? && o.v == cut
    ensures var one := Slices(k, p, [n + m + 1]); one.Finished? && one.v == v
    ensures var other := Slices(k, p, [n + 1, m + 1]); other.Finished? && other.v == cut
    ensures Steps([n + m + 1]) == Steps([n + 1, m + 1]) == n + m
  {
    hide Looping, Loaded, Suspended, Slice, Slices, Steps, Resumed;
    OneSlice(k, p, n + m + 1);
    TwoSlices(k, p, n + 1, m + 1);
    LoopingAdd(k, Going(start), n, m);
    ResumedIs(mid);
    SliceFrom(k, p, n + m + 1, start);
    SliceFrom(k, p, n + 1, start);
    SliceFrom(k, Suspended(mid), m + 1, Resumed(mid));
  }

  // ---- Instructions ----------------------------------------------------------------------------------

  /** A stack with room for four. */
  function Four(a: Value, b: Value, c: Value): (s: seq<Value>)
    ensures |s| == 4
  {
    [a, b, c, Nil]
  }

  const EMPTY_STACK := Four(Nil, Nil, Nil)

  /** Some receiver. */
  const SELF := SmallInt(0)

  /** The registers with these values on the current stack, at pc. */
  function At(r: Regs, s: seq<Value>, top: nat, pc: nat): Regs {
    r.(stacks := r.stacks[r.stack := s], stackTop := top, bytePointer := pc)
  }

  /** The next instruction. */
  ghost predicate Next(k: Kernel, r: Regs, pc: nat, i: Instr, size: nat) {
    r.context in r.frames && Decode(k.bytes(r.method_), pc) == Decoded(i, pc + size)
  }

  lemma {:induction false} ConstantAt(k: Kernel, r: Regs, s: seq<Value>, top: nat, pc: nat, n: nat)
    requires Next(k, r, pc, PushConstant(n), 1) && top < |s|
    ensures Stepping(k, At(r, s, top, pc)) == Going(At(r, s[top := Constant(n)], top + 1, pc + 1))
  {
    hide Decode, Constant;
  }

  lemma {:induction false} ArgumentAt(k: Kernel, r: Regs, s: seq<Value>, top: nat, pc: nat, n: nat)
    requires Next(k, r, pc, PushArgument(n), 1) && top < |s| && n < |ArgumentsOf(r)|
    ensures Stepping(k, At(r, s, top, pc)) == Going(At(WithArguments(r), s[top := ArgumentsOf(r)[n]], top + 1, pc + 1))
  {
    hide Decode;
  }

  lemma {:induction false} TemporaryAt(k: Kernel, r: Regs, s: seq<Value>, top: nat, pc: nat, n: nat)
    requires Next(k, r, pc, PushTemporary(n), 1) && top < |s|
    ensures Stepping(k, At(r, s, top, pc)) == Going(At(WithTemporaries(r), s[top := k.temporary(r.w, TemporariesOf(r), n)], top + 1, pc + 1))
  {
    hide Decode;
  }

  lemma {:induction false} UnaryAt(k: Kernel, r: Regs, s: seq<Value>, top: nat, pc: nat, n: nat)
    requires Next(k, r, pc, SendUnary(n), 1) && 0 < top <= |s|
    ensures var v := Unary(n, s[top - 1]); Stepping(k, At(r, s, top, pc)) == Going(At(Holding(r, v), s[top - 1 := v], top, pc + 1))
  {
    hide Decode, Unary;
  }

  lemma {:induction false} DuplicateAt(k: Kernel, r: Regs, s: seq<Value>, top: nat, pc: nat)
    requires Next(k, r, pc, Duplicate, 1) && 0 < top < |s|
    ensures Stepping(k, At(r, s, top, pc)) == Going(At(Holding(r, s[top - 1]), s[top := s[top - 1]], top + 1, pc + 1))
  {
    hide Decode;
  }

  lemma {:induction false} PopAt(k: Kernel, r: Regs, s: seq<Value>, top: nat, pc: nat)
    requires Next(k, r, pc, PopTop, 1) && 0 < top <= |s|
    ensures Stepping(k, At(r, s, top, pc)) == Going(At(r, s, top - 1, pc + 1))
  {
    hide Decode;
  }

  lemma {:induction false} MarkAt(k: Kernel, r: Regs, s: seq<Value>, top: nat, pc: nat)
    requires Next(k, r, pc, MarkArguments(1), 1) && 0 < top <= |s|
    ensures Stepping(k, At(r, s, top, pc)) ==
            Going(At(r.(spare := r.spare.(arguments := None)), s[top - 1 := Arguments([s[top - 1]])], top, pc + 1))
  {
    assert s[top - 1..top] == [s[top - 1]];
    hide Decode;
  }

  /** A send, of which a return may be left to the callee. */
  lemma {:induction false} SendAt(k: Kernel, r: Regs, s: seq<Value>, top: nat, pc: nat, n: nat, m: nat, link: Option<nat>)
    requires Next(k, r, pc, SendMessage(n), 1) && 0 < top <= |s|
    requires s[top - 1].Arguments? && s[top - 1].vals != [] && r.spare.literals.None?
    requires k.lookup(r.w, None, s[top - 1].vals[0], k.literal(r.method_, n)) == Some(m) && k.newTemporaries(r.w, m) == (NO_TEMPORARIES, r.w)
    requires ByteAt(k.bytes(r.method_), pc + 1) != BLOCK_RETURN
    requires link == if ByteAt(k.bytes(r.method_), pc + 1) == STACK_RETURN then r.frames[r.context].previous else Some(r.context)
    ensures Stepping(k, At(r, s, top, pc)) ==
            Going(Called(k, At(r, s, top - 1, pc + 1).(spare := r.spare.(literals := Some(r.method_))), m, s[top - 1].vals, NO_TEMPORARIES, r.w, link))
  {
    hide Decode, Called;
  }

  /** A return to t, which has saved top and pc. */
  lemma {:induction false} ReturnAt(k: Kernel, r: Regs, s: seq<Value>, top: nat, pc: nat, i: Instr, t: nat, slots: seq<Value>)
    requires Next(k, r, pc, i, 1) && (i.StackReturn? || i.BlockReturn?) && 0 < top <= |s|
    requires i.StackReturn? ==> r.frames[r.context].previous == Some(t)
    requires i.BlockReturn? ==> HomeTarget(r) == Some(Some(t))
    requires t in r.frames && r.stack != r.frames[t].slots
    requires r.frames[t].slots in r.stacks && r.stacks[r.frames[t].slots] == slots && r.frames[t].top < |slots|
    ensures var f := r.frames[t];
            var q := r.(context := t, method_ := f.method_, stack := f.slots, stacks := r.stacks[r.stack := s], loaded := true,
                        spare := EMPTY.(returnedValue := s[top - 1]), left := r.left + {r.context} - {t});
            Stepping(k, At(r, s, top, pc)) == Going(At(q, slots[f.top := s[top - 1]], f.top + 1, f.pc))
  {
    hide Decode;
  }

  /** A return that ends the process. */
  lemma {:induction false} EndAt(k: Kernel, r: Regs, s: seq<Value>, top: nat, pc: nat)
    requires Next(k, r, pc, StackReturn, 1) && 0 < top <= |s| && r.frames[r.context].previous == None
    ensures var o := Stepping(k, At(r, s, top, pc)); o.Over? && o.v == s[top - 1]
  {
    hide Decode;
  }
}
