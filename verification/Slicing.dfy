/** The registers and the contexts: the loop does what the contexts alone say, and a process that is run in
    slices comes to what one run comes to -- unless a return strays, or a primitive leaves something in a register
    that is not the context's, or answers what it finds in one. */
module Slicing {
  import opened Options
  import opened Bytecode
  import opened Syntax
  import opened Values
  import opened Contexts
  import opened Registers
  import opened Loop

  /** Registers are in order, and say what the contexts say if no return has strayed. */
  ghost predicate Agrees(k: Kernel, o: Outcome, s: State) {
    match o
    case Going(r) => Sound(k, r) && (s.Strayed? || s == StateOf(r))
    case Over(v, r) => Memory(k, r) && s == Ended(v, Abs(r))
    case Bad => s.Stuck? || s.Strayed?
  }

  /** What the registers say about the current context. */
  lemma {:induction false} Facts(k: Kernel, r: Regs)
    requires Sound(k, r)
    ensures r.context in r.frames && r.stack in r.stacks && r.stackTop <= |r.stacks[r.stack]|
    ensures Current(r).stack == r.stacks[r.stack][..r.stackTop] && |Current(r).stack| == r.stackTop
    ensures r.stackTop > 0 ==> Last(Current(r).stack) == TopValue(r)
    ensures Current(r).pc == r.bytePointer && Current(r).method_ == r.method_ && Current(r).args == r.frames[r.context].args
    ensures Current(r).previous == r.frames[r.context].previous && Current(r).creating == r.frames[r.context].creating
    ensures Current(r).temps == r.frames[r.context].temps && Abs(r).w == r.w && r.method_ == r.frames[r.context].method_
  {}

  lemma {:induction false} Height(k: Kernel, r: Regs)
    requires Sound(k, r)
    ensures |Current(r).stack| == r.stackTop && Abs(r).w == r.w
  {}

  lemma {:induction false} Bounds(k: Kernel, r: Regs)
    requires Sound(k, r)
    ensures r.context in r.frames && r.stack in r.stacks && r.stackTop <= |r.stacks[r.stack]|
    ensures r.method_ == r.frames[r.context].method_
  {}

  lemma {:induction false} NoValues(k: Kernel, r: Regs, n: nat)
    requires Sound(k, r)
    ensures |TopValues(r, n)| == if n <= r.stackTop then n else 0
  {
    Bounds(k, r);
    hide Sound;
  }

  lemma {:induction false} TopSlice(k: Kernel, r: Regs, n: nat)
    requires Sound(k, r)
    ensures |Current(r).stack| == r.stackTop
    ensures n <= r.stackTop ==> TopValues(r, n) == Topmost(Current(r).stack, n) && |TopValues(r, n)| == n
    ensures n > r.stackTop ==> TopValues(r, n) == []
  {
    Facts(k, r);
    hide Sound, Abs, Current;
    if n <= r.stackTop { SliceOfSlice(r.stacks[r.stack], r.stackTop, n); }
  }

  lemma {:induction false} SliceOfSlice(s: seq<Value>, top: nat, n: nat)
    requires n <= top <= |s|
    ensures s[..top][top - n..] == s[top - n..top] && |s[top - n..top]| == n
  {}

  // ---- Pushing ---------------------------------------------------------------------------------------

  lemma {:induction false} PushingMeans(k: Kernel, r: Regs, v: Value)
    requires Sound(k, r)
    ensures Agrees(k, Pushing(r, v), Push(k, r.context, Abs(r), Current(r), v))
  {
    Facts(k, r);
    PushedMeans(k, r, v);
    hide Sound, Abs, Current, Push, Pushed;
  }

  /** A spare register filled at the same time makes no difference. */
  lemma {:induction false} SparePushing(k: Kernel, r: Regs, spare: Spare, v: Value)
    requires Sound(k, r)
    ensures Agrees(k, Pushing(r.(spare := spare), v), Push(k, r.context, Abs(r), Current(r), v))
  {
    SpareMeans(k, r, spare);
    hide Sound, Abs, Current, Push, Pushing, Agrees;
    PushingMeans(k, r.(spare := spare), v);
  }

  /** Pushing on the current context does not depend on what it was before. */
  lemma {:induction false} SamePush(k: Kernel, r: Regs, s: Regs, v: Value)
    requires Sound(k, r) && s.context == r.context && s.context in s.frames
    requires Abs(s) == Abs(r).(contexts := Abs(r).contexts[r.context := Current(s)])
    ensures Push(k, r.context, Abs(s), Current(s), v) == Push(k, r.context, Abs(r), Current(s), v)
  {
    var c := Current(s).(stack := Current(s).stack + [v]);
    assert Abs(s).contexts[r.context := c] == Abs(r).contexts[r.context := c];
  }

  lemma {:induction false} ReplacingMeans(k: Kernel, r: Regs, n: nat, v: Value)
    requires Sound(k, r)
    ensures |Current(r).stack| == r.stackTop
    ensures Agrees(k, Replacing(r, n, v),
                   if n > r.stackTop then Stuck else Push(k, r.context, Abs(r), Current(r).(stack := Front(Current(r).stack, n)), v))
  {
    Facts(k, r);
    if n <= r.stackTop {
      PoppedMeans(k, r, n);
      SamePush(k, r, Popped(r, n), v);
      PushingMeans(k, Popped(r, n), v);
    }
    hide Sound, Abs, Push, Current, Pushing;
  }

  lemma {:induction false} SpareReplacing(k: Kernel, r: Regs, spare: Spare, n: nat, v: Value)
    requires Sound(k, r)
    ensures |Current(r).stack| == r.stackTop
    ensures Agrees(k, Replacing(r.(spare := spare), n, v),
                   if n > r.stackTop then Stuck else Push(k, r.context, Abs(r), Current(r).(stack := Front(Current(r).stack, n)), v))
  {
    SpareMeans(k, r, spare);
    hide Sound, Abs, Current, Push, Replacing, Agrees;
    ReplacingMeans(k, r.(spare := spare), n, v);
  }

  lemma {:induction false} WorldSpareMeans(k: Kernel, r: Regs, spare: Spare, w: Store)
    requires Sound(k, r)
    ensures var s := r.(spare := spare).(w := w);
            && Sound(k, s) && Current(s) == Current(r) && Abs(s) == Abs(r).(w := w)
            && StateOf(s) == With(r.context, Abs(r).(w := w), Current(r))
  {
    SpareMeans(k, r, spare);
    WorldMeans(k, r.(spare := spare), w);
    hide Sound, Abs, Current;
  }

  lemma {:induction false} PopAndGoMeans(k: Kernel, r: Regs, n: nat, pc: nat)
    requires Sound(k, r) && n <= r.stackTop
    ensures |Current(r).stack| == r.stackTop
    ensures var s := Popped(r, n).(bytePointer := pc);
            Sound(k, s) && StateOf(s) == With(r.context, Abs(r), Current(r).(stack := Front(Current(r).stack, n), pc := pc))
  {
    Facts(k, r);
    PoppedMeans(k, r, n);
    hide Sound, Current, Abs, Popped;
    JumpMeans(k, Popped(r, n), pc);
    SameWith(k, r, Popped(r, n), pc);
  }

  lemma {:induction false} SameWith(k: Kernel, r: Regs, s: Regs, pc: nat)
    requires Sound(k, r) && s.context in s.frames && Abs(s) == Abs(r).(contexts := Abs(r).contexts[r.context := Current(s)])
    ensures With(r.context, Abs(s), Current(s).(pc := pc)) == With(r.context, Abs(r), Current(s).(pc := pc))
  {
    var c := Current(s).(pc := pc);
    hide Sound, Current, Abs;
    assert Abs(s).contexts[r.context := c] == Abs(r).contexts[r.context := c];
  }

  // ---- Returns ---------------------------------------------------------------------------------------

  lemma {:induction false} InAbs(k: Kernel, r: Regs, to: Option<nat>)
    requires Sound(k, r)
    ensures to.Some? ==> (to.value in Abs(r).contexts <==> to.value in r.frames)
    ensures Abs(r).left == r.left && Leave(r.context, Abs(r), Current(r)).left == r.left + {r.context}
    ensures Leave(r.context, Abs(r), Current(r)).contexts.Keys == r.frames.Keys
    ensures to.Some? && to.value in r.frames && to.value != r.context ==>
              Leave(r.context, Abs(r), Current(r)).contexts[to.value] == Abs(r).contexts[to.value]
  {}

  lemma {:induction false} EnteringMeans(k: Kernel, r: Regs, t: nat, v: Value)
    requires Sound(k, r) && t in r.frames
    ensures var s, o := Entered(r, t), Returning(r, Some(t), v);
            && s.context == t && t in s.frames && !o.Over?
            && Agrees(k, o, Push(k, t, Abs(s), Current(s), v)) && Agrees(k, o, Strayed)
  {
    EnteredSound(k, r, t);
    var s := Entered(r, t);
    SparePushing(k, s, s.spare.(returnedValue := v), v);
    hide Sound, Abs, Current, Push, Pushing, Memory;
  }

  lemma {:induction false} ReturningMeans(k: Kernel, r: Regs, to: Option<nat>, v: Value)
    requires Sound(k, r)
    ensures Agrees(k, Returning(r, to, v), Deliver(k, Leave(r.context, Abs(r), Current(r)), to, v))
  {
    InAbs(k, r, to);
    BadStuck(k);
    if to.None? {
      DepartedMeans(k, r);
      hide Sound, Memory, Abs, Current, Leave;
    } else if to.value in r.frames {
      EnteringMeans(k, r, to.value, v);
      if to.value !in r.left && to.value != r.context { ReturnMeans(k, r, to.value); }
      hide Agrees, Returning, Entered, Sound, Memory, Abs, Current, Leave, Push, Pushing;
    }
  }

  lemma {:induction false} HomeIs(k: Kernel, r: Regs)
    requires Sound(k, r)
    ensures HomeOf(Abs(r), Current(r)) == HomeTarget(r)
  {}

  // ---- Sends -----------------------------------------------------------------------------------------

  lemma {:induction false} LinkIs(k: Kernel, r: Regs)
    requires Sound(k, r)
    ensures Link(k, true, r.context, Abs(r), Current(r)) == LinkOf(k, r)
  {
    Facts(k, r);
    HomeIs(k, r);
    hide Sound, Abs, Current, HomeOf, HomeTarget;
  }

  lemma {:induction false} CallParts(k: Kernel, r: Regs, from: Option<nat>, args: seq<Value>, selector: Value)
    requires Sound(k, r) && args != []
    ensures r.context in r.frames
    ensures var callee, link := FindCallee(k, r.w, from, args, selector), LinkOf(k, r);
            if callee.NoMethod? || link.None? then
              Calling(k, r, from, args, selector) == Bad && Call(k, true, r.context, Abs(r), Current(r), from, args, selector) == Stuck
            else
              var (t, w') := k.newTemporaries(r.w, callee.method_);
              && Calling(k, r, from, args, selector) == Going(Called(k, r, callee.method_, callee.args, t, w', link.value))
              && Call(k, true, r.context, Abs(r), Current(r), from, args, selector) ==
                 Running(r.next, VM(Abs(r).contexts[r.next := Context(callee.method_, callee.args, t, [], 0, link.value, None, 0, 0)], w', r.next + 1, r.left))
  {
    hide Sound, Abs, Current, FindCallee, LinkOf, Called, Link, Leave;
    Facts(k, r);
    CurrentIn(k, r);
    InAbs(k, r, None);
    AbsIs(r, map[]);
    LinkIs(k, r);
  }

  lemma {:induction false} CallingMeans(k: Kernel, r: Regs, from: Option<nat>, args: seq<Value>, selector: Value)
    requires Sound(k, r)
    ensures r.context in r.frames
    ensures Agrees(k, Calling(k, r, from, args, selector), Call(k, true, r.context, Abs(r), Current(r), from, args, selector))
  {
    Bounds(k, r);
    if args != [] {
      hide Sound, Abs, Current, FindCallee, LinkOf, Called, Call, Calling;
      CallParts(k, r, from, args, selector);
      var callee := FindCallee(k, r.w, from, args, selector);
      if callee.Callee? && LinkOf(k, r).Some? {
        var (t, w') := k.newTemporaries(r.w, callee.method_);
        CalledMeans(k, r, callee.method_, callee.args, t, w', LinkOf(k, r).value);
      }
    }
  }

  /** A send after popping the stack, seen from before. */
  lemma {:induction false} CallPopped(k: Kernel, r: Regs, n: nat, from: Option<nat>, args: seq<Value>, selector: Value)
    requires Sound(k, r) && n <= r.stackTop
    ensures var s := Popped(r, n);
            && |Current(r).stack| == r.stackTop && Sound(k, s)
            && Call(k, true, r.context, Abs(s), Current(s), from, args, selector) ==
               Call(k, true, r.context, Abs(r), Current(r).(stack := Front(Current(r).stack, n)), from, args, selector)
  {
    var s := Popped(r, n);
    hide Sound, Abs, Current, FindCallee, HomeOf, HomeTarget;
    Facts(k, r);
    PoppedMeans(k, r, n);
    HomeIs(k, r);
    HomeIs(k, s);
    PoppedHome(k, r, n);
    assert Abs(s).contexts[r.context := Current(s)] == Abs(r).contexts[r.context := Current(s)];
    assert Link(k, true, r.context, Abs(s), Current(s)) == Link(k, true, r.context, Abs(r), Current(s));
    hide Link;
  }

  lemma {:induction false} PoppedHome(k: Kernel, r: Regs, n: nat)
    requires Sound(k, r) && n <= r.stackTop
    ensures HomeOf(Abs(Popped(r, n)), Current(Popped(r, n))) == HomeOf(Abs(r), Current(Popped(r, n)))
  {
    HomeIs(k, r);
    HomeIs(k, Popped(r, n));
  }

  lemma {:induction false} SendingMeans(k: Kernel, r: Regs, from: Option<nat>, n: nat)
    requires Sound(k, r) && Cached(r)
    ensures Agrees(k, Sending(k, r, from, n), SendFrom(k, true, r.context, Abs(r), Current(r), from, n))
  {
    Facts(k, r);
    var q := WithLiterals(r);
    SpareMeans(k, r, q.spare);
    assert q == r.(spare := q.spare) && LiteralsOf(r) == r.method_;
    hide WithLiterals, Sound, Abs, Current, Call, Calling, Agrees;
    if r.stackTop > 0 && TopValue(r).Arguments? {
      CallPopped(k, q, 1, from, TopValue(r).vals, k.literal(r.method_, n));
      CallingMeans(k, Popped(q, 1), from, TopValue(r).vals, k.literal(r.method_, n));
    } else {
      BadStuck(k);
    }
  }

  lemma {:induction false} BadStuck(k: Kernel)
    ensures Agrees(k, Bad, Stuck)
  {}

  lemma {:induction false} TopTwo(k: Kernel, r: Regs)
    requires Sound(k, r)
    ensures r.stackTop >= 2 ==>
              var s, t := TopValues(r, 2), Current(r).stack;
              s == [s[0], s[1]] && s[0] == t[|t| - 2] && s[1] == t[|t| - 1]
    ensures r.stackTop < 2 ==> TopValues(r, 2) == []
    ensures |Current(r).stack| == r.stackTop
  {
    Facts(k, r);
  }

  lemma {:induction false} BinaryParts(k: Kernel, r: Regs, n: nat)
    requires Sound(k, r)
    ensures var s, c := TopValues(r, 2), Current(r);
            && |c.stack| == r.stackTop && (r.stackTop >= 2 ==> |s| == 2)
            && Exec(k, true, r.context, Abs(r), c, SendBinary(n)) ==
               if r.stackTop < 2 || n > 2 then Stuck
               else if s[0].SmallInt? && s[1].SmallInt?
               then Push(k, r.context, Abs(r), c.(stack := Front(c.stack, 2)), BinaryValue(n, s[0].i, s[1].i))
               else Call(k, true, r.context, Abs(r), c.(stack := Front(c.stack, 2)), None, s, Symbol(BINARY_NAMES[n]))
    ensures var s := TopValues(r, 2);
            SendingBinary(k, r, n) ==
            if r.stackTop < 2 || n > 2 then Bad
            else if s[0].SmallInt? && s[1].SmallInt? then Replacing(Holding(r, BinaryValue(n, s[0].i, s[1].i)), 2, BinaryValue(n, s[0].i, s[1].i))
            else Calling(k, Popped(r, 2), None, s, Symbol(BINARY_NAMES[n]))
  {
    TopTwo(k, r);
    Facts(k, r);
    hide Sound, Abs, Current, Call, Calling, Push, Replacing, TopValues;
  }

  lemma {:induction false} SendingBinaryMeans(k: Kernel, r: Regs, n: nat)
    requires Sound(k, r)
    ensures Agrees(k, SendingBinary(k, r, n), Exec(k, true, r.context, Abs(r), Current(r), SendBinary(n)))
  {
    BinaryParts(k, r, n);
    BadStuck(k);
    Facts(k, r);
    hide Sound, Abs, Current, Call, Calling, Push, Replacing, Agrees, TopValues, SendingBinary, Exec, BinaryValue;
    if r.stackTop >= 2 && n <= 2 {
      var s := TopValues(r, 2);
      if s[0].SmallInt? && s[1].SmallInt? {
        var v := BinaryValue(n, s[0].i, s[1].i);
        SpareReplacing(k, r, r.spare.(returnedValue := v), 2, v);
      } else {
        CallPopped(k, r, 2, None, s, Symbol(BINARY_NAMES[n]));
        CallingMeans(k, Popped(r, 2), None, s, Symbol(BINARY_NAMES[n]));
      }
    }
  }

  // ---- Blocks and primitives -------------------------------------------------------------------------

  lemma {:induction false} BlockMeans(k: Kernel, r: Regs, argLoc: nat, target: nat)
    requires Sound(k, r)
    ensures Agrees(k, Executing(k, r, PushBlock(argLoc, target)), Exec(k, true, r.context, Abs(r), Current(r), PushBlock(argLoc, target)))
  {
    var b := Blocked(k, r, argLoc);
    var s := b.(bytePointer := target);
    Facts(k, r);
    BlockedMeans(k, r, argLoc);
    JumpMeans(k, b, target);
    PushingMeans(k, s, Object(r.next));
    hide Sound, Pushing;
    SamePush(k, b, s, Object(r.next));
    hide Abs, Current, Push;
  }

  lemma {:induction false} ViewOf(k: Kernel, r: Regs, d: nat)
    requires Sound(k, r) && d in r.frames
    ensures d in Abs(r).contexts && Abs(r).contexts[d] == View(r, d)
    ensures var c, f := Abs(r).contexts[d], r.frames[d];
            c.temps == f.temps && c.argLoc == f.argLoc && c.start == f.start && c.creating == f.creating && c.previous == f.previous
  {}

  lemma {:induction false} InvokedAgrees(k: Kernel, r: Regs, b: nat, w': Store)
    requires Sound(k, r) && b in r.frames
    ensures Agrees(k, Going(Invoked(r, b, w')), InvokedState(k, r, b, w'))
  {
    ViewOf(k, r, b);
    InvokedMeans(k, r, b, w');
    hide Sound, Leave, Abs, Current, Invoked;
  }

  ghost function InvokedState(k: Kernel, r: Regs, b: nat, w': Store): State
    requires Sound(k, r) && b in r.frames
  {
    ViewOf(k, r, b);
    var gone, block := Leave(r.context, Abs(r), Current(r)), Abs(r).contexts[b];
    Running(b, VM(gone.contexts[b := block.(stack := [], pc := block.start, previous := Current(r).previous)], w', r.next, gone.left - {b}))
  }

  lemma {:induction false} InvokeParts(k: Kernel, r: Regs, argCount: nat)
    requires Sound(k, r)
    ensures var s := TopValues(r, argCount);
            Invoke(k, r.context, Abs(r), Current(r), argCount) ==
            if s == [] || !s[|s| - 1].Object? then Stuck
            else
              var b := s[|s| - 1].id;
              if b !in r.frames || r.frames[b].creating.None? then Stuck
              else
                match k.enterBlock(r.w, r.frames[b].temps, r.frames[b].argLoc, s[..|s| - 1])
                case None =>
                  if argCount > |Current(r).stack| then Stuck
                  else Push(k, r.context, Abs(r), Current(r).(stack := Front(Current(r).stack, argCount)), Nil)
                case Some(w') => InvokedState(k, r, b, w')
  {
    Facts(k, r);
    TopSlice(k, r, argCount);
    var s, t := TopValues(r, argCount), Current(r).stack;
    if 0 < argCount <= r.stackTop {
      assert s == t[|t| - argCount..];
      assert s[|s| - 1] == t[|t| - 1] && s[..|s| - 1] == t[|t| - argCount..|t| - 1];
      if s[|s| - 1].Object? {
        InAbs(k, r, Some(s[|s| - 1].id));
        if s[|s| - 1].id in r.frames { ViewOf(k, r, s[|s| - 1].id); }
      }
    }
    hide Sound, Push, Leave, Abs, Current, TopValues;
  }

  lemma {:induction false} InvokingMeans(k: Kernel, r: Regs, argCount: nat)
    requires Sound(k, r)
    ensures r.context in r.frames && Agrees(k, Invoking(k, r, argCount), Invoke(k, r.context, Abs(r), Current(r), argCount))
  {
    hide Sound, Push, Abs, Current, TopValues, Invoke, Agrees, Replacing, InvokedState, Front, Invoked;
    Bounds(k, r);
    InvokeParts(k, r, argCount);
    BadStuck(k);
    var s := TopValues(r, argCount);
    if s != [] && s[|s| - 1].Object? && s[|s| - 1].id in r.frames {
      var b := s[|s| - 1].id;
      var entered := k.enterBlock(r.w, r.frames[b].temps, r.frames[b].argLoc, s[..|s| - 1]);
      if entered.Some? {
        InvokedAgrees(k, r, b, entered.value);
      } else {
        Height(k, r);
        SpareReplacing(k, r, Refused(r, b).spare, argCount, Nil);
      }
    }
  }

  /** A primitive has given an answer. */
  function Concluded(k: Kernel, cur: nat, vm: VM, c: Context, argCount: nat, answer: PrimAnswer): State
    requires argCount <= |c.stack|
  {
    match answer
    case Done(v, w') => Deliver(k, Leave(cur, vm.(w := w'), c), c.previous, v)
    case Failed(w', popped) => if popped <= |c.stack| then Push(k, cur, vm.(w := w'), c.(stack := Front(c.stack, popped)), Nil) else Stuck
    case LibraryFailed(w') => Push(k, cur, vm.(w := w'), c.(stack := Front(c.stack, argCount)), Nil)
  }

  lemma {:induction false} AnsweringMeans(k: Kernel, r: Regs, vals: seq<Value>, answer: PrimAnswer)
    requires Sound(k, r) && |vals| <= r.stackTop
    ensures |Current(r).stack| == r.stackTop
    ensures Agrees(k, Answering(r, vals, answer),
                   Concluded(k, r.context, Abs(r), Current(r), |vals|, answer))
  {
    Facts(k, r);
    WorldMeans(k, r, answer.w);
    hide Sound, Push, Leave, Abs, Current, Agrees, Returning, Replacing, Deliver;
    match answer
    case Done(v, w') => ReturningMeans(k, r.(w := w'), r.frames[r.context].previous, v);
    case Failed(w', popped) => SpareReplacing(k, r.(w := w'), r.spare.(returnedValue := Nil), popped, Nil);
    case LibraryFailed(w') => SpareReplacing(k, r.(w := w'), r.spare.(arguments := Some(vals), returnedValue := Nil), |vals|, Nil);
  }

  lemma {:induction false} PrimitiveExec(k: Kernel, cur: nat, vm: VM, c: Context, argCount: nat, number: nat)
    requires number != 8
    ensures Exec(k, true, cur, vm, c, DoPrimitive(argCount, number)) ==
            if argCount > |c.stack| then Stuck
            else Concluded(k, cur, vm, c, argCount, k.primitive(vm.w, number, Topmost(c.stack, argCount)))
  {
    hide Push, Topmost, Front, Deliver, Leave;
  }

  lemma {:induction false} PrimitiveParts(k: Kernel, r: Regs, argCount: nat, number: nat)
    requires Sound(k, r) && number != 8
    ensures var c := Current(r);
            && |c.stack| == r.stackTop
            && Exec(k, true, r.context, Abs(r), c, DoPrimitive(argCount, number)) ==
               if argCount > r.stackTop then Stuck
               else Concluded(k, r.context, Abs(r), c, argCount, k.primitive(r.w, number, TopValues(r, argCount)))
  {
    Height(k, r);
    TopSlice(k, r, argCount);
    hide Sound, Concluded, Abs, Current, TopValues, Topmost, Exec;
    PrimitiveExec(k, r.context, Abs(r), Current(r), argCount, number);
  }

  /** What the contexts say of an instruction, if flushing the method cache answers what the register holds. */
  ghost function Told(k: Kernel, r: Regs, i: Instr): State
    requires r.context in r.frames
  {
    if i.DoPrimitive? && i.number == FLUSH_CACHE && i.argCount <= |Current(r).stack|
    then Concluded(k, r.context, Abs(r), Current(r), i.argCount, Held(r, FLUSH_CACHE, k.primitive(r.w, FLUSH_CACHE, TopValues(r, i.argCount))))
    else Exec(k, true, r.context, Abs(r), Current(r), i)
  }

  lemma {:induction false} OtherPrimitive(k: Kernel, r: Regs, argCount: nat, number: nat)
    requires Sound(k, r) && number != 8
    ensures r.context in r.frames && |Current(r).stack| == r.stackTop && |TopValues(r, argCount)| == if argCount <= r.stackTop then argCount else 0
    ensures var vals := TopValues(r, argCount);
            var answer := Held(r, number, k.primitive(r.w, number, vals));
            && Executing(k, r, DoPrimitive(argCount, number)) == (if argCount > r.stackTop then Bad else Answering(r, vals, answer))
            && Told(k, r, DoPrimitive(argCount, number)) ==
               if argCount > r.stackTop then Stuck else Concluded(k, r.context, Abs(r), Current(r), |vals|, answer)
  {
    Bounds(k, r);
    NoValues(k, r, argCount);
    PrimitiveParts(k, r, argCount, number);
    hide Sound, Concluded, Abs, Current, Answering, TopValues, Exec;
  }

  lemma {:induction false} BlockPrimitive(k: Kernel, r: Regs, argCount: nat)
    requires Sound(k, r)
    ensures r.context in r.frames && Executing(k, r, DoPrimitive(argCount, 8)) == Invoking(k, r, argCount)
    ensures Told(k, r, DoPrimitive(argCount, 8)) == Invoke(k, r.context, Abs(r), Current(r), argCount)
  {
    Bounds(k, r);
    hide Sound, Abs, Current, Invoke, Invoking, Concluded, Held;
  }

  lemma {:induction false} PrimitiveMeans(k: Kernel, r: Regs, argCount: nat, number: nat)
    requires Sound(k, r)
    ensures r.context in r.frames && Agrees(k, Executing(k, r, DoPrimitive(argCount, number)), Told(k, r, DoPrimitive(argCount, number)))
  {
    hide Sound, Concluded, Abs, Current, Agrees, Answering, TopValues, Held, Executing, Told, Invoke, Invoking;
    if number == 8 {
      InvokingMeans(k, r, argCount);
      BlockPrimitive(k, r, argCount);
    } else {
      BadStuck(k);
      OtherPrimitive(k, r, argCount, number);
      if argCount <= r.stackTop {
        AnsweringMeans(k, r, TopValues(r, argCount), Held(r, number, k.primitive(r.w, number, TopValues(r, argCount))));
      }
    }
  }

  // ---- Any instruction -------------------------------------------------------------------------------

  lemma {:induction false} CachedFacts(r: Regs)
    requires Cached(r)
    ensures r.context in r.frames
    ensures ArgumentsOf(r) == r.frames[r.context].args && TemporariesOf(r) == r.frames[r.context].temps && LiteralsOf(r) == r.method_
    ensures ReceiverOf(r) == First(r.frames[r.context].args)
    ensures WithArguments(r) == r.(spare := WithArguments(r).spare) && WithTemporaries(r) == r.(spare := WithTemporaries(r).spare)
    ensures WithLiterals(r) == r.(spare := WithLiterals(r).spare) && WithReceiver(r) == r.(spare := WithReceiver(r).spare)
  {}

  lemma {:induction false} ReceiverIs(c: Context)
    ensures Receiver(c) == First(c.args)
  {}

  predicate Variable(i: Instr) {
    i.PushInstance? || i.PushArgument? || i.PushTemporary? || i.PushLiteral? || i.PushConstant? || i.AssignInstance? || i.AssignTemporary?
  }

  lemma {:induction false} VariableMeans(k: Kernel, r: Regs, i: Instr)
    requires Sound(k, r) && Cached(r) && Variable(i)
    ensures Agrees(k, Executing(k, r, i), Exec(k, true, r.context, Abs(r), Current(r), i))
  {
    Facts(k, r);
    CachedFacts(r);
    var c := Current(r);
    ReceiverIs(c);
    BadStuck(k);
    hide Sound, Push, With, Abs, Current, Pushing, Receiver, First, WithArguments, WithTemporaries, WithLiterals, WithReceiver,
         ArgumentsOf, TemporariesOf, LiteralsOf, ReceiverOf, Cached, TopValue, Constant;
    match i
    case PushInstance(n) => SparePushing(k, r, WithReceiver(r).spare, k.field(r.w, Receiver(c), n));
    case PushArgument(n) => SparePushing(k, r, WithArguments(r).spare, if n < |c.args| then c.args[n] else Nil);
    case PushTemporary(n) => SparePushing(k, r, WithTemporaries(r).spare, k.temporary(r.w, c.temps, n));
    case PushLiteral(n) => SparePushing(k, r, WithLiterals(r).spare, k.literal(c.method_, n));
    case PushConstant(n) => PushingMeans(k, r, Constant(n));
    case AssignInstance(n) =>
      if r.stackTop > 0 { WorldSpareMeans(k, r, WithReceiver(r).spare, k.setField(r.w, Receiver(c), n, TopValue(r))); }
    case AssignTemporary(n) =>
      if r.stackTop > 0 { WorldSpareMeans(k, r, WithTemporaries(r).spare, k.setTemporary(r.w, c.temps, n, TopValue(r))); }
  }

  predicate OnStack(i: Instr) {
    i.MarkArguments? || i.SendUnary? || i.Duplicate? || i.PopTop? || i.Branch? || i.BranchIfTrue? || i.BranchIfFalse? || i.Breakpoint?
  }

  lemma {:induction false} MarkExec(k: Kernel, cur: nat, vm: VM, c: Context, n: nat)
    ensures Exec(k, true, cur, vm, c, MarkArguments(n)) ==
            if n > |c.stack| then Stuck else Push(k, cur, vm, c.(stack := Front(c.stack, n)), Arguments(Topmost(c.stack, n)))
  {
    hide Push, Topmost, Front;
  }

  lemma {:induction false} MarkParts(k: Kernel, r: Regs, n: nat)
    requires Sound(k, r)
    ensures |Current(r).stack| == r.stackTop
    ensures Exec(k, true, r.context, Abs(r), Current(r), MarkArguments(n)) ==
            if n > r.stackTop then Stuck
            else Push(k, r.context, Abs(r), Current(r).(stack := Front(Current(r).stack, n)), Arguments(TopValues(r, n)))
  {
    Height(k, r);
    TopSlice(k, r, n);
    hide Sound, Push, Abs, Current, TopValues, Topmost, Exec;
    MarkExec(k, r.context, Abs(r), Current(r), n);
  }

  lemma {:induction false} OnStackMeans(k: Kernel, r: Regs, i: Instr)
    requires Sound(k, r) && OnStack(i)
    ensures Agrees(k, Executing(k, r, i), Exec(k, true, r.context, Abs(r), Current(r), i))
  {
    Facts(k, r);
    BadStuck(k);
    hide Sound, Push, With, Abs, Current, Pushing, Replacing, TopValue, TopValues, Unary, Agrees;
    match i
    case MarkArguments(n) =>
      MarkParts(k, r, n);
      hide Exec;
      SpareReplacing(k, r, r.spare.(arguments := None), n, Arguments(TopValues(r, n)));
    case SendUnary(n) => SpareReplacing(k, r, r.spare.(returnedValue := Unary(n, TopValue(r))), 1, Unary(n, TopValue(r)));
    case Duplicate => SparePushing(k, r, r.spare.(returnedValue := TopValue(r)), TopValue(r));
    case Breakpoint =>
    case _ =>
      hide Executing, Exec;
      JumpAgrees(k, r, i);
  }

  lemma {:induction false} JumpAgrees(k: Kernel, r: Regs, i: Instr)
    requires Sound(k, r) && (i.PopTop? || i.Branch? || i.BranchIfTrue? || i.BranchIfFalse?)
    ensures Agrees(k, Executing(k, r, i), Exec(k, true, r.context, Abs(r), Current(r), i))
  {
    Facts(k, r);
    BadStuck(k);
    var c, v := Current(r), TopValue(r);
    hide Sound, With, Abs, Current, TopValue;
    if i.Branch? {
      PopAndGoMeans(k, r, 0, i.target);
      assert Front(c.stack, 0) == c.stack;
    } else if r.stackTop > 0 {
      SpareMeans(k, r, r.spare.(returnedValue := v));
      PopAndGoMeans(k, if i.PopTop? then r else Holding(r, v), 1, if (i.BranchIfTrue? && v == True) || (i.BranchIfFalse? && v == False) then i.target else r.bytePointer);
    }
  }

  predicate Returns(i: Instr) {
    i.SelfReturn? || i.StackReturn? || i.BlockReturn?
  }

  lemma {:induction false} ReturnsMean(k: Kernel, r: Regs, i: Instr)
    requires Sound(k, r) && Cached(r) && Returns(i)
    ensures Agrees(k, Executing(k, r, i), Exec(k, true, r.context, Abs(r), Current(r), i))
  {
    Facts(k, r);
    CachedFacts(r);
    HomeIs(k, r);
    ReceiverIs(Current(r));
    BadStuck(k);
    hide Sound, Leave, Deliver, Abs, Current, Returning, TopValue, First, ArgumentsOf, HomeOf, HomeTarget, Receiver;
    match i
    case SelfReturn => ReturningMeans(k, r, r.frames[r.context].previous, First(ArgumentsOf(r)));
    case StackReturn => ReturningMeans(k, r, r.frames[r.context].previous, TopValue(r));
    case BlockReturn => if HomeTarget(r).Some? { ReturningMeans(k, r, HomeTarget(r).value, TopValue(r)); }
  }

  lemma {:induction false} ExecutingMeans(k: Kernel, r: Regs, i: Instr)
    requires Sound(k, r) && Cached(r)
    ensures Agrees(k, Executing(k, r, i), Told(k, r, i))
  {
    Facts(k, r);
    hide Sound, Abs, Current, Agrees, Cached, Push, Call, Invoke, Sending, SendingBinary, SendFrom, Concluded, Held;
    match i
    case SendMessage(n) => SendingMeans(k, r, None, n);
    case SendToSuper(n) => SendingMeans(k, r, Some(r.method_), n);
    case SendBinary(n) => SendingBinaryMeans(k, r, n);
    case PushBlock(argLoc, target) => BlockMeans(k, r, argLoc, target);
    case DoPrimitive(argCount, number) => PrimitiveMeans(k, r, argCount, number);
    case _ =>
      hide Executing, Exec;
      if Variable(i) { VariableMeans(k, r, i); }
      else if OnStack(i) { OnStackMeans(k, r, i); }
      else { ReturnsMean(k, r, i); }
  }

  // ---- The loop --------------------------------------------------------------------------------------

  /** Registers stay in order whatever happens. */
  ghost predicate InOrder(k: Kernel, o: Outcome) {
    match o
    case Going(r) => Sound(k, r)
    case Over(_, r) => Memory(k, r)
    case Bad => true
  }

  lemma {:induction false} AgreesInOrder(k: Kernel, o: Outcome, s: State)
    requires Agrees(k, o, s)
    ensures InOrder(k, o)
  {
    hide Sound, Memory;
  }

  lemma {:induction false} VariableInOrder(k: Kernel, r: Regs, i: Instr)
    requires Sound(k, r) && Variable(i)
    ensures InOrder(k, Executing(k, r, i))
  {
    Facts(k, r);
    BadInOrder(k);
    hide Sound, InOrder, Pushing, TopValue, ArgumentsOf, TemporariesOf, LiteralsOf, ReceiverOf, Constant;
    match i
    case PushInstance(n) => PushingInOrder(k, r, WithReceiver(r).spare, k.field(r.w, ReceiverOf(r), n));
    case PushArgument(n) => PushingInOrder(k, r, WithArguments(r).spare, if n < |ArgumentsOf(r)| then ArgumentsOf(r)[n] else Nil);
    case PushTemporary(n) => PushingInOrder(k, r, WithTemporaries(r).spare, k.temporary(r.w, TemporariesOf(r), n));
    case PushLiteral(n) => PushingInOrder(k, r, WithLiterals(r).spare, k.literal(LiteralsOf(r), n));
    case PushConstant(n) => PushingInOrder(k, r, r.spare, Constant(n));
    case AssignInstance(n) => WorldInOrder(k, r, WithReceiver(r).spare, k.setField(r.w, ReceiverOf(r), n, TopValue(r)));
    case AssignTemporary(n) => WorldInOrder(k, r, WithTemporaries(r).spare, k.setTemporary(r.w, TemporariesOf(r), n, TopValue(r)));
  }

  lemma {:induction false} PushingInOrder(k: Kernel, r: Regs, spare: Spare, v: Value)
    requires Sound(k, r)
    ensures InOrder(k, Pushing(r.(spare := spare), v))
    ensures r.(spare := r.spare) == r
  {
    SparePushing(k, r, spare, v);
    AgreesInOrder(k, Pushing(r.(spare := spare), v), Push(k, r.context, Abs(r), Current(r), v));
    hide InOrder, Sound;
  }

  lemma {:induction false} WorldInOrder(k: Kernel, r: Regs, spare: Spare, w: Store)
    requires Sound(k, r)
    ensures InOrder(k, Going(r.(spare := spare).(w := w)))
  {
    WorldSpareMeans(k, r, spare, w);
    hide Sound;
  }

  lemma {:induction false} BadInOrder(k: Kernel)
    ensures InOrder(k, Bad)
  {}

  lemma {:induction false} SendingInOrder(k: Kernel, r: Regs, from: Option<nat>, n: nat)
    requires Sound(k, r)
    ensures r.context in r.frames && InOrder(k, Sending(k, r, from, n))
  {
    Facts(k, r);
    var q := WithLiterals(r);
    SpareMeans(k, r, q.spare);
    BadInOrder(k);
    if r.stackTop > 0 && TopValue(r).Arguments? {
      assert q == r.(spare := q.spare);
      PoppedMeans(k, q, 1);
      var args, selector := TopValue(r).vals, k.literal(LiteralsOf(r), n);
      CallingMeans(k, Popped(q, 1), from, args, selector);
      AgreesInOrder(k, Calling(k, Popped(q, 1), from, args, selector),
                    Call(k, true, Popped(q, 1).context, Abs(Popped(q, 1)), Current(Popped(q, 1)), from, args, selector));
    }
    hide Sound, Abs, Current, Calling, Call, Agrees, InOrder, TopValue, LiteralsOf;
  }

  lemma {:induction false} ReturnsInOrder(k: Kernel, r: Regs, i: Instr)
    requires Sound(k, r) && Returns(i)
    ensures InOrder(k, Executing(k, r, i))
  {
    Facts(k, r);
    BadInOrder(k);
    forall to, v ensures InOrder(k, Returning(r, to, v)) {
      ReturningMeans(k, r, to, v);
      AgreesInOrder(k, Returning(r, to, v), Deliver(k, Leave(r.context, Abs(r), Current(r)), to, v));
    }
    hide Sound, InOrder, Returning, HomeTarget, TopValue, First, ArgumentsOf;
  }

  lemma {:induction false} ExecutingInOrder(k: Kernel, r: Regs, i: Instr)
    requires Sound(k, r)
    ensures r.context in r.frames && InOrder(k, Executing(k, r, i))
  {
    Facts(k, r);
    hide Sound, Abs, Current, Agrees, InOrder, Sending, SendingBinary, Exec;
    if Variable(i) {
      VariableInOrder(k, r, i);
    } else if Returns(i) {
      ReturnsInOrder(k, r, i);
    } else if i.SendMessage? {
      SendingInOrder(k, r, None, i.n);
    } else if i.SendToSuper? {
      SendingInOrder(k, r, Some(r.method_), i.n);
    } else {
      hide Executing;
      OthersMean(k, r, i);
      AgreesInOrder(k, Executing(k, r, i), Told(k, r, i));
    }
  }

  lemma {:induction false} OthersMean(k: Kernel, r: Regs, i: Instr)
    requires Sound(k, r) && r.context in r.frames && (OnStack(i) || i.SendBinary? || i.PushBlock? || i.DoPrimitive?)
    ensures Agrees(k, Executing(k, r, i), Told(k, r, i))
  {
    hide Sound, Abs, Current, Agrees, Concluded, Held;
    match i
    case SendBinary(n) =>
      SendingBinaryMeans(k, r, n);
      hide SendingBinary, Exec;
    case PushBlock(argLoc, target) => BlockMeans(k, r, argLoc, target);
    case DoPrimitive(argCount, number) => PrimitiveMeans(k, r, argCount, number);
    case _ => OnStackMeans(k, r, i);
  }

  lemma {:induction false} SteppingInOrder(k: Kernel, r: Regs)
    requires Sound(k, r)
    ensures InOrder(k, Stepping(k, r))
  {
    Facts(k, r);
    BadInOrder(k);
    var d := Decode(k.bytes(r.method_), r.bytePointer);
    hide Decode, Sound, Executing, InOrder;
    if d.Decoded? {
      JumpMeans(k, r, d.next);
      ExecutingInOrder(k, r.(bytePointer := d.next), d.instr);
    }
  }

  /** A primitive of the library fails on something else than the context's own arguments. */
  ghost predicate LibraryShows(k: Kernel, w: Store, c: Context, argCount: nat, number: nat)
    requires argCount <= |c.stack|
  {
    && number != 8
    && var vals := Topmost(c.stack, argCount);
       k.primitive(w, number, vals).LibraryFailed? && vals != c.args
  }

  /** A block is refused that has other temporaries than the context. */
  ghost predicate BlockShows(k: Kernel, vm: VM, c: Context, argCount: nat)
    requires argCount <= |c.stack|
  {
    && argCount > 0 && Last(c.stack).Object? && Last(c.stack).id in vm.contexts
    && var block := vm.contexts[Last(c.stack).id];
       && block.creating.Some? && block.temps != NO_TEMPORARIES && block.temps != c.temps
       && k.enterBlock(vm.w, block.temps, block.argLoc, BlockArguments(c.stack, argCount)).None?
  }

  /** The next instruction leaves something in a register that is not the context's, or answers what it finds in
      one. */
  ghost predicate RegisterShows(k: Kernel, s: State) {
    && s.Running? && s.cur in s.vm.contexts
    && var c := s.vm.contexts[s.cur];
       match Decode(k.bytes(c.method_), c.pc)
       case Decoded(DoPrimitive(argCount, number), _) =>
         && argCount <= |c.stack|
         && (number == FLUSH_CACHE || (number == 8 && BlockShows(k, s.vm, c, argCount)) || LibraryShows(k, s.vm.w, c, argCount, number))
       case _ => false
  }

  lemma {:induction false} StepParts(k: Kernel, r: Regs)
    requires Sound(k, r)
    ensures var d := Decode(k.bytes(r.method_), r.bytePointer);
            && (d.Invalid? ==> Stepping(k, r) == Bad && Step(k, true, StateOf(r)) == Stuck)
            && (d.Decoded? ==> var s := r.(bytePointer := d.next);
                               Sound(k, s) && Stepping(k, r) == Executing(k, s, d.instr)
                               && Step(k, true, StateOf(r)) == Exec(k, true, r.context, Abs(s), Current(s), d.instr))
  {
    Facts(k, r);
    CurrentIn(k, r);
    var d := Decode(k.bytes(r.method_), r.bytePointer);
    if d.Decoded? {
      JumpMeans(k, r, d.next);
      hide Sound, Abs, Current, Executing, Exec, Decode;
    } else {
      hide Sound, Abs, Current, Executing, Exec, Decode;
    }
  }

  lemma {:induction false} SteppingMeans(k: Kernel, r: Regs)
    requires Sound(k, r) && Cached(r) && !RegisterShows(k, StateOf(r))
    ensures Agrees(k, Stepping(k, r), Step(k, true, StateOf(r)))
  {
    StepParts(k, r);
    BadStuck(k);
    var d := Decode(k.bytes(r.method_), r.bytePointer);
    if d.Decoded? {
      var s, i := r.(bytePointer := d.next), d.instr;
      assert Cached(s);
      NotTold(k, r, d.instr, d.next);
      hide Decode, Sound, Cached, Stepping, Step, Exec, Executing, Agrees, Abs, Current, RegisterShows, Told;
      ExecutingMeans(k, s, i);
    }
  }

  lemma {:induction false} NotTold(k: Kernel, r: Regs, i: Instr, next: nat)
    requires Sound(k, r) && !RegisterShows(k, StateOf(r)) && Decode(k.bytes(r.method_), r.bytePointer) == Decoded(i, next)
    ensures var s := r.(bytePointer := next);
            s.context in s.frames && Told(k, s, i) == Exec(k, true, r.context, Abs(s), Current(s), i)
  {
    var s := r.(bytePointer := next);
    Facts(k, r);
    CurrentIn(k, r);
    JumpMeans(k, r, next);
    hide Decode, Sound, Abs, Current, Exec, LibraryShows, BlockShows, Concluded;
  }

  /** The primitive leaves another context's temporaries, or its own arguments, in a register. */
  ghost predicate Leaves(k: Kernel, r: Regs, argCount: nat, number: nat)
    requires r.context in r.frames
  {
    var s, f := TopValues(r, argCount), r.frames[r.context];
    if number == 8 then
      && s != [] && s[|s| - 1].Object? && s[|s| - 1].id in r.frames
      && var b := r.frames[s[|s| - 1].id];
         && b.creating.Some? && b.temps != NO_TEMPORARIES && b.temps != f.temps
         && k.enterBlock(r.w, b.temps, b.argLoc, s[..|s| - 1]).None?
    else argCount <= r.stackTop && k.primitive(r.w, number, s).LibraryFailed? && s != f.args
  }

  lemma {:induction false} BlockArgumentsAre(k: Kernel, r: Regs, argCount: nat)
    requires Sound(k, r) && 0 < argCount <= r.stackTop
    ensures |Current(r).stack| == r.stackTop
    ensures var s := TopValues(r, argCount);
            |s| == argCount && s[|s| - 1] == Last(Current(r).stack) && s[..|s| - 1] == BlockArguments(Current(r).stack, argCount)
  {
    TopSlice(k, r, argCount);
    hide Sound, Current, TopValues;
  }

  /** In terms of the contexts. */
  lemma {:induction false} LeavesIs(k: Kernel, r: Regs, argCount: nat, number: nat)
    requires Sound(k, r) && argCount <= r.stackTop
    ensures r.context in r.frames && argCount <= |Current(r).stack|
    ensures Leaves(k, r, argCount, number) <==>
              (number == 8 && BlockShows(k, Abs(r), Current(r), argCount)) || LibraryShows(k, Abs(r).w, Current(r), argCount, number)
  {
    Facts(k, r);
    TopSlice(k, r, argCount);
    var s := TopValues(r, argCount);
    if number == 8 && argCount > 0 {
      BlockArgumentsAre(k, r, argCount);
      if s[|s| - 1].Object? {
        InAbs(k, r, Some(s[|s| - 1].id));
        if s[|s| - 1].id in r.frames { ViewOf(k, r, s[|s| - 1].id); }
      }
    }
    hide Sound, Abs, Current, TopValues, Topmost, BlockArguments, Last;
  }

  lemma {:induction false} ShowsIs(k: Kernel, r: Regs, i: Instr, next: nat)
    requires Sound(k, r) && Decode(k.bytes(r.method_), r.bytePointer) == Decoded(i, next)
    ensures r.context in r.frames
    ensures RegisterShows(k, StateOf(r)) <==>
              i.DoPrimitive? && i.argCount <= r.stackTop && (i.number == FLUSH_CACHE || Leaves(k, r, i.argCount, i.number))
  {
    Facts(k, r);
    CurrentIn(k, r);
    if i.DoPrimitive? && i.argCount <= r.stackTop { LeavesIs(k, r, i.argCount, i.number); }
    hide Decode, Sound, Abs, Current, LibraryShows, BlockShows, Leaves;
  }

  predicate Flushes(i: Instr) {
    i.DoPrimitive? && i.number == FLUSH_CACHE
  }

  lemma {:induction false} MovedOn(k: Kernel, r: Regs, pc: nat)
    requires Sound(k, r)
    ensures r.context in r.frames && (Cached(r.(bytePointer := pc)) <==> Cached(r))
    ensures forall argCount, number :: Leaves(k, r.(bytePointer := pc), argCount, number) <==> Leaves(k, r, argCount, number)
  {
    Bounds(k, r);
    hide Sound;
  }

  /** Registers that are filled go with their context, until one is left that does not: exactly then an
      instruction shows. */
  lemma {:induction false} SteppingCached(k: Kernel, r: Regs)
    requires Sound(k, r) && Cached(r)
    ensures !RegisterShows(k, StateOf(r)) && Stepping(k, r).Going? ==> Cached(Stepping(k, r).r)
    ensures var d := Decode(k.bytes(r.method_), r.bytePointer);
            RegisterShows(k, StateOf(r)) && d.Decoded? && !Flushes(d.instr) && Stepping(k, r).Going? ==> !Cached(Stepping(k, r).r)
  {
    hide Decode, Sound, Abs, Executing, Stepping, Step, Exec, RegisterShows, Leaves, Cached, StateOf, TopValues;
    Bounds(k, r);
    StepParts(k, r);
    var d := Decode(k.bytes(r.method_), r.bytePointer);
    if d.Decoded? {
      ShowsIs(k, r, d.instr, d.next);
      MovedOn(k, r, d.next);
      ExecutingCached(k, r.(bytePointer := d.next), d.instr);
    }
  }

  lemma {:induction false} ExecutingCached(k: Kernel, r: Regs, i: Instr)
    requires Cached(r) && r.method_ == r.frames[r.context].method_
    ensures Executing(k, r, i).Going? ==>
              (Cached(Executing(k, r, i).r) <==> !(i.DoPrimitive? && i.argCount <= r.stackTop && Leaves(k, r, i.argCount, i.number)))
  {
    hide TopValues, TopValue, Unary, Bool, FindCallee, LinkOf, HomeTarget, ByteAt, Constant, Leaves;
    if i.SendMessage? || i.SendToSuper? || i.SendBinary? {
      hide Cached, Executing;
      SendCached(k, r, i);
    } else if Variable(i) {
      hide Cached, Executing;
      VariableCached(k, r, i);
    } else if i.DoPrimitive? {
      hide Cached, Executing;
      PrimitiveCached(k, r, i.argCount, i.number);
    }
  }

  lemma {:induction false} SendCached(k: Kernel, r: Regs, i: Instr)
    requires r.context in r.frames && (i.SendMessage? || i.SendToSuper? || i.SendBinary?) && Cached(r)
    ensures Executing(k, r, i).Going? ==> Cached(Executing(k, r, i).r)
  {
    hide TopValues, TopValue, FindCallee, LinkOf;
  }

  lemma {:induction false} VariableCached(k: Kernel, r: Regs, i: Instr)
    requires Cached(r) && Variable(i)
    ensures Executing(k, r, i).Going? ==> Cached(Executing(k, r, i).r)
  {
    hide TopValue, Constant;
  }

  lemma {:induction false} PrimitiveCached(k: Kernel, r: Regs, argCount: nat, number: nat)
    requires Cached(r)
    ensures Executing(k, r, DoPrimitive(argCount, number)).Going? ==>
              (Cached(Executing(k, r, DoPrimitive(argCount, number)).r) <==> !(argCount <= r.stackTop && Leaves(k, r, argCount, number)))
  {
    if argCount > r.stackTop { assert TopValues(r, argCount) == []; }
    hide TopValues, Cached;
    if number == 8 {
      hide Leaves;
      InvokingCached(k, r, argCount);
    } else if argCount <= r.stackTop {
      AnsweringCached(r, TopValues(r, argCount), Held(r, number, k.primitive(r.w, number, TopValues(r, argCount))));
      hide Answering;
    }
  }

  lemma {:induction false} InvokingCached(k: Kernel, r: Regs, argCount: nat)
    requires Cached(r)
    ensures Invoking(k, r, argCount).Going? ==> (Cached(Invoking(k, r, argCount).r) <==> !Leaves(k, r, argCount, 8))
  {
    hide TopValues;
  }

  lemma {:induction false} AnsweringCached(r: Regs, vals: seq<Value>, answer: PrimAnswer)
    requires Cached(r)
    ensures Answering(r, vals, answer).Going? ==>
              (Cached(Answering(r, vals, answer).r) <==> !(answer.LibraryFailed? && vals != r.frames[r.context].args))
  {}

  /** No register has shown so far. */
  ghost predicate RegistersHidden(k: Kernel, s: State, n: nat) {
    forall j: nat | j < n :: !RegisterShows(k, Run(k, true, s, j))
  }

  lemma {:induction false} HiddenRest(k: Kernel, s: State, n: nat, j: nat)
    requires RegistersHidden(k, s, n) && j <= n
    ensures RegistersHidden(k, Run(k, true, s, j), n - j)
    ensures n > 0 ==> !RegisterShows(k, s)
  {
    hide Step, RegisterShows;
    forall i: nat | i < n - j ensures !RegisterShows(k, Run(k, true, Run(k, true, s, j), i)) {
      RunAdd(k, true, s, j, i);
    }
    assert Run(k, true, s, 0) == s;
  }

  lemma {:induction false} StrayedStays(k: Kernel, s: State, n: nat)
    requires !Run(k, true, s, n).Strayed?
    ensures !s.Strayed?
  {
    if s.Strayed? { RunEnded(k, true, s, n); }
  }

  lemma {:induction false} LoopingStep(k: Kernel, r: Regs, n: nat)
    ensures n == 0 ==> Looping(k, Going(r), n) == Going(r)
    ensures n > 0 ==> Looping(k, Going(r), n) == Looping(k, Stepping(k, r), n - 1)
  {
    hide Stepping;
  }

  lemma {:induction false} LoopingOver(k: Kernel, o: Outcome, n: nat)
    requires !o.Going?
    ensures Looping(k, o, n) == o
  {}

  /** What a slice comes to, once its loop has come to o. */
  lemma {:induction false} SliceIs(k: Kernel, p: Process, n: nat)
    requires Ready(k, p) && n > 0
    ensures p.Waiting? && p.context in p.r.frames
    ensures Sound(k, Loaded(p.r, p.context))
    ensures Slice(k, p, n) ==
            match Looping(k, Going(Loaded(p.r, p.context)), n - 1)
            case Going(r) => Suspended(r)
            case Over(v, r) => Finished(v, r)
            case Bad => Wrecked
  {
    LoadedMeans(k, p.r, p.context);
    hide Sound, Memory, Looping;
  }

  /** The loop does what the contexts alone say. */
  lemma {:induction false} LoopingMeans(k: Kernel, r: Regs, n: nat)
    requires Sound(k, r) && Cached(r) && RegistersHidden(k, StateOf(r), n) && !Run(k, true, StateOf(r), n).Strayed?
    ensures Agrees(k, Looping(k, Going(r), n), Run(k, true, StateOf(r), n))
    decreases n
  {
    hide Sound, Memory, Cached, Abs, Stepping, Step, RegistersHidden, RegisterShows;
    if n > 0 {
      var s := Step(k, true, StateOf(r));
      StrayedStays(k, s, n - 1);
      assert Run(k, true, StateOf(r), 1) == s by { assert Run(k, true, s, 0) == s; }
      HiddenRest(k, StateOf(r), n, 1);
      SteppingMeans(k, r);
      SteppingCached(k, r);
      var o := Stepping(k, r);
      if o.Going? {
        LoopingMeans(k, o.r, n - 1);
      } else {
        RunEnded(k, true, s, n - 1);
      }
    }
  }

  // ---- Slices ----------------------------------------------------------------------------------------

  /** One slice: the instructions that the contexts alone would run, and a process that can be run again. */
  lemma {:induction false} SliceMeans(k: Kernel, p: Process, n: nat)
    requires Ready(k, p) && n > 0 && RegistersHidden(k, StateIn(p), n - 1) && !Run(k, true, StateIn(p), n - 1).Strayed?
    ensures StateIn(Slice(k, p, n)) == Run(k, true, StateIn(p), n - 1)
    ensures Slice(k, p, n).Waiting? ==> Ready(k, Slice(k, p, n))
  {
    LoadedMeans(k, p.r, p.context);
    var r := Loaded(p.r, p.context);
    assert Cached(r);
    hide Sound, Cached, Abs, Loaded, RegistersHidden, Run;
    LoopingMeans(k, r, n - 1);
    var o := Looping(k, Going(r), n - 1);
    if o.Going? {
      SavedMeans(k, o.r);
      Facts(k, o.r);
      hide Memory;
    }
  }

  /** However a run is cut into slices, it comes to the state that one run of as many instructions
      would: each slice resumes just what the one before it suspended. */
  lemma {:induction false} SlicesCompose(k: Kernel, p: Process, slices: seq<nat>)
    requires Ready(k, p) && forall n | n in slices :: n > 0
    requires RegistersHidden(k, StateIn(p), Steps(slices)) && !Run(k, true, StateIn(p), Steps(slices)).Strayed?
    ensures StateIn(Slices(k, p, slices)) == Run(k, true, StateIn(p), Steps(slices))
    decreases |slices|
  {
    hide Ready, StateIn, Slice, RegistersHidden, Step;
    if slices != [] {
      var n, rest := slices[0], slices[1..];
      assert n in slices && Steps(slices) == n - 1 + Steps(rest);
      assert forall m | m in rest :: m in slices;
      RunAdd(k, true, StateIn(p), n - 1, Steps(rest));
      HiddenFirst(k, StateIn(p), Steps(slices), n - 1);
      HiddenRest(k, StateIn(p), Steps(slices), n - 1);
      StrayedStays(k, Run(k, true, StateIn(p), n - 1), Steps(rest));
      SliceMeans(k, p, n);
      var q := Slice(k, p, n);
      if q.Waiting? {
        SlicesCompose(k, q, rest);
      } else {
        NotWaiting(k, q, rest);
        RunEnded(k, true, StateIn(q), Steps(rest));
      }
    }
  }

  lemma {:induction false} HiddenFirst(k: Kernel, s: State, n: nat, j: nat)
    requires RegistersHidden(k, s, n) && j <= n
    ensures RegistersHidden(k, s, j)
  {
    hide RegisterShows, Run;
  }

  lemma {:induction false} NotWaiting(k: Kernel, p: Process, slices: seq<nat>)
    requires !p.Waiting?
    ensures Slices(k, p, slices) == p && !StateIn(p).Running?
    decreases |slices|
  {
    hide Abs;
    if slices != [] { NotWaiting(k, p, slices[1..]); }
  }

  /** Two ways of cutting the same run come to the same. */
  lemma {:induction false} SlicingsAgree(k: Kernel, p: Process, one: seq<nat>, other: seq<nat>)
    requires Ready(k, p) && (forall n | n in one :: n > 0) && (forall n | n in other :: n > 0) && Steps(one) == Steps(other)
    requires RegistersHidden(k, StateIn(p), Steps(one)) && !Run(k, true, StateIn(p), Steps(one)).Strayed?
    ensures StateIn(Slices(k, p, one)) == StateIn(Slices(k, p, other))
  {
    hide Ready, StateIn, Slices, RegistersHidden, Run;
    SlicesCompose(k, p, one);
    SlicesCompose(k, p, other);
  }
}
