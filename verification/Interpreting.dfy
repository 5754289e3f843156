/** The loop of `execute`, as it is run: memory, a process, registers. */
module Interpreting {
  import opened Options
  import opened Bytecode
  import opened Syntax
  import opened Values
  import opened Contexts
  import opened Registers
  import opened Loop
  import opened Slicing

  datatype Status = Continues | Returned | Broken

  class Interpreter {
    const k: Kernel

    // Memory.
    var frames: map<nat, Frame>
    var stacks: map<nat, seq<Value>>
    var w: Store
    var next: nat

    // The process.
    var contextInProcess: Option<nat>
    var resultInProcess: Value

    // Registers; four of the last are 0 until needed.
    var context: nat
    var method_: nat
    var bytePointer: nat
    var stack: nat
    var stackTop: nat
    var arguments: Option<seq<Value>>
    var temporaries: Option<nat>
    var literals: Option<nat>
    var instanceVariables: Option<Value>
    var returnedValue: Value

    /** Whether the registers hold the current context, and the contexts that control has left. */
    ghost var loaded: bool
    ghost var left: set<nat>

    ghost function Now(): Regs
      reads this
    {
      Regs(frames, stacks, w, next, context, method_, bytePointer, stack, stackTop, loaded,
           Spare(arguments, temporaries, literals, instanceVariables, returnedValue), left)
    }

    ghost predicate Valid()
      reads this
    {
      Sound(k, Now())
    }

    /** What an instruction has led to. */
    ghost function Led(st: Status): Outcome
      reads this
    {
      match st
      case Continues => Going(Now())
      case Returned => Over(resultInProcess, Now())
      case Broken => Bad
    }

    /** A process with one context, about to run a method. */
    constructor (kernel: Kernel, world: Store, m: nat, args: seq<Value>, temps: nat)
      ensures k == kernel && Ready(k, ToRun())
      ensures StateIn(ToRun()) == Running(0, VM(map[0 := Context(m, args, temps, [], 0, None, None, 0, 0)], world, 1, {}))
    {
      k := kernel;
      frames := map[0 := Frame(m, args, temps, 0, 0, 0, None, None, 0, 0)];
      stacks := map[0 := Blank(kernel.stackSize(m))];
      w, next := world, 1;
      contextInProcess, resultInProcess := Some(0), Nil;
      context, method_, bytePointer, stack, stackTop := 0, 0, 0, 0, 0;
      arguments, temporaries, literals, instanceVariables, returnedValue := None, None, None, None, Nil;
      loaded, left := false, {};
    }

    // ---- The stack ---------------------------------------------------------------------------------------

    method DoPush(v: Value) returns (st: Status)
      requires stack in stacks
      modifies `stacks, `stackTop
      ensures Led(st) == Pushing(old(Now()), v)
      ensures !st.Returned?
    {
      if stackTop >= |stacks[stack]| { return Broken; }
      stacks := stacks[stack := stacks[stack][stackTop := v]];
      stackTop := stackTop + 1;
      return Continues;
    }

    /** A value is computed, and pushed. */
    method PushResult(v: Value) returns (st: Status)
      requires stack in stacks
      modifies `stacks, `stackTop, `returnedValue
      ensures Led(st) == Pushing(Holding(old(Now()), v), v)
      ensures !st.Returned?
    {
      returnedValue := v;
      st := DoPush(returnedValue);
    }

    /** n values are popped, and one is pushed. */
    method Replace(n: nat, v: Value) returns (st: Status)
      requires stack in stacks
      modifies `stacks, `stackTop
      ensures Led(st) == Replacing(old(Now()), n, v)
      ensures !st.Returned?
    {
      if n > stackTop { return Broken; }
      stackTop := stackTop - n;
      st := DoPush(v);
    }

    /** n values are popped, and one is computed and pushed. */
    method ReplaceBy(n: nat, v: Value) returns (st: Status)
      requires stack in stacks
      modifies `stacks, `stackTop, `returnedValue
      ensures Led(st) == Replacing(Holding(old(Now()), v), n, v)
      ensures !st.Returned?
    {
      returnedValue := v;
      st := Replace(n, v);
    }

    method TopOfStack() returns (v: Value)
      requires Valid() && stackTop > 0
      ensures v == TopValue(Now())
    {
      Bounds(k, Now());
      hide Sound;
      return stacks[stack][stackTop - 1];
    }

    /** The n topmost values. */
    method TakeValues(n: nat) returns (vs: seq<Value>)
      requires Valid() && n <= stackTop
      ensures vs == TopValues(Now(), n) && |vs| == n
    {
      Bounds(k, Now());
      hide Sound;
      return stacks[stack][stackTop - n..stackTop];
    }

    // ---- Registers filled when needed --------------------------------------------------------------------

    method LoadArguments()
      requires context in frames
      modifies `arguments
      ensures Now() == WithArguments(old(Now())) && arguments == Some(ArgumentsOf(old(Now())))
    {
      if arguments.None? { arguments := Some(frames[context].args); }
    }

    method LoadReceiver()
      requires context in frames
      modifies `arguments, `instanceVariables
      ensures Now() == WithReceiver(old(Now())) && instanceVariables == Some(ReceiverOf(old(Now())))
    {
      if arguments.None? { arguments := Some(frames[context].args); }
      if instanceVariables.None? { instanceVariables := Some(First(arguments.value)); }
    }

    method LoadTemporaries()
      requires context in frames
      modifies `temporaries
      ensures Now() == WithTemporaries(old(Now())) && temporaries == Some(TemporariesOf(old(Now())))
    {
      if temporaries.None? { temporaries := Some(frames[context].temps); }
    }

    method LoadLiterals()
      modifies `literals
      ensures Now() == WithLiterals(old(Now())) && literals == Some(LiteralsOf(old(Now())))
    {
      if literals.None? { literals := Some(method_); }
    }

    // ---- Returns -----------------------------------------------------------------------------------------

    /** doReturn2: the value goes to a context, or ends the process. */
    method DoReturn(to: Option<nat>, v: Value) returns (st: Status)
      requires Valid()
      modifies this
      ensures Led(st) == Returning(old(Now()), to, v)
      ensures st.Returned? ==> contextInProcess.None?
    {
      ghost var r := Now();
      match to {
        case None =>
          left, loaded := left + {context}, false;
          contextInProcess, resultInProcess := None, v;
          return Returned;
        case Some(t) =>
          if t !in frames { return Broken; }
          EnteredSound(k, r, t);
          left := left + {context} - {t};
          LoadRegisters(t);
          assert Now() == Entered(r, t);
          hide Entered;
          Bounds(k, Now());
          st := PushResult(v);
      }
    }

    /** The registers are those of a context; the spare ones are as a run starts. */
    method LoadRegisters(t: nat)
      requires t in frames
      modifies `context, `method_, `bytePointer, `stack, `stackTop, `arguments, `temporaries, `literals, `instanceVariables, `returnedValue, `loaded
      ensures Now() == Loaded(old(Now()), t)
    {
      var f := frames[t];
      context, stack, stackTop, method_, bytePointer := t, f.slots, f.top, f.method_, f.pc;
      arguments, instanceVariables, literals, temporaries, returnedValue := None, None, None, None, Nil;
      loaded := true;
    }

    /** Where a return through the creating context of the current one goes. */
    method Home() returns (to: Option<Option<nat>>)
      requires context in frames
      ensures to == HomeTarget(Now())
    {
      var home := frames[context].creating;
      return if home.Some? && home.value in frames then Some(frames[home.value].previous) else None;
    }

    // ---- Blocks and primitives ---------------------------------------------------------------------------

    method PushBlockAt(argLoc: nat, target: nat) returns (st: Status)
      requires Valid()
      modifies this
      ensures old(context in frames) && Led(st) == Executing(k, old(Now()), PushBlock(argLoc, target))
      ensures !st.Returned?
    {
      ghost var r := Now();
      Bounds(k, r);
      BlockedSound(k, r, argLoc);
      var n := next;
      MakeBlock(argLoc);
      bytePointer := target;
      assert Now() == Blocked(k, r, argLoc).(bytePointer := target);
      hide Blocked, Sound;
      Bounds(k, Blocked(k, r, argLoc));
      st := DoPush(Object(n));
    }

    method MakeBlock(argLoc: nat)
      requires context in frames
      modifies `frames, `stacks, `next, `arguments, `temporaries, `literals, `instanceVariables, `returnedValue, `left
      ensures Now() == Blocked(k, old(Now()), argLoc)
    {
      hide Blank;
      var f, n := frames[context], next;
      var home := if f.creating.Some? then f.creating else Some(context);
      var block := Frame(f.method_, f.args, f.temps, n, 0, 0, None, home, argLoc, bytePointer);
      NewContext(block, Blank(k.stackSize(f.method_)));
      left := left + {n};
      SetRegisters(Some(f.args), Some(f.temps), Object(n));
    }

    /** A context and its stack are made. */
    method NewContext(f: Frame, slots: seq<Value>)
      modifies `frames, `stacks, `next
      ensures Now() == old(Now().(frames := frames[next := f], stacks := stacks[next := slots], next := next + 1))
    {
      frames, stacks, next := frames[next := f], stacks[next := slots], next + 1;
    }

    method SetRegisters(a: Option<seq<Value>>, t: Option<nat>, v: Value)
      modifies `arguments, `temporaries, `literals, `instanceVariables, `returnedValue
      ensures Now() == old(Now()).(spare := Spare(a, t, None, None, v))
    {
      arguments, temporaries, literals, instanceVariables, returnedValue := a, t, None, None, v;
    }

    /** Primitive 8: the block becomes the current context. */
    method InvokeBlock(argCount: nat) returns (st: Status)
      requires Valid()
      modifies this
      ensures old(context in frames) && Led(st) == Invoking(k, old(Now()), argCount)
      ensures !st.Returned?
    {
      ghost var r := Now();
      Bounds(k, r);
      hide Sound, TopValues;
      NoValues(k, r, argCount);
      if argCount == 0 || stackTop < argCount { return Broken; }
      var vals := TakeValues(argCount);
      if !vals[argCount - 1].Object? { return Broken; }
      var b := vals[argCount - 1].id;
      if b !in frames || frames[b].creating.None? { return Broken; }
      var entered := k.enterBlock(w, frames[b].temps, frames[b].argLoc, vals[..argCount - 1]);
      if entered.None? {
        st := Refuse(b, argCount);
      } else {
        SwitchTo(b, entered.value);
        st := Continues;
      }
    }

    /** The block has no room for its arguments, but its temporaries are in the register by now. */
    method Refuse(b: nat, argCount: nat) returns (st: Status)
      requires b in frames && stack in stacks
      modifies `stacks, `stackTop, `temporaries, `returnedValue
      ensures Led(st) == Replacing(Refused(old(Now()), b), argCount, Nil)
      ensures !st.Returned?
    {
      temporaries := if frames[b].temps == NO_TEMPORARIES then None else Some(frames[b].temps);
      st := ReplaceBy(argCount, Nil);
    }

    method SwitchTo(b: nat, w': Store)
      requires b in frames && context in frames
      modifies this
      ensures Now() == Invoked(old(Now()), b, w')
    {
      var f := frames[b].(previous := frames[context].previous);
      left := left + {context} - {b};
      frames, w := frames[b := f], w';
      LoadBlock(b);
      SetRegisters(None, Some(f.temps), Object(b));
    }

    method LoadBlock(b: nat)
      requires b in frames
      modifies `context, `method_, `bytePointer, `stack, `stackTop, `loaded
      ensures var f := frames[b];
              Now() == old(Now()).(context := b, method_ := f.method_, bytePointer := f.start, stack := f.slots, stackTop := 0, loaded := true)
    {
      var f := frames[b];
      context, stack, stackTop, method_, bytePointer := b, f.slots, 0, f.method_, f.start;
      loaded := true;
    }

    /** Any other primitive.  One that succeeds returns its value for the context; one of the library that
        fails leaves its own arguments in the register for the arguments. */
    method DoPrimitiveOf(argCount: nat, number: nat) returns (st: Status)
      requires Valid() && number != 8
      modifies this
      ensures old(context in frames) && Led(st) == Executing(k, old(Now()), DoPrimitive(argCount, number))
      ensures st.Returned? ==> contextInProcess.None?
    {
      Bounds(k, Now());
      hide Sound, TopValues;
      if stackTop < argCount { return Broken; }
      var vals := TakeValues(argCount);
      var answer := k.primitive(w, number, vals);
      WorldMeans(k, Now(), answer.w);
      w := answer.w;
      match answer {
        case Done(v, _) => st := DoReturn(frames[context].previous, if number == FLUSH_CACHE then returnedValue else v);
        case Failed(_, popped) => st := ReplaceBy(popped, Nil);
        case LibraryFailed(_) =>
          arguments := Some(vals);
          st := ReplaceBy(argCount, Nil);
      }
    }

    // ---- Sends -------------------------------------------------------------------------------------------

    /** The method is found, the caller's registers are saved, and a new context becomes current.  What
        follows the send decides where it returns to. */
    method SendTo(from: Option<nat>, args: seq<Value>, selector: Value) returns (st: Status)
      requires context in frames
      modifies this
      ensures Led(st) == Calling(k, old(Now()), from, args, selector)
      ensures !st.Returned?
    {
      hide FindCallee;
      if args == [] { return Broken; }
      var callee := FindCallee(k, w, from, args, selector);
      if callee.NoMethod? { return Broken; }
      var link := TailLink();
      if link.None? { return Broken; }
      var (t, w') := k.newTemporaries(w, callee.method_);
      EnterMethod(callee.method_, callee.args, t, w', link.value);
      return Continues;
    }

    /** Where the callee returns to: the caller, or past it. */
    method TailLink() returns (link: Option<Option<nat>>)
      requires context in frames
      ensures link == LinkOf(k, Now())
    {
      var b := ByteAt(k.bytes(method_), bytePointer);
      if b == STACK_RETURN { return Some(frames[context].previous); }
      if b == BLOCK_RETURN { link := Home(); } else { link := Some(Some(context)); }
    }

    method EnterMethod(m: nat, args: seq<Value>, temps: nat, w': Store, link: Option<nat>)
      requires context in frames
      modifies this
      ensures Now() == Called(k, old(Now()), m, args, temps, w', link)
    {
      hide Blank;
      var n, value := next, returnedValue;
      SaveRegisters();
      NewContext(Frame(m, args, temps, n, 0, 0, link, None, 0, 0), Blank(k.stackSize(m)));
      w := w';
      LoadRegisters(n);
      SetRegisters(Some(args), Some(temps), value);
    }

    method SaveRegisters()
      requires context in frames
      modifies `frames
      ensures Now() == Saved(old(Now()))
    {
      frames := frames[context := frames[context].(top := stackTop, pc := bytePointer)];
    }

    /** SendMessage and SendToSuper: the array of arguments is popped. */
    method SendFromStack(from: Option<nat>, n: nat) returns (st: Status)
      requires Valid()
      modifies this
      ensures old(context in frames) && Led(st) == Sending(k, old(Now()), from, n)
      ensures !st.Returned?
    {
      ghost var r := Now();
      Bounds(k, r);
      hide Sound, TopValue, Calling;
      if stackTop == 0 { return Broken; }
      var array_ := TopOfStack();
      if !array_.Arguments? { return Broken; }
      LoadLiterals();
      var messageSelector := k.literal(literals.value, n);
      stackTop := stackTop - 1;
      assert Now() == Popped(WithLiterals(r), 1);
      st := SendTo(from, array_.vals, messageSelector);
    }

    /** SendBinary: small integers at once, anything else as a send. */
    method SendBinaryOf(low: nat) returns (st: Status)
      requires Valid()
      modifies this
      ensures old(context in frames) && Led(st) == SendingBinary(k, old(Now()), low)
      ensures !st.Returned?
    {
      ghost var r := Now();
      Bounds(k, r);
      NoValues(k, r, 2);
      hide Sound, TopValues, Calling;
      if stackTop < 2 || low > 2 { return Broken; }
      var s := TakeValues(2);
      if s[0].SmallInt? && s[1].SmallInt? {
        st := ReplaceBy(2, if low == 0 then Bool(s[0].i < s[1].i) else if low == 1 then Bool(s[0].i <= s[1].i) else SmallInt(s[0].i + s[1].i));
      } else {
        stackTop := stackTop - 2;
        assert Now() == Popped(r, 2);
        st := SendTo(None, s, Symbol(BINARY_NAMES[low]));
      }
    }

    // ---- The loop ----------------------------------------------------------------------------------------

    method DoVariable(i: Instr) returns (st: Status)
      requires Valid() && Variable(i)
      modifies this
      ensures old(context in frames) && Led(st) == Executing(k, old(Now()), i)
      ensures !st.Returned?
    {
      Bounds(k, Now());
      hide Sound, TopValue, Constant;
      if (i.AssignInstance? || i.AssignTemporary?) && stackTop == 0 { return Broken; }
      match i {
        case PushInstance(low) =>
          LoadReceiver();
          st := DoPush(k.field(w, instanceVariables.value, low));
        case PushArgument(low) =>
          LoadArguments();
          st := DoPush(if low < |arguments.value| then arguments.value[low] else Nil);
        case PushTemporary(low) =>
          LoadTemporaries();
          st := DoPush(k.temporary(w, temporaries.value, low));
        case PushLiteral(low) =>
          LoadLiterals();
          st := DoPush(k.literal(literals.value, low));
        case PushConstant(low) => st := DoPush(Constant(low));
        case AssignInstance(low) =>
          var v := TopOfStack();
          LoadReceiver();
          w := k.setField(w, instanceVariables.value, low, v);
          st := Continues;
        case AssignTemporary(low) =>
          var v := TopOfStack();
          LoadTemporaries();
          w := k.setTemporary(w, temporaries.value, low, v);
          st := Continues;
      }
    }

    method DoOnStack(i: Instr) returns (st: Status)
      requires Valid() && OnStack(i)
      modifies this
      ensures old(context in frames) && Led(st) == Executing(k, old(Now()), i)
      ensures !st.Returned?
    {
      Bounds(k, Now());
      hide Sound, TopValue, TopValues, Unary;
      if i.Breakpoint? { return Broken; }
      if i.MarkArguments? {
        if stackTop < i.n { return Broken; }
        var vals := TakeValues(i.n);
        arguments := None;
        st := Replace(i.n, Arguments(vals));
      } else if i.SendUnary? || i.Duplicate? {
        if stackTop == 0 { return Broken; }
        var v := TopOfStack();
        if i.SendUnary? { st := ReplaceBy(1, Unary(i.n, v)); } else { st := PushResult(v); }
      } else {
        hide Executing;
        st := DoJump(i);
      }
    }

    method PopAndGo(target: nat)
      requires stackTop > 0
      modifies `stackTop, `bytePointer
      ensures Now() == old(Popped(Now(), 1)).(bytePointer := target)
    {
      stackTop, bytePointer := stackTop - 1, target;
    }

    method DoJump(i: Instr) returns (st: Status)
      requires Valid() && (i.PopTop? || i.Branch? || i.BranchIfTrue? || i.BranchIfFalse?)
      modifies `stackTop, `bytePointer, `returnedValue
      ensures old(context in frames) && Led(st) == Executing(k, old(Now()), i)
      ensures !st.Returned?
    {
      Bounds(k, Now());
      JumpIs(k, Now(), i);
      hide Sound, TopValue, Executing;
      if i.Branch? {
        bytePointer := i.target;
        return Continues;
      }
      if stackTop == 0 { return Broken; }
      var v := TopOfStack();
      if !i.PopTop? { returnedValue := v; }
      PopAndGo(if Jumps(i, v) then i.target else bytePointer);
      return Continues;
    }

    method DoReturnOf(i: Instr) returns (st: Status)
      requires Valid() && Returns(i)
      modifies this
      ensures old(context in frames) && Led(st) == Executing(k, old(Now()), i)
      ensures st.Returned? ==> contextInProcess.None?
    {
      Bounds(k, Now());
      hide Sound, TopValue, HomeTarget, Returning;
      if i.SelfReturn? {
        st := DoReturn(frames[context].previous, First(if arguments.Some? then arguments.value else frames[context].args));
        return;
      }
      if stackTop == 0 { return Broken; }
      var v := TopOfStack();
      if i.StackReturn? {
        st := DoReturn(frames[context].previous, v);
      } else {
        var to := Home();
        if to.None? { return Broken; }
        st := DoReturn(to.value, v);
      }
    }

    method Dispatch(i: Instr) returns (st: Status)
      requires Valid()
      modifies this
      ensures old(context in frames) && Led(st) == Executing(k, old(Now()), i)
      ensures st.Returned? ==> contextInProcess.None?
    {
      Bounds(k, Now());
      hide Sound, Sending, SendingBinary, Invoking;
      if Variable(i) {
        st := DoVariable(i);
      } else if OnStack(i) {
        st := DoOnStack(i);
      } else if Returns(i) {
        st := DoReturnOf(i);
      } else {
        match i {
          case SendMessage(low) => st := SendFromStack(None, low);
          case SendToSuper(low) => st := SendFromStack(Some(method_), low);
          case SendBinary(low) => st := SendBinaryOf(low);
          case PushBlock(argLoc, target) => st := PushBlockAt(argLoc, target);
          case DoPrimitive(argCount, number) =>
            if number == 8 { st := InvokeBlock(argCount); } else { st := DoPrimitiveOf(argCount, number); }
        }
      }
    }

    /** Fetch, decode, dispatch. */
    method Instruction() returns (st: Status)
      requires Valid()
      modifies this
      ensures Led(st) == Stepping(k, old(Now()))
      ensures st.Returned? ==> contextInProcess.None?
      ensures st.Continues? ==> Valid()
    {
      ghost var r := Now();
      Bounds(k, r);
      SteppingInOrder(k, r);
      hide Decode, Executing, Sound, Memory;
      var d := Decode(k.bytes(method_), bytePointer);
      if d.Invalid? { return Broken; }
      JumpMeans(k, r, d.next);
      bytePointer := d.next;
      assert Now() == r.(bytePointer := d.next);
      st := Dispatch(d.instr);
    }

    /** The process between runs. */
    ghost function ToRun(): Process
      reads this
    {
      if contextInProcess.Some? then Waiting(contextInProcess.value, Now()) else Finished(resultInProcess, Now())
    }

    /** What a run has led to. */
    ghost function After(st: Status): Process
      reads this
    {
      if st.Broken? then Wrecked else ToRun()
    }

    /** execute, for a number of ticks that is not 0. */
    method Execute(n: nat) returns (st: Status)
      requires Ready(k, ToRun()) && n > 0
      modifies this
      ensures After(st) == Slice(k, old(ToRun()), n)
      ensures st == if After(st).Waiting? then Continues else if After(st).Finished? then Returned else Broken
      ensures st.Continues? ==> Ready(k, ToRun())
    {
      SliceIs(k, ToRun(), n);
      hide Sound, Memory, Ready, Looping, Slice, Loaded;
      LoadRegisters(contextInProcess.value);
      st := LoopFor(n);
    }

    /** The loop, until the ticks expire. */
    method LoopFor(n: nat) returns (st: Status)
      requires Valid() && n > 0
      modifies this
      ensures After(st) == match Looping(k, Going(old(Now())), n - 1)
                           case Going(r) => Suspended(r)
                           case Over(v, r) => Finished(v, r)
                           case Bad => Wrecked
      ensures st == if After(st).Waiting? then Continues else if After(st).Finished? then Returned else Broken
      ensures st.Continues? ==> Ready(k, ToRun())
    {
      hide Sound, Memory, Ready, Stepping, Looping, Suspended;
      ghost var r := Now();
      var ticks := n;
      st := Continues;
      while true
        invariant ticks > 0 && Valid() && Looping(k, Going(r), n - 1) == Looping(k, Going(Now()), ticks - 1)
        decreases ticks
      {
        LoopingStep(k, Now(), ticks - 1);
        ticks := ticks - 1;
        if ticks == 0 {
          Suspend();
          return Continues;
        }
        st := Instruction();
        if !st.Continues? {
          LoopingOver(k, Led(st), ticks - 1);
          return;
        }
      }
    }

    /** A tick expires: the registers go back into the context. */
    method Suspend()
      requires Valid()
      modifies `frames, `loaded, `contextInProcess, `resultInProcess
      ensures ToRun() == Suspended(old(Now())) && ToRun().Waiting? && Ready(k, ToRun())
    {
      SavedMeans(k, Now());
      Bounds(k, Now());
      hide Sound, Memory;
      contextInProcess, resultInProcess := Some(context), returnedValue;
      SaveRegisters();
      loaded := false;
    }

    /** The process is run again as long as it has neither ended nor failed.  It comes to what the contexts alone
        say for so many instructions, unless a return strays or a register shows. */
    method ExecuteInSlices(slices: seq<nat>) returns (st: Status)
      requires Ready(k, ToRun()) && forall n | n in slices :: n > 0
      modifies this
      ensures After(st) == Slices(k, old(ToRun()), slices)
      ensures RegistersHidden(k, old(StateIn(ToRun())), Steps(slices)) && !Run(k, true, old(StateIn(ToRun())), Steps(slices)).Strayed? ==>
                StateIn(After(st)) == Run(k, true, old(StateIn(ToRun())), Steps(slices))
    {
      ghost var p := ToRun();
      if RegistersHidden(k, StateIn(p), Steps(slices)) && !Run(k, true, StateIn(p), Steps(slices)).Strayed? {
        SlicesCompose(k, p, slices);
      }
      hide Ready, Slice, RegistersHidden, Run, StateIn, Steps;
      st := Continues;
      var i := 0;
      assert slices[0..] == slices;
      while i < |slices|
        invariant i <= |slices| && st.Continues? && Ready(k, ToRun())
        invariant Slices(k, ToRun(), slices[i..]) == Slices(k, p, slices)
      {
        assert slices[i..][0] == slices[i] && slices[i..][1..] == slices[i + 1..];
        assert slices[i] in slices;
        ghost var q := ToRun();
        st := Execute(slices[i]);
        if !st.Continues? {
          NotWaiting(k, After(st), slices[i + 1..]);
          return;
        }
        i := i + 1;
      }
      assert slices[i..] == [];
    }
  }

  predicate Jumps(i: Instr, v: Value) {
    (i.BranchIfTrue? && v == True) || (i.BranchIfFalse? && v == False)
  }

  lemma {:induction false} JumpIs(k: Kernel, r: Regs, i: Instr)
    requires r.context in r.frames && (i.PopTop? || i.Branch? || i.BranchIfTrue? || i.BranchIfFalse?)
    ensures Executing(k, r, i) ==
            if i.Branch? then Going(r.(bytePointer := i.target))
            else if r.stackTop == 0 then Bad
            else Going(Popped(if i.PopTop? then r else Holding(r, TopValue(r)), 1).(bytePointer := if Jumps(i, TopValue(r)) then i.target else r.bytePointer))
  {
    hide TopValue;
  }
}
