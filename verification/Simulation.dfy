/** Compiled code does what the parse tree means: the machine, started on the code of a node, reaches the
    node's outcome, one value higher, without ever overflowing a stack of the size the tree needs. */
module Simulation {
  import opened Bytecode
  import opened Syntax
  import opened Values
  import opened CodeGen
  import opened Evaluator
  import opened Machine
  import opened StackDepth

  ghost predicate CodeAt(p: Program, at: nat, code: seq<Instr>) {
    BytesAt(p.bytes, at, Assemble(code)) && AllEncodable(code)
  }

  /** g stands at `at` in the program, whose literals go on from those of g. */
  ghost predicate GenAt(p: Program, at: nat, g: Gen) {
    CodeAt(p, at, g.code) && g.lits <= p.lits
  }

  /** After k steps the machine has come to the outcome.  A tree that needs more than `fuel` rounds of
      some loop is still running after that many steps. */
  ghost predicate Reaches(p: Program, m: State, k: nat, o: Outcome, end: nat, base: seq<Value>, fuel: nat) {
    match o
    case Normal(v, w) => Run(p, m, k) == Running(end, base + [v], w)
    case Exit(kind, v, w) => Run(p, m, k) == Exited(kind, v, w)
    case Never => Run(p, m, k) == Diverged
    case Miscounts => Miscounting(p, Run(p, m, k))
    case Timeout => k >= fuel && Run(p, m, k).Running?
  }

  lemma {:induction false} CodeAtSplit(p: Program, at: nat, a: seq<Instr>, b: seq<Instr>)
    ensures CodeAt(p, at, a + b) <==> CodeAt(p, at, a) && CodeAt(p, at + Len(a), b)
    ensures Len(a + b) == Len(a) + Len(b)
  {
    hide Encode, Assemble, BytesAt, Encodable, Known;
    AssembleAppend(a, b);
    BytesAtSplit(p.bytes, at, Assemble(a), Assemble(b));
    assert forall i :: i in a + b <==> i in a || i in b;
  }

  lemma {:induction false} CodeAtSplit3(p: Program, at: nat, a: seq<Instr>, b: seq<Instr>, c: seq<Instr>)
    ensures CodeAt(p, at, a + b + c) <==> CodeAt(p, at, a) && CodeAt(p, at + Len(a), b) && CodeAt(p, at + Len(a) + Len(b), c)
    ensures Len(a + b + c) == Len(a) + Len(b) + Len(c)
  {
    hide CodeAt, Len;
    CodeAtSplit(p, at, a, b);
    CodeAtSplit(p, at, a + b, c);
  }

  /** One instruction. */
  lemma {:induction false} Execute(p: Program, at: nat, i: Instr, stack: seq<Value>, w: World)
    requires CodeAt(p, at, [i])
    ensures Run(p, Running(at, stack, w), 1) == Exec(p, i, at + Len([i]), stack, w)
    ensures Len([i]) == |Encode(i)|
  {
    hide Encode, Exec, Encodable, Known, BytesAt, Step;
    var m := Running(at, stack, w);
    assert Run(p, Step(p, m), 0) == Step(p, m);
    assert [i][1..] == [] && Assemble([i]) == Encode(i);
    assert i in [i];
    StepAt(p, at, i, stack, w);
  }

  lemma {:induction false} After(p: Program, m: State, j: nat, mid: State, k: nat, o: Outcome, end: nat, base: seq<Value>, fuel: nat)
    requires Run(p, m, j) == mid && Reaches(p, mid, k, o, end, base, fuel)
    ensures Reaches(p, m, j + k, o, end, base, fuel)
  {
    hide Step, Run;
    RunAdd(p, m, j, k);
  }

  lemma {:induction false} LiteralIndex(lits: seq<Value>, v: Value)
    ensures IndexOf(lits, v) < |WithLiteral(lits, v)| && WithLiteral(lits, v)[IndexOf(lits, v)] == v
  {}

  lemma {:induction false} LiteralPrefix(lits: seq<Value>, v: Value)
    ensures lits <= WithLiteral(lits, v)
  {}

  // ---- One lemma per way of compiling ------------------------------------------------------------

  /** A variable, or the value already there. */
  lemma {:induction false} SimLeaf(p: Program, n: Node, open: bool, b: bool, at: nat, lits: seq<Value>, base: seq<Value>, top: Value, w: World, fuel: nat)
    returns (k: nat)
    requires n.Top? || n.Argument? || n.Temporary? || n.Instance?
    requires open <==> n.Top?
    requires GenAt(p, at, GenNode(n, b, at, lits)) && |base| + 1 <= p.stackSize
    ensures Reaches(p, Running(at, if open then base + [top] else base, w), k, Eval(p.env, n, b, at, lits, top, w, fuel),
                    at + Len(GenNode(n, b, at, lits).code), base, fuel)
  {
    hide Step, CodeAt, Len;
    LenNothing();
    var g := GenNode(n, b, at, lits);
    if n.Top? {
      k := 0;
    } else {
      k := 1;
      assert g.code == [g.code[0]];
      Execute(p, at, g.code[0], base, w);
    }
  }

  lemma {:induction false} SimLiteral(p: Program, n: Node, b: bool, at: nat, lits: seq<Value>, base: seq<Value>, top: Value, w: World, fuel: nat)
    returns (k: nat)
    requires n.Literal? && GenAt(p, at, GenNode(n, b, at, lits)) && |base| + 1 <= p.stackSize
    ensures Reaches(p, Running(at, base, w), k, Eval(p.env, n, b, at, lits, top, w, fuel),
                    at + Len(GenNode(n, b, at, lits).code), base, fuel)
  {
    hide CodeAt, Run, Len, GenNode, Eval, GenLiteralNode, Exec;
    LiteralNode(p.env, n, b, at, lits, top, w, fuel);
    var v := n.value;
    var g := GenLiteralNode(v, lits);
    k := 1;
    LiteralExec(p, v, lits, at + Len(g.code), base, w);
    Execute(p, at, g.code[0], base, w);
  }

  lemma {:induction false} LiteralNode(env: Env, n: Node, b: bool, at: nat, lits: seq<Value>, top: Value, w: World, fuel: nat)
    requires n.Literal?
    ensures GenNode(n, b, at, lits) == GenLiteralNode(n.value, lits) && Eval(env, n, b, at, lits, top, w, fuel) == Normal(n.value, w)
  {}

  /** The instruction for a literal pushes just that value. */
  lemma {:induction false} LiteralExec(p: Program, v: Value, lits: seq<Value>, next: nat, stack: seq<Value>, w: World)
    requires GenLiteralNode(v, lits).lits <= p.lits
    ensures var code := GenLiteralNode(v, lits).code;
            |code| == 1 && code == [code[0]] && Exec(p, code[0], next, stack, w) == Push(p, next, stack, v, w)
  {
    LiteralIndex(lits, v);
  }

  lemma {:induction false} ThenExecute(p: Program, m: State, j: nat, at: nat, i: Instr, stack: seq<Value>, w: World)
    requires Run(p, m, j) == Running(at, stack, w) && CodeAt(p, at, [i])
    ensures Run(p, m, j + 1) == Exec(p, i, at + Len([i]), stack, w)
    ensures Len([i]) == |Encode(i)|
  {
    hide Step, Run, Exec, CodeAt, Encode;
    Execute(p, at, i, stack, w);
    RunAdd(p, m, j, 1);
  }

  ghost predicate Ready(p: Program, n: Node, open: bool, b: bool, at: nat, lits: seq<Value>, base: seq<Value>) {
    && (if open then n.Top? || Open(n) else Closed(n))
    && GenAt(p, at, GenNode(n, b, at, lits))
    && |base| + Peak(n) <= p.stackSize
  }

  function Begin(open: bool, at: nat, base: seq<Value>, top: Value, w: World): State {
    Running(at, if open then base + [top] else base, w)
  }

  lemma {:induction false} SimNode(p: Program, n: Node, open: bool, b: bool, at: nat, lits: seq<Value>, base: seq<Value>, top: Value, w: World, fuel: nat)
    returns (k: nat)
    requires Ready(p, n, open, b, at, lits, base)
    ensures Reaches(p, Begin(open, at, base, top, w), k, Eval(p.env, n, b, at, lits, top, w, fuel),
                    at + Len(GenNode(n, b, at, lits).code), base, fuel)
    decreases n, 3, fuel
  {
    hide Reaches, GenNode, Eval, GenAt, Len;
    PeakPositive(n);
    match n
    case Assign(_, _) => k := SimAssign(p, n, b, at, lits, base, top, w, fuel);
    case Message(_, _, _) => k := SimMessage(p, n, open, b, at, lits, base, top, w, fuel);
    case Cascade(_, _) => k := SimCascade(p, n, b, at, lits, base, top, w, fuel);
    case Primitive(_, _) => k := SimPrimitive(p, n, b, at, lits, base, top, w, fuel);
    case Block(_, _) => k := SimBlock(p, n, b, at, lits, base, top, w, fuel);
    case Return(_) => k := SimReturn(p, n, b, at, lits, base, top, w, fuel);
    case Literal(_) => k := SimLiteral(p, n, b, at, lits, base, top, w, fuel);
    case _ => k := SimLeaf(p, n, open, b, at, lits, base, top, w, fuel);
  }

  lemma {:induction false} AssignParts(p: Program, n: Node, b: bool, at: nat, lits: seq<Value>, base: seq<Value>, top: Value, w: World, fuel: nat)
    requires n.Assign? && Ready(p, n, false, b, at, lits, base)
    ensures var g := GenNode(n.expression, b, at, lits);
            && Ready(p, n.expression, false, b, at, lits, base)
            && CodeAt(p, at + Len(g.code), [AssignTo(n.target)])
            && Len(GenNode(n, b, at, lits).code) == Len(g.code) + Len([AssignTo(n.target)])
    ensures var o, t := Eval(p.env, n.expression, b, at, lits, top, w, fuel), n.target;
            Eval(p.env, n, b, at, lits, top, w, fuel) ==
            if !o.Normal? then o
            else Normal(o.v, if t.Instance? then p.env.setInstance(o.w, Pred(t.position), o.v)
                             else p.env.setTemporary(o.w, if t.Temporary? then Pred(t.position) else 0, o.v))
  {
    hide CodeAt, Len;
    CodeAtSplit(p, at, GenNode(n.expression, b, at, lits).code, [AssignTo(n.target)]);
  }

  lemma {:induction false} SimAssign(p: Program, n: Node, b: bool, at: nat, lits: seq<Value>, base: seq<Value>, top: Value, w: World, fuel: nat)
    returns (k: nat)
    requires n.Assign? && Ready(p, n, false, b, at, lits, base)
    ensures Reaches(p, Running(at, base, w), k, Eval(p.env, n, b, at, lits, top, w, fuel),
                    at + Len(GenNode(n, b, at, lits).code), base, fuel)
    decreases n, 2, fuel
  {
    hide Ready, CodeAt, Len, Run, Encode, GenNode, Eval, Closed;
    AssignParts(p, n, b, at, lits, base, top, w, fuel);
    k := SimNode(p, n.expression, false, b, at, lits, base, top, w, fuel);
    var o := Eval(p.env, n.expression, b, at, lits, top, w, fuel);
    if o.Normal? {
      var g := GenNode(n.expression, b, at, lits);
      ThenExecute(p, Running(at, base, w), k, at + Len(g.code), AssignTo(n.target), base + [o.v], o.w);
      k := k + 1;
    }
  }

  lemma {:induction false} ReturnParts(p: Program, n: Node, b: bool, at: nat, lits: seq<Value>, base: seq<Value>, top: Value, w: World, fuel: nat)
    requires n.Return? && Ready(p, n, false, b, at, lits, base)
    ensures var g, i := GenNode(n.expression, b, at, lits), if b then BlockReturn else StackReturn;
            && Ready(p, n.expression, false, b, at, lits, base)
            && CodeAt(p, at + Len(g.code), [i])
    ensures var o := Eval(p.env, n.expression, b, at, lits, top, w, fuel);
            Eval(p.env, n, b, at, lits, top, w, fuel) == if o.Normal? then Exit(if b then ToHome else ToSender, o.v, o.w) else o
  {
    hide CodeAt, Len;
    CodeAtSplit(p, at, GenNode(n.expression, b, at, lits).code, [if b then BlockReturn else StackReturn]);
  }

  lemma {:induction false} SimReturn(p: Program, n: Node, b: bool, at: nat, lits: seq<Value>, base: seq<Value>, top: Value, w: World, fuel: nat)
    returns (k: nat)
    requires n.Return? && Ready(p, n, false, b, at, lits, base)
    ensures Reaches(p, Running(at, base, w), k, Eval(p.env, n, b, at, lits, top, w, fuel),
                    at + Len(GenNode(n, b, at, lits).code), base, fuel)
    decreases n, 2, fuel
  {
    hide Ready, CodeAt, Len, Run, Encode, GenNode, Eval, Closed;
    ReturnParts(p, n, b, at, lits, base, top, w, fuel);
    k := SimNode(p, n.expression, false, b, at, lits, base, top, w, fuel);
    var o := Eval(p.env, n.expression, b, at, lits, top, w, fuel);
    if o.Normal? {
      var g := GenNode(n.expression, b, at, lits);
      ThenExecute(p, Running(at, base, w), k, at + Len(g.code), if b then BlockReturn else StackReturn, base + [o.v], o.w);
      k := k + 1;
    }
  }

  /** The code of the block is skipped; the block starts right after PushBlock. */
  lemma {:induction false} SimBlock(p: Program, n: Node, b: bool, at: nat, lits: seq<Value>, base: seq<Value>, top: Value, w: World, fuel: nat)
    returns (k: nat)
    requires n.Block? && Ready(p, n, false, b, at, lits, base)
    ensures Reaches(p, Running(at, base, w), k, Eval(p.env, n, b, at, lits, top, w, fuel),
                    at + Len(GenNode(n, b, at, lits).code), base, fuel)
  {
    var g := GenNode(n, b, at, lits);
    hide CodeAt, Run;
    var tl := n.temporaryLocation;
    var entry := at + Len([PushBlock(tl, 0)]);
    var body := GenInline(n.statements, true, entry, lits);
    var i := PushBlock(tl, entry + Len(body.code) + 1);
    assert [PushBlock(tl, 0)][1..] == [] && [i][1..] == [] && [StackReturn][1..] == [];
    assert Len([i]) == Len([PushBlock(tl, 0)]) && Len([StackReturn]) == 1;
    hide Len;
    CodeAtSplit3(p, at, [i], body.code, [StackReturn]);
    Execute(p, at, i, base, w);
    k := 1;
  }

  lemma {:induction false} PrimitiveParts(p: Program, n: Node, b: bool, at: nat, lits: seq<Value>, base: seq<Value>, top: Value, w: World, fuel: nat)
    requires n.Primitive? && Ready(p, n, false, b, at, lits, base)
    ensures var g, i := GenArgs(n.arguments, b, at, lits), DoPrimitive(|n.arguments|, n.number);
            && ReadyArguments(p, n.arguments, b, at, lits, base) && |base| < p.stackSize
            && CodeAt(p, at + Len(g.code), [i])
            && Len(GenNode(n, b, at, lits).code) == Len(g.code) + Len([i])
    ensures var os := EvalArgs(p.env, n.arguments, b, at, lits, w, fuel);
            Eval(p.env, n, b, at, lits, top, w, fuel) ==
            if os.Abrupt? then os.o else FromPrimitive(p.env.primitive(os.w, n.number, os.vs), |n.arguments|)
  {
    hide CodeAt, Len;
    CodeAtSplit(p, at, GenArgs(n.arguments, b, at, lits).code, [DoPrimitive(|n.arguments|, n.number)]);
  }

  lemma {:induction false} SimPrimitive(p: Program, n: Node, b: bool, at: nat, lits: seq<Value>, base: seq<Value>, top: Value, w: World, fuel: nat)
    returns (k: nat)
    requires n.Primitive? && Ready(p, n, false, b, at, lits, base)
    ensures Reaches(p, Running(at, base, w), k, Eval(p.env, n, b, at, lits, top, w, fuel),
                    at + Len(GenNode(n, b, at, lits).code), base, fuel)
    decreases n, 2, fuel
  {
    hide Ready, ReadyArguments, CodeAt, Len, Run, GenNode, GenArgs, Eval, EvalArgs, Reaches, FromPrimitive, Miscounting;
    PrimitiveParts(p, n, b, at, lits, base, top, w, fuel);
    var m := Running(at, base, w);
    k := SimArgs(p, n.arguments, b, at, lits, base, w, fuel);
    var os := EvalArgs(p.env, n.arguments, b, at, lits, w, fuel);
    if os.Normals? {
      var j := SimPrimitiveCall(p, at + Len(GenArgs(n.arguments, b, at, lits).code), |n.arguments|, n.number, base, os.vs, os.w, fuel);
      After(p, m, k, Running(at + Len(GenArgs(n.arguments, b, at, lits).code), base + os.vs, os.w), j,
            FromPrimitive(p.env.primitive(os.w, n.number, os.vs), |n.arguments|), at + Len(GenNode(n, b, at, lits).code), base, fuel);
      k := k + j;
    } else {
      AbruptEnd(p, m, k, os.o, at + Len(GenArgs(n.arguments, b, at, lits).code), at + Len(GenNode(n, b, at, lits).code), base, fuel);
    }
  }

  /** Where the code would go on, and on what, does not matter to an early end. */
  lemma {:induction false} AbruptEnd(p: Program, m: State, k: nat, o: Outcome, end: nat, end': nat, base: seq<Value>, fuel: nat)
    requires !o.Normal? && Reaches(p, m, k, o, end, base, fuel)
    ensures Reaches(p, m, k, o, end', base, fuel)
  {}

  /** The primitive itself, its arguments on the stack. */
  lemma {:induction false} SimPrimitiveCall(p: Program, at: nat, argCount: nat, number: nat, base: seq<Value>, vs: seq<Value>, w: World, fuel: nat)
    returns (k: nat)
    requires CodeAt(p, at, [DoPrimitive(argCount, number)]) && |vs| == argCount && |base| < p.stackSize
    ensures Reaches(p, Running(at, base + vs, w), k, FromPrimitive(p.env.primitive(w, number, vs), argCount),
                    at + Len([DoPrimitive(argCount, number)]), base, fuel)
  {
    hide CodeAt, Len, Run, Encode, Miscounting;
    var i := DoPrimitive(argCount, number);
    assert (base + vs)[..|base|] == base && (base + vs)[|base|..] == vs;
    if FromPrimitive(p.env.primitive(w, number, vs), argCount).Miscounts? {
      k := 0;
      RunNone(p, Running(at, base + vs, w));
      AtPrimitive(p, at, i, base + vs, w);
    } else {
      k := 1;
      Execute(p, at, i, base + vs, w);
    }
  }

  lemma {:induction false} RunNone(p: Program, m: State)
    ensures Run(p, m, 0) == m
  {}

  lemma {:induction false} AtPrimitive(p: Program, at: nat, i: Instr, stack: seq<Value>, w: World)
    requires CodeAt(p, at, [i]) && i.DoPrimitive? && i.argCount <= |stack|
    requires var r := p.env.primitive(w, i.number, stack[|stack| - i.argCount..]); r.Fails? && r.popped != i.argCount
    ensures Miscounting(p, Running(at, stack, w))
  {
    assert [i][1..] == [] && Assemble([i]) == Encode(i);
    assert i in [i];
    EncodeSize(i);
    DecodeEncode(p.bytes, at, i);
    hide Decode, Encode;
  }

  /** The values of the arguments, one above the other. */
  ghost predicate ReachesAll(p: Program, m: State, k: nat, os: Outcomes, count: nat, end: nat, base: seq<Value>, fuel: nat) {
    match os
    case Normals(vs, w) => Run(p, m, k) == Running(end, base + vs, w) && |vs| == count
    case Abrupt(o) => !o.Normal? && Reaches(p, m, k, o, end, base, fuel)
  }

  ghost predicate ReadyArguments(p: Program, args: seq<Node>, b: bool, at: nat, lits: seq<Value>, base: seq<Value>) {
    AllClosed(args) && GenAt(p, at, GenArgs(args, b, at, lits)) && |base| + PeakArguments(args) <= p.stackSize
  }

  lemma {:induction false} ArgsParts(p: Program, args: seq<Node>, b: bool, at: nat, lits: seq<Value>, base: seq<Value>, w: World, fuel: nat)
    requires args != [] && ReadyArguments(p, args, b, at, lits, base)
    ensures var g := GenNode(args[0], b, at, lits);
            var rest := GenArgs(args[1..], b, at + Len(g.code), g.lits);
            && Ready(p, args[0], false, b, at, lits, base)
            && (forall v :: ReadyArguments(p, args[1..], b, at + Len(g.code), g.lits, base + [v]))
            && Len(GenArgs(args, b, at, lits).code) == Len(g.code) + Len(rest.code)
    ensures var o := Eval(p.env, args[0], b, at, lits, Nil, w, fuel);
            EvalArgs(p.env, args, b, at, lits, w, fuel) ==
            if !o.Normal? then Abrupt(o)
            else
              var g := GenNode(args[0], b, at, lits);
              var os := EvalArgs(p.env, args[1..], b, at + Len(g.code), g.lits, o.w, fuel);
              if os.Abrupt? then os else Normals([o.v] + os.vs, os.w)
  {
    hide CodeAt, Len, Eval, GenNode, Closed, Peak;
    var g := GenNode(args[0], b, at, lits);
    CodeAtSplit(p, at, g.code, GenArgs(args[1..], b, at + Len(g.code), g.lits).code);
  }

  lemma {:induction false} NoArguments(p: Program, b: bool, at: nat, lits: seq<Value>, base: seq<Value>, w: World, fuel: nat)
    ensures ReachesAll(p, Running(at, base, w), 0, EvalArgs(p.env, [], b, at, lits, w, fuel), 0, at + Len(GenArgs([], b, at, lits).code), base, fuel)
  {
    assert base + [] == base;
  }

  lemma {:induction false} SimArgs(p: Program, args: seq<Node>, b: bool, at: nat, lits: seq<Value>, base: seq<Value>, w: World, fuel: nat)
    returns (k: nat)
    requires ReadyArguments(p, args, b, at, lits, base)
    ensures ReachesAll(p, Running(at, base, w), k, EvalArgs(p.env, args, b, at, lits, w, fuel), |args|,
                       at + Len(GenArgs(args, b, at, lits).code), base, fuel)
    decreases args, 0, fuel
  {
    hide Ready, ReadyArguments, CodeAt, Len, Run, Encode, GenNode, Eval, GenArgs, EvalArgs;
    if args == [] {
      k := 0;
      NoArguments(p, b, at, lits, base, w, fuel);
      return;
    }
    ArgsParts(p, args, b, at, lits, base, w, fuel);
    k := SimNode(p, args[0], false, b, at, lits, base, Nil, w, fuel);
    var o := Eval(p.env, args[0], b, at, lits, Nil, w, fuel);
    if o.Normal? {
      var g := GenNode(args[0], b, at, lits);
      var j := SimArgs(p, args[1..], b, at + Len(g.code), g.lits, base + [o.v], o.w, fuel);
      var os := EvalArgs(p.env, args[1..], b, at + Len(g.code), g.lits, o.w, fuel);
      RunAdd(p, Running(at, base, w), k, j);
      if os.Normals? { assert base + [o.v] + os.vs == base + ([o.v] + os.vs); }
      k := k + j;
    }
  }

  /** A send: the arguments above the receiver, all of them in an array, and the callee's answer. */
  lemma {:induction false} SimSend(p: Program, args: seq<Node>, name: string, super: bool, b: bool, at: nat, lits: seq<Value>,
                                   base: seq<Value>, rcv: Value, w: World, fuel: nat)
    returns (k: nat)
    requires AllClosed(args) && GenAt(p, at, GenSend(args, name, super, b, at, lits)) && |base| + 1 + PeakArguments(args) <= p.stackSize
    ensures Reaches(p, Running(at, base + [rcv], w), k, EvalSend(p.env, rcv, args, name, super, b, at, lits, w, fuel),
                    at + Len(GenSend(args, name, super, b, at, lits).code), base, fuel)
    decreases args, 1, fuel
  {
    hide CodeAt, Len, Run, Encode, IndexOf, WithLiteral, GenArgs, EvalArgs;
    var g := GenArgs(args, b, at, lits);
    var sel := Symbol(name);
    LiteralIndex(g.lits, sel);
    LiteralPrefix(g.lits, sel);
    var mark := MarkArguments(1 + |args|);
    var send := if super then SendToSuper(IndexOf(g.lits, sel)) else SendMessage(IndexOf(g.lits, sel));
    assert [mark, send] == [mark] + [send] && g.code + [mark, send] == g.code + [mark] + [send];
    CodeAtSplit3(p, at, g.code, [mark], [send]);
    k := SimArgs(p, args, b, at, lits, base + [rcv], w, fuel);
    var os := EvalArgs(p.env, args, b, at, lits, w, fuel);
    if os.Normals? {
      var m := Running(at, base + [rcv], w);
      var all := [rcv] + os.vs;
      assert base + [rcv] + os.vs == base + all;
      assert (base + all)[..|base|] == base && (base + all)[|base|..] == all;
      ThenExecute(p, m, k, at + Len(g.code), mark, base + all, os.w);
      ThenExecute(p, m, k + 1, at + Len(g.code) + Len([mark]), send, base + [Arguments(all)], os.w);
      assert Front(base + [Arguments(all)]) == base;
      k := k + 2;
    }
  }

  lemma {:induction false} JumpSizes(t: nat, v: bool, c: nat)
    requires c < 16
    ensures Len([BranchOn(v, t)]) == 3 && Len([Branch(t)]) == 3 && Len([BranchIfTrue(t)]) == 3 && Len([BranchIfFalse(t)]) == 3
    ensures Len([PushConstant(c)]) == 1 && Len([PopTop]) == 1 && Len([Duplicate]) == 1 && Len([StackReturn]) == 1
    ensures Len([SelfReturn]) == 1
  {
    LenOne(BranchOn(v, t));
    LenOne(Branch(t));
    LenOne(BranchIfTrue(t));
    LenOne(BranchIfFalse(t));
    LenOne(PushConstant(c));
    LenOne(PopTop);
    LenOne(Duplicate);
    LenOne(StackReturn);
    LenOne(SelfReturn);
    hide Len;
  }

  lemma {:induction false} LenOne(i: Instr)
    ensures Len([i]) == |Encode(i)|
  {
    hide Encode;
    assert [i][1..] == [] && Assemble([i]) == Encode(i) + Assemble([]);
  }

  /** Statements one after the other; only the last value stays. */
  lemma {:induction false} SimInline(p: Program, stmts: seq<Node>, b: bool, at: nat, lits: seq<Value>, base: seq<Value>, w: World, fuel: nat)
    returns (k: nat)
    requires stmts != [] && AllClosed(stmts) && GenAt(p, at, GenInline(stmts, b, at, lits)) && |base| + PeakStatements(stmts) <= p.stackSize
    ensures Reaches(p, Running(at, base, w), k, EvalInline(p.env, stmts, b, at, lits, w, fuel),
                    at + Len(GenInline(stmts, b, at, lits).code), base, fuel)
    decreases stmts, 0, fuel
  {
    hide CodeAt, Len, Run, Encode, Eval, GenNode, Closed, Peak;
    var g := GenNode(stmts[0], b, at, lits);
    if |stmts| == 1 {
      k := SimNode(p, stmts[0], false, b, at, lits, base, Nil, w, fuel);
      return;
    }
    JumpSizes(0, true, 0);
    var rest := GenInline(stmts[1..], b, at + Len(g.code) + 1, g.lits);
    CodeAtSplit3(p, at, g.code, [PopTop], rest.code);
    k := SimNode(p, stmts[0], false, b, at, lits, base, Nil, w, fuel);
    var o := Eval(p.env, stmts[0], b, at, lits, Nil, w, fuel);
    if o.Normal? {
      var m := Running(at, base, w);
      ThenExecute(p, m, k, at + Len(g.code), PopTop, base + [o.v], o.w);
      assert Front(base + [o.v]) == base;
      var j := SimInline(p, stmts[1..], b, at + Len(g.code) + 1, g.lits, base, o.w, fuel);
      RunAdd(p, m, k + 1, j);
      k := k + 1 + j;
    }
  }

  function TestOutcome(env: Env, skipOn: bool, constant: nat, rcv: Value, stmts: seq<Node>, b: bool, at: nat, lits: seq<Value>, w: World, fuel: nat): Outcome {
    if rcv == Bool(skipOn) then Normal(Constant(constant), w) else EvalInline(env, stmts, b, at + 3, lits, w, fuel)
  }

  /** ifTrue:, ifFalse:, and:, or: */
  lemma {:induction false} SimTest(p: Program, skipOn: bool, constant: nat, stmts: seq<Node>, b: bool, at: nat, lits: seq<Value>,
                                   base: seq<Value>, rcv: Value, w: World, fuel: nat)
    returns (k: nat)
    requires 10 <= constant <= 12 && stmts != [] && AllClosed(stmts) && GenAt(p, at, GenTest(skipOn, constant, stmts, b, at, lits))
    requires |base| + Max(1, PeakStatements(stmts)) <= p.stackSize
    ensures Reaches(p, Running(at, base + [rcv], w), k, TestOutcome(p.env, skipOn, constant, rcv, stmts, b, at, lits, w, fuel),
                    at + Len(GenTest(skipOn, constant, stmts, b, at, lits).code), base, fuel)
    decreases stmts, 1, fuel
  {
    hide CodeAt, Len, Run, Encode, GenInline, EvalInline, PeakStatements;
    var g := GenInline(stmts, b, at + 3, lits);
    var other := at + 3 + Len(g.code) + 3;
    var test, exit, push := BranchOn(skipOn, other), Branch(other + 1), PushConstant(constant);
    JumpSizes(other, skipOn, constant);
    JumpSizes(other + 1, skipOn, constant);
    CodeAtSplit(p, at, [test] + g.code + [exit], [push]);
    CodeAtSplit3(p, at, [test], g.code, [exit]);
    var m := Running(at, base + [rcv], w);
    assert Front(base + [rcv]) == base;
    Execute(p, at, test, base + [rcv], w);
    if rcv == Bool(skipOn) {
      ThenExecute(p, m, 1, other, push, base, w);
      k := 2;
    } else {
      var j := SimInline(p, stmts, b, at + 3, lits, base, w, fuel);
      var o := EvalInline(p.env, stmts, b, at + 3, lits, w, fuel);
      RunAdd(p, m, 1, j);
      k := 1 + j;
      if o.Normal? {
        ThenExecute(p, m, k, at + 3 + Len(g.code), exit, base + [o.v], o.w);
        k := k + 1;
      }
    }
  }

  function IfOutcome(env: Env, rcv: Value, args: seq<Node>, b: bool, at: nat, lits: seq<Value>, w: World, fuel: nat): Outcome
    requires |args| == 2 && args[0].Block? && args[1].Block?
  {
    var f := GenInline(args[1].statements, b, at + 3, lits);
    if rcv == True then EvalInline(env, args[0].statements, b, at + 3 + Len(f.code) + 3, f.lits, w, fuel)
    else EvalInline(env, args[1].statements, b, at + 3, lits, w, fuel)
  }

  predicate Runnable(block: Node) {
    block.Block? && block.statements != []
  }

  /** ifTrue:ifFalse: */
  lemma {:induction false} SimIf(p: Program, args: seq<Node>, b: bool, at: nat, lits: seq<Value>, base: seq<Value>, rcv: Value, w: World, fuel: nat)
    returns (k: nat)
    requires |args| == 2 && Runnable(args[0]) && Runnable(args[1]) && AllClosed(args[0].statements) && AllClosed(args[1].statements)
    requires GenAt(p, at, GenIf(args, b, at, lits))
    requires |base| + Max(PeakStatements(args[0].statements), PeakStatements(args[1].statements)) <= p.stackSize
    ensures Reaches(p, Running(at, base + [rcv], w), k, IfOutcome(p.env, rcv, args, b, at, lits, w, fuel),
                    at + Len(GenIf(args, b, at, lits).code), base, fuel)
    decreases args, 1, fuel
  {
    hide CodeAt, Len, Run, Encode, GenInline, EvalInline, PeakStatements, AllClosed;
    var f := GenInline(args[1].statements, b, at + 3, lits);
    var other := at + 3 + Len(f.code) + 3;
    var t := GenInline(args[0].statements, b, other, f.lits);
    var exit := other + Len(t.code);
    JumpSizes(other, true, 0);
    JumpSizes(exit, true, 0);
    CodeAtSplit(p, at, [BranchIfTrue(other)] + f.code + [Branch(exit)], t.code);
    CodeAtSplit3(p, at, [BranchIfTrue(other)], f.code, [Branch(exit)]);
    var m := Running(at, base + [rcv], w);
    assert Front(base + [rcv]) == base;
    Execute(p, at, BranchIfTrue(other), base + [rcv], w);
    if rcv == True {
      var j := SimInline(p, args[0].statements, b, other, f.lits, base, w, fuel);
      RunAdd(p, m, 1, j);
      k := 1 + j;
    } else {
      var j := SimInline(p, args[1].statements, b, at + 3, lits, base, w, fuel);
      var o := EvalInline(p.env, args[1].statements, b, at + 3, lits, w, fuel);
      RunAdd(p, m, 1, j);
      k := 1 + j;
      if o.Normal? {
        ThenExecute(p, m, k, at + 3 + Len(f.code), Branch(exit), base + [o.v], o.w);
        k := k + 1;
      }
    }
  }

  ghost predicate GoodLoop(n: Node) {
    IsWhile(n) && Runnable(n.receiver) && Runnable(n.arguments[0]) && AllClosed(n.receiver.statements) && AllClosed(n.arguments[0].statements)
  }

  ghost predicate ReadyLoop(p: Program, n: Node, b: bool, at: nat, lits: seq<Value>, base: seq<Value>) {
    && GoodLoop(n) && GenAt(p, at, GenWhile(n, b, at, lits))
    && |base| + Max(1, Max(PeakStatements(n.receiver.statements), PeakStatements(n.arguments[0].statements))) <= p.stackSize
  }

  lemma {:induction false} WhileEval(env: Env, n: Node, b: bool, at: nat, lits: seq<Value>, w: World, fuel: nat)
    requires GoodLoop(n) && fuel > 0
    ensures var c := EvalInline(env, n.receiver.statements, b, at, lits, w, fuel);
            EvalWhile(env, n, b, at, lits, w, fuel) ==
            if !c.Normal? then c
            else if c.v == False then Normal(Nil, c.w)
            else
              var g := GenInline(n.receiver.statements, b, at, lits);
              var d := EvalInline(env, n.arguments[0].statements, b, at + Len(g.code) + 3, g.lits, c.w, fuel);
              if !d.Normal? then d else EvalWhile(env, n, b, at, lits, d.w, fuel - 1)
  {
    hide EvalInline, GenInline, Len;
  }

  lemma {:induction false} NoFuel(p: Program, n: Node, b: bool, at: nat, lits: seq<Value>, base: seq<Value>, w: World)
    requires GoodLoop(n)
    ensures Reaches(p, Running(at, base, w), 0, EvalWhile(p.env, n, b, at, lits, w, 0),
                    at + Len(GenWhile(n, b, at, lits).code), base, 0)
  {}

  /** whileTrue: -- each round of the loop takes a unit of fuel and at least one step. */
  lemma {:induction false} SimWhile(p: Program, n: Node, b: bool, at: nat, lits: seq<Value>, base: seq<Value>, w: World, fuel: nat)
    returns (k: nat)
    requires ReadyLoop(p, n, b, at, lits, base)
    ensures Reaches(p, Running(at, base, w), k, EvalWhile(p.env, n, b, at, lits, w, fuel),
                    at + Len(GenWhile(n, b, at, lits).code), base, fuel)
    decreases n, 0, fuel, 1
  {
    hide CodeAt, Len, Run, Encode, GenInline, EvalInline, PeakStatements, AllClosed, EvalWhile, GenWhile;
    if fuel == 0 {
      k := 0;
      NoFuel(p, n, b, at, lits, base, w);
      return;
    }
    var cond, body := n.receiver.statements, n.arguments[0].statements;
    var c := GenInline(cond, b, at, lits);
    var inside := at + Len(c.code) + 3;
    var d := GenInline(body, b, inside, c.lits);
    WhileParts(p, n, b, at, lits);
    WhileEval(p.env, n, b, at, lits, w, fuel);
    k := SimInline(p, cond, b, at, lits, base, w, fuel);
    var oc := EvalInline(p.env, cond, b, at, lits, w, fuel);
    if oc.Normal? {
      var m := Running(at, base, w);
      var exit := inside + Len(d.code) + 4;
      ThenExecute(p, m, k, at + Len(c.code), BranchIfFalse(exit), base + [oc.v], oc.w);
      assert Front(base + [oc.v]) == base;
      if oc.v == False {
        ThenExecute(p, m, k + 1, exit, PushConstant(NIL_CONST), base, oc.w);
        k := k + 2;
      } else {
        k := SimRound(p, n, b, at, lits, base, m, k + 1, oc.w, fuel);
      }
    }
  }

  lemma {:induction false} WhileParts(p: Program, n: Node, b: bool, at: nat, lits: seq<Value>)
    requires GoodLoop(n) && GenAt(p, at, GenWhile(n, b, at, lits))
    ensures var c := GenInline(n.receiver.statements, b, at, lits);
            var inside := at + Len(c.code) + 3;
            var d := GenInline(n.arguments[0].statements, b, inside, c.lits);
            var exit := inside + Len(d.code) + 4;
            && GenAt(p, at, c)
            && CodeAt(p, at + Len(c.code), [BranchIfFalse(exit)])
            && GenAt(p, inside, d)
            && CodeAt(p, inside + Len(d.code), [PopTop])
            && CodeAt(p, inside + Len(d.code) + 1, [Branch(at)])
            && CodeAt(p, exit, [PushConstant(NIL_CONST)])
            && Len([BranchIfFalse(exit)]) == 3 && Len([PopTop]) == 1 && Len([Branch(at)]) == 3 && Len([PushConstant(NIL_CONST)]) == 1
            && Len(GenWhile(n, b, at, lits).code) == exit + 1 - at
  {
    hide CodeAt, Len, GenInline, AllClosed;
    var c := GenInline(n.receiver.statements, b, at, lits);
    var inside := at + Len(c.code) + 3;
    var d := GenInline(n.arguments[0].statements, b, inside, c.lits);
    var exit := inside + Len(d.code) + 4;
    JumpSizes(exit, true, NIL_CONST);
    JumpSizes(at, true, 0);
    assert [PopTop, Branch(at)] == [PopTop] + [Branch(at)];
    var front := c.code + [BranchIfFalse(exit)] + d.code;
    CodeAtSplit3(p, at, front, [PopTop, Branch(at)], [PushConstant(NIL_CONST)]);
    CodeAtSplit3(p, at, c.code, [BranchIfFalse(exit)], d.code);
    CodeAtSplit(p, at + Len(front), [PopTop], [Branch(at)]);
  }

  /** The body of the loop, the way back, and what is left of the loop. */
  lemma {:induction false} SimRound(p: Program, n: Node, b: bool, at: nat, lits: seq<Value>, base: seq<Value>, m: State, j: nat, w: World, fuel: nat)
    returns (k: nat)
    requires ReadyLoop(p, n, b, at, lits, base) && fuel > 0
    requires Run(p, m, j) == Running(at + Len(GenInline(n.receiver.statements, b, at, lits).code) + 3, base, w)
    ensures var g := GenInline(n.receiver.statements, b, at, lits);
            var d := EvalInline(p.env, n.arguments[0].statements, b, at + Len(g.code) + 3, g.lits, w, fuel);
            Reaches(p, m, k, if !d.Normal? then d else EvalWhile(p.env, n, b, at, lits, d.w, fuel - 1),
                    at + Len(GenWhile(n, b, at, lits).code), base, fuel)
    decreases n, 0, fuel, 0
  {
    hide CodeAt, Len, Run, Encode, GenInline, EvalInline, PeakStatements, AllClosed, GenWhile, EvalWhile;
    var body := n.arguments[0].statements;
    var c := GenInline(n.receiver.statements, b, at, lits);
    var inside := at + Len(c.code) + 3;
    var d := GenInline(body, b, inside, c.lits);
    WhileParts(p, n, b, at, lits);
    var i := SimInline(p, body, b, inside, c.lits, base, w, fuel);
    var od := EvalInline(p.env, body, b, inside, c.lits, w, fuel);
    RunAdd(p, m, j, i);
    k := j + i;
    if od.Normal? {
      ThenExecute(p, m, k, inside + Len(d.code), PopTop, base + [od.v], od.w);
      assert Front(base + [od.v]) == base;
      ThenExecute(p, m, k + 1, inside + Len(d.code) + 1, Branch(at), base, od.w);
      var r := SimWhile(p, n, b, at, lits, base, od.w, fuel - 1);
      RunAdd(p, m, k + 2, r);
      k := k + 2 + r;
    }
  }

  /** The blocks of a message compiled in line. */
  lemma {:induction false} InLineBlocks(args: seq<Node>, name: string)
    requires AllClosed(args) && InLine(name, args)
    ensures Runnable(args[0]) && AllClosed(args[0].statements)
    ensures |args| == 2 ==> Runnable(args[1]) && AllClosed(args[1].statements)
  {
    assert Closed(args[0]);
    if |args| == 2 {
      assert args[1..][0] == args[1];
      assert Closed(args[1]);
    }
  }

  /** A message once its receiver is on the stack. */
  lemma {:induction false} SimRest(p: Program, r: Node, args: seq<Node>, name: string, b: bool, at: nat, lits: seq<Value>,
                                   base: seq<Value>, rcv: Value, w: World, fuel: nat)
    returns (k: nat)
    requires AllClosed(args) && GoodMessage(r, name, args) && GenAt(p, at, GenMessage(args, name, b, at, lits))
    requires |base| + PeakRest(name, args) <= p.stackSize
    ensures Reaches(p, Running(at, base + [rcv], w), k, EvalMessage(p.env, rcv, args, name, b, at, lits, w, fuel),
                    at + Len(GenMessage(args, name, b, at, lits).code), base, fuel)
    decreases args, 2, fuel
  {
    hide CodeAt, Len, Run, Encode, GenTest, GenIf, GenSend, EvalSend, EvalInline, PeakStatements, PeakArguments, AllClosed;
    if InLine(name, args) {
      InLineBlocks(args, name);
      if |args| == 2 {
        k := SimIf(p, args, b, at, lits, base, rcv, w, fuel);
      } else {
        var skipOn := name == "ifFalse:" || name == "or:";
        var constant := if name == "and:" then FALSE_CONST else if name == "or:" then TRUE_CONST else NIL_CONST;
        k := SimTest(p, skipOn, constant, args[0].statements, b, at, lits, base, rcv, w, fuel);
      }
    } else if name in BINARY_NAMES {
      k := SimBinary(p, args, name, b, at, lits, base, rcv, w, fuel);
    } else {
      k := SimSend(p, args, name, false, b, at, lits, base, rcv, w, fuel);
    }
  }

  lemma {:induction false} SimBinary(p: Program, args: seq<Node>, name: string, b: bool, at: nat, lits: seq<Value>,
                                     base: seq<Value>, rcv: Value, w: World, fuel: nat)
    returns (k: nat)
    requires AllClosed(args) && |args| == 1 && name in BINARY_NAMES && GenAt(p, at, GenMessage(args, name, b, at, lits))
    requires |base| + 1 + PeakArguments(args) <= p.stackSize
    ensures Reaches(p, Running(at, base + [rcv], w), k, EvalMessage(p.env, rcv, args, name, b, at, lits, w, fuel),
                    at + Len(GenMessage(args, name, b, at, lits).code), base, fuel)
    decreases args, 1, fuel
  {
    hide CodeAt, Len, Run, Encode, GenArgs, EvalArgs, PeakArguments, Binary;
    var g := GenArgs(args, b, at, lits);
    var i := SendBinary(BinaryIndex(name));
    CodeAtSplit(p, at, g.code, [i]);
    k := SimArgs(p, args, b, at, lits, base + [rcv], w, fuel);
    var os := EvalArgs(p.env, args, b, at, lits, w, fuel);
    if os.Normals? {
      var stack := base + [rcv] + os.vs;
      assert os.vs == [os.vs[0]];
      ThenExecute(p, Running(at, base + [rcv], w), k, at + Len(g.code), i, stack, os.w);
      assert Front(stack) == base + [rcv] && Front(Front(stack)) == base;
      k := k + 1;
    }
  }

  /** isNil and notNil */
  lemma {:induction false} SimUnary(p: Program, m: State, j: nat, at: nat, u: nat, base: seq<Value>, rcv: Value, w: World, fuel: nat)
    requires u < 2 && Run(p, m, j) == Running(at, base + [rcv], w) && CodeAt(p, at, [SendUnary(u)]) && |base| < p.stackSize
    ensures Reaches(p, m, j + 1, Normal(Unary(u, rcv), w), at + Len([SendUnary(u)]), base, fuel)
  {
    hide CodeAt, Len, Run, Encode, Unary;
    ThenExecute(p, m, j, at, SendUnary(u), base + [rcv], w);
    assert Front(base + [rcv]) == base;
  }

  lemma {:induction false} SimMessage(p: Program, n: Node, open: bool, b: bool, at: nat, lits: seq<Value>, base: seq<Value>, top: Value, w: World, fuel: nat)
    returns (k: nat)
    requires n.Message? && Ready(p, n, open, b, at, lits, base)
    ensures Reaches(p, Begin(open, at, base, top, w), k, Eval(p.env, n, b, at, lits, top, w, fuel),
                    at + Len(GenNode(n, b, at, lits).code), base, fuel)
    decreases n, 2, fuel
  {
    hide Ready, ReadyLoop, CodeAt, Len, Run, GenNode, Eval, GenWhile, EvalWhile, GenSend, EvalSend, PeakArguments;
    if IsWhile(n) {
      WhileNode(p, n, open, b, at, lits, base, top, w, fuel);
      k := SimWhile(p, n, b, at, lits, base, w, fuel);
    } else if n.receiver.Top? {
      TopNode(p, n, open, b, at, lits, base);
      TopEval(p.env, n, b, at, lits, top, w, fuel);
      k := SimSend(p, n.arguments, n.name, false, b, at, lits, base, top, w, fuel);
    } else {
      k := SimReceived(p, n, open, b, at, lits, base, top, w, fuel);
    }
  }

  lemma {:induction false} WhileNode(p: Program, n: Node, open: bool, b: bool, at: nat, lits: seq<Value>, base: seq<Value>, top: Value, w: World, fuel: nat)
    requires IsWhile(n) && Ready(p, n, open, b, at, lits, base)
    ensures !open && ReadyLoop(p, n, b, at, lits, base) && GenNode(n, b, at, lits) == GenWhile(n, b, at, lits)
    ensures Eval(p.env, n, b, at, lits, top, w, fuel) == EvalWhile(p.env, n, b, at, lits, w, fuel)
  {
    hide CodeAt, PeakStatements, GenWhile, EvalWhile;
    assert !Open(n);
    LoopBlocks(n);
  }

  lemma {:induction false} TopNode(p: Program, n: Node, open: bool, b: bool, at: nat, lits: seq<Value>, base: seq<Value>)
    requires n.Message? && n.receiver.Top? && Ready(p, n, open, b, at, lits, base)
    ensures open && AllClosed(n.arguments) && GenNode(n, b, at, lits) == GenSend(n.arguments, n.name, false, b, at, lits)
    ensures GenAt(p, at, GenNode(n, b, at, lits)) && |base| + 1 + PeakArguments(n.arguments) <= p.stackSize
  {
    assert !Closed(n.receiver);
    hide CodeAt, PeakArguments, GenSend;
  }

  lemma {:induction false} TopEval(env: Env, n: Node, b: bool, at: nat, lits: seq<Value>, top: Value, w: World, fuel: nat)
    requires n.Message? && n.receiver.Top?
    ensures Eval(env, n, b, at, lits, top, w, fuel) == EvalSend(env, top, n.arguments, n.name, false, b, at, lits, w, fuel)
  {
    LenNothing();
    hide EvalSend, Len;
  }

  lemma {:induction false} LoopBlocks(n: Node)
    requires IsWhile(n) && Closed(n)
    ensures GoodLoop(n)
  {
    assert Closed(n.receiver);
    assert Closed(n.arguments[0]);
  }

  lemma {:induction false} LenNothing()
    ensures Len([]) == 0
  {}

  function EvalRest(env: Env, n: Node, rcv: Value, b: bool, at: nat, lits: seq<Value>, w: World, fuel: nat): Outcome
    requires n.Message?
  {
    if n.receiver.IsSuper() then EvalSend(env, rcv, n.arguments, n.name, true, b, at, lits, w, fuel)
    else if n.name == "isNil" then Normal(Unary(0, rcv), w)
    else if n.name == "notNil" then Normal(Unary(1, rcv), w)
    else EvalMessage(env, rcv, n.arguments, n.name, b, at, lits, w, fuel)
  }

  ghost predicate ReadyRest(p: Program, n: Node, b: bool, at: nat, lits: seq<Value>, base: seq<Value>)
    requires n.Message?
  {
    && AllClosed(n.arguments) && GoodMessage(n.receiver, n.name, n.arguments) && GenAt(p, at, GenRest(n, b, at, lits))
    && |base| < p.stackSize
    && (n.receiver.IsSuper() ==> |base| + 1 + PeakArguments(n.arguments) <= p.stackSize)
    && (!n.receiver.IsSuper() && n.name != "isNil" && n.name != "notNil" ==> |base| + PeakRest(n.name, n.arguments) <= p.stackSize)
  }

  lemma {:induction false} ReceivedCode(n: Node, b: bool, at: nat, lits: seq<Value>)
    requires n.Message? && !IsWhile(n) && !n.receiver.Top?
    ensures var g := GenNode(n.receiver, b, at, lits);
            var rest := GenRest(n, b, at + Len(g.code), g.lits);
            GenNode(n, b, at, lits) == Gen(g.code + rest.code, rest.lits, g.sites + rest.sites) && g.lits <= rest.lits
  {
    hide Len, GenMessage, GenSend;
  }

  lemma {:induction false} ReceivedPeak(n: Node, open: bool)
    requires n.Message? && !IsWhile(n) && !n.receiver.Top? && (if open then Open(n) else Closed(n))
    ensures if open then n.receiver.Top? || Open(n.receiver) else Closed(n.receiver)
    ensures AllClosed(n.arguments) && GoodMessage(n.receiver, n.name, n.arguments)
    ensures Peak(n.receiver) <= Peak(n) && 1 <= Peak(n)
    ensures n.receiver.IsSuper() ==> 1 + PeakArguments(n.arguments) <= Peak(n)
    ensures !n.receiver.IsSuper() && n.name != "isNil" && n.name != "notNil" ==> PeakRest(n.name, n.arguments) <= Peak(n)
  {
    hide AllClosed, PeakArguments, PeakStatements, GoodMessage;
  }

  lemma {:induction false} ReceivedParts(p: Program, n: Node, open: bool, b: bool, at: nat, lits: seq<Value>, base: seq<Value>)
    requires n.Message? && !IsWhile(n) && !n.receiver.Top? && Ready(p, n, open, b, at, lits, base)
    ensures var g := GenNode(n.receiver, b, at, lits);
            var rest := GenRest(n, b, at + Len(g.code), g.lits);
            && Ready(p, n.receiver, open, b, at, lits, base)
            && ReadyRest(p, n, b, at + Len(g.code), g.lits, base)
            && Len(GenNode(n, b, at, lits).code) == Len(g.code) + Len(rest.code)
  {
    hide CodeAt, Len, GenNode, GenRest, Peak, PeakRest, PeakArguments, Open, Closed, AllClosed, GoodMessage, IsWhile;
    ReceivedCode(n, b, at, lits);
    ReceivedPeak(n, open);
    var g := GenNode(n.receiver, b, at, lits);
    CodeAtSplit(p, at, g.code, GenRest(n, b, at + Len(g.code), g.lits).code);
  }

  lemma {:induction false} ReceivedEval(env: Env, n: Node, b: bool, at: nat, lits: seq<Value>, top: Value, w: World, fuel: nat)
    requires n.Message? && !IsWhile(n) && !n.receiver.Top?
    ensures var o := Eval(env, n.receiver, b, at, lits, top, w, fuel);
            var g := GenNode(n.receiver, b, at, lits);
            Eval(env, n, b, at, lits, top, w, fuel) == if o.Normal? then EvalRest(env, n, o.v, b, at + Len(g.code), g.lits, o.w, fuel) else o
  {
    hide Len, EvalMessage, EvalSend, Unary, GenNode;
  }

  lemma {:induction false} SimReceived(p: Program, n: Node, open: bool, b: bool, at: nat, lits: seq<Value>, base: seq<Value>, top: Value, w: World, fuel: nat)
    returns (k: nat)
    requires n.Message? && !IsWhile(n) && !n.receiver.Top? && Ready(p, n, open, b, at, lits, base)
    ensures Reaches(p, Begin(open, at, base, top, w), k, Eval(p.env, n, b, at, lits, top, w, fuel),
                    at + Len(GenNode(n, b, at, lits).code), base, fuel)
    decreases n, 1, fuel
  {
    hide Ready, CodeAt, Len, Run, Encode, GenNode, Eval, GenRest, EvalRest, ReadyRest, Begin;
    ReceivedParts(p, n, open, b, at, lits, base);
    ReceivedEval(p.env, n, b, at, lits, top, w, fuel);
    var r := n.receiver;
    k := SimNode(p, r, open, b, at, lits, base, top, w, fuel);
    var o := Eval(p.env, r, b, at, lits, top, w, fuel);
    if o.Normal? {
      var g := GenNode(r, b, at, lits);
      var j := SimAnswer(p, n, b, at + Len(g.code), g.lits, base, o.v, o.w, fuel);
      RunAdd(p, Begin(open, at, base, top, w), k, j);
      k := k + j;
    }
  }

  /** What follows the receiver of a message. */
  lemma {:induction false} SimAnswer(p: Program, n: Node, b: bool, at: nat, lits: seq<Value>, base: seq<Value>, rcv: Value, w: World, fuel: nat)
    returns (k: nat)
    requires n.Message? && ReadyRest(p, n, b, at, lits, base)
    ensures Reaches(p, Running(at, base + [rcv], w), k, EvalRest(p.env, n, rcv, b, at, lits, w, fuel),
                    at + Len(GenRest(n, b, at, lits).code), base, fuel)
    decreases n, 0, fuel
  {
    hide CodeAt, Len, Encode, GenMessage, GenSend, EvalMessage, EvalSend, PeakStatements, PeakArguments, Unary, AllClosed;
    var m := Running(at, base + [rcv], w);
    assert Run(p, m, 0) == m;
    hide Run;
    if n.receiver.IsSuper() {
      k := SimSend(p, n.arguments, n.name, true, b, at, lits, base, rcv, w, fuel);
    } else if n.name == "isNil" {
      SimUnary(p, m, 0, at, 0, base, rcv, w, fuel);
      k := 1;
    } else if n.name == "notNil" {
      SimUnary(p, m, 0, at, 1, base, rcv, w, fuel);
      k := 1;
    } else {
      k := SimRest(p, n.receiver, n.arguments, n.name, b, at, lits, base, rcv, w, fuel);
    }
  }

  ghost predicate ReadyMessages(p: Program, l: seq<Node>, b: bool, at: nat, lits: seq<Value>, base: seq<Value>) {
    AllOpen(l) && GenAt(p, at, GenCascade(l, b, at, lits)) && |base| + PeakMessages(l) <= p.stackSize
  }

  lemma {:induction false} CascadeParts(p: Program, n: Node, b: bool, at: nat, lits: seq<Value>, base: seq<Value>)
    requires n.Cascade? && Ready(p, n, false, b, at, lits, base)
    ensures var g := GenNode(n.head, b, at, lits);
            var rest := GenCascade(n.list, b, at + Len(g.code), g.lits);
            && Ready(p, n.head, false, b, at, lits, base)
            && ReadyMessages(p, n.list, b, at + Len(g.code), g.lits, base)
            && Len(GenNode(n, b, at, lits).code) == Len(g.code) + Len(rest.code)
  {
    hide CodeAt, Len, GenCascade, GenNode, PeakMessages, Peak, Closed, AllOpen;
    CascadeTree(n, b, at, lits);
    var g := GenNode(n.head, b, at, lits);
    CodeAtSplit(p, at, g.code, GenCascade(n.list, b, at + Len(g.code), g.lits).code);
  }

  lemma {:induction false} CascadeTree(n: Node, b: bool, at: nat, lits: seq<Value>)
    requires n.Cascade?
    ensures Closed(n) ==> Closed(n.head) && AllOpen(n.list)
    ensures Peak(n) == Max(Max(1, Peak(n.head)), PeakMessages(n.list))
    ensures var g := GenNode(n.head, b, at, lits);
            var rest := GenCascade(n.list, b, at + Len(g.code), g.lits);
            GenNode(n, b, at, lits) == Gen(g.code + rest.code, rest.lits, g.sites + rest.sites)
  {
    hide Len, GenCascade, PeakMessages, AllOpen;
  }

  lemma {:induction false} CascadeEval(env: Env, n: Node, b: bool, at: nat, lits: seq<Value>, top: Value, w: World, fuel: nat)
    requires n.Cascade?
    ensures var g, o := GenNode(n.head, b, at, lits), Eval(env, n.head, b, at, lits, top, w, fuel);
            Eval(env, n, b, at, lits, top, w, fuel) ==
            if !o.Normal? then o else EvalCascade(env, o.v, n.list, b, at + Len(g.code), g.lits, o.w, fuel)
  {
    hide Len, GenNode, EvalCascade;
  }

  lemma {:induction false} SimCascade(p: Program, n: Node, b: bool, at: nat, lits: seq<Value>, base: seq<Value>, top: Value, w: World, fuel: nat)
    returns (k: nat)
    requires n.Cascade? && Ready(p, n, false, b, at, lits, base)
    ensures Reaches(p, Running(at, base, w), k, Eval(p.env, n, b, at, lits, top, w, fuel),
                    at + Len(GenNode(n, b, at, lits).code), base, fuel)
    decreases n, 2, fuel
  {
    hide Ready, ReadyMessages, CodeAt, Len, Run, Encode, GenNode, Eval, GenCascade, EvalCascade;
    CascadeParts(p, n, b, at, lits, base);
    CascadeEval(p.env, n, b, at, lits, top, w, fuel);
    k := SimNode(p, n.head, false, b, at, lits, base, top, w, fuel);
    var o := Eval(p.env, n.head, b, at, lits, top, w, fuel);
    if o.Normal? {
      var g := GenNode(n.head, b, at, lits);
      var j := SimMessages(p, n.list, b, at + Len(g.code), g.lits, base, o.v, o.w, fuel);
      RunAdd(p, Running(at, base, w), k, j);
      k := k + j;
    }
  }

  ghost predicate SplitMessages(p: Program, l: seq<Node>, b: bool, at: nat, lits: seq<Value>, base: seq<Value>)
    requires l != []
  {
    var g := GenNode(l[0], b, at + 1, lits);
    var after := at + 1 + Len(g.code);
    && CodeAt(p, at, [Duplicate]) && Len([Duplicate]) == 1
    && CodeAt(p, after, [PopTop]) && Len([PopTop]) == 1
    && GenAt(p, at + 1, g)
    && GenAt(p, after + 1, GenCascade(l[1..], b, after + 1, g.lits))
    && at + Len(GenCascade(l, b, at, lits).code) == after + 1 + Len(GenCascade(l[1..], b, after + 1, g.lits).code)
  }

  lemma {:induction false} MessagesCode(p: Program, l: seq<Node>, b: bool, at: nat, lits: seq<Value>, base: seq<Value>)
    requires l != [] && GenAt(p, at, GenCascade(l, b, at, lits))
    ensures SplitMessages(p, l, b, at, lits, base)
  {
    hide CodeAt, Len, GenNode;
    JumpSizes(0, true, 0);
    var g := GenNode(l[0], b, at + 1, lits);
    var rest := GenCascade(l[1..], b, at + 1 + Len(g.code) + 1, g.lits);
    CodeAtSplit(p, at, [Duplicate] + g.code + [PopTop], rest.code);
    CodeAtSplit3(p, at, [Duplicate], g.code, [PopTop]);
  }

  lemma {:induction false} MessagesTree(l: seq<Node>)
    requires l != []
    ensures AllOpen(l) ==> Open(l[0]) && AllOpen(l[1..])
    ensures PeakMessages(l) == Max(1 + Peak(l[0]), PeakMessages(l[1..])) && Peak(l[0]) >= 1
  {
    PeakPositive(l[0]);
    hide Peak, Open;
  }

  lemma {:induction false} MessagesParts(p: Program, l: seq<Node>, b: bool, at: nat, lits: seq<Value>, base: seq<Value>, head: Value)
    requires l != [] && ReadyMessages(p, l, b, at, lits, base)
    ensures SplitMessages(p, l, b, at, lits, base) && Ready(p, l[0], true, b, at + 1, lits, base + [head]) && |base| + 2 <= p.stackSize
    ensures ReadyMessages(p, l[1..], b, at + 1 + Len(GenNode(l[0], b, at + 1, lits).code) + 1, GenNode(l[0], b, at + 1, lits).lits, base)
  {
    hide GenAt, CodeAt, Len, GenNode, GenCascade, Peak, Open, AllOpen, PeakMessages;
    MessagesTree(l);
    MessagesCode(p, l, b, at, lits, base);
  }

  lemma {:induction false} MessagesEval(env: Env, head: Value, l: seq<Node>, b: bool, at: nat, lits: seq<Value>, w: World, fuel: nat)
    requires l != []
    ensures var g, o := GenNode(l[0], b, at + 1, lits), Eval(env, l[0], b, at + 1, lits, head, w, fuel);
            EvalCascade(env, head, l, b, at, lits, w, fuel) ==
            if !o.Normal? then o else EvalCascade(env, head, l[1..], b, at + 1 + Len(g.code) + 1, g.lits, o.w, fuel)
  {
    hide Len, GenNode, Eval;
  }

  lemma {:induction false} NoMessages(p: Program, b: bool, at: nat, lits: seq<Value>, base: seq<Value>, head: Value, w: World, fuel: nat)
    ensures Reaches(p, Running(at, base + [head], w), 0, EvalCascade(p.env, head, [], b, at, lits, w, fuel),
                    at + Len(GenCascade([], b, at, lits).code), base, fuel)
  {
    LenNothing();
  }

  lemma {:induction false} SimMessages(p: Program, l: seq<Node>, b: bool, at: nat, lits: seq<Value>, base: seq<Value>, head: Value, w: World, fuel: nat)
    returns (k: nat)
    requires ReadyMessages(p, l, b, at, lits, base)
    ensures Reaches(p, Running(at, base + [head], w), k, EvalCascade(p.env, head, l, b, at, lits, w, fuel),
                    at + Len(GenCascade(l, b, at, lits).code), base, fuel)
    decreases l, 0, fuel
  {
    hide Ready, ReadyMessages, CodeAt, Len, Run, Encode, GenNode, Eval, GenCascade, EvalCascade;
    if l == [] {
      k := 0;
      NoMessages(p, b, at, lits, base, head, w, fuel);
      return;
    }
    MessagesParts(p, l, b, at, lits, base, head);
    MessagesEval(p.env, head, l, b, at, lits, w, fuel);
    var g := GenNode(l[0], b, at + 1, lits);
    var after := at + 1 + Len(g.code);
    var held := base + [head];
    var m := Running(at, held, w);
    Execute(p, at, Duplicate, held, w);
    var j := SimNode(p, l[0], true, b, at + 1, lits, held, head, w, fuel);
    var o := Eval(p.env, l[0], b, at + 1, lits, head, w, fuel);
    RunAdd(p, m, 1, j);
    k := 1 + j;
    if o.Normal? {
      ThenExecute(p, m, k, after, PopTop, held + [o.v], o.w);
      assert Front(held + [o.v]) == held;
      var i := SimMessages(p, l[1..], b, after + 1, g.lits, base, head, o.w, fuel);
      RunAdd(p, m, k + 1, i);
      k := k + 1 + i;
    }
  }
}
