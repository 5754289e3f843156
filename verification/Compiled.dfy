/** What the compiler promises for whole methods, and for the blocks in them. */
module Compiled {
  import opened Bytecode
  import opened Syntax
  import opened Values
  import opened CodeGen
  import opened Evaluator
  import opened Machine
  import opened StackDepth
  import opened Simulation
  import opened Targets
  import opened Blocks
  import opened StackTracker
  import opened StackBound

  // ---- Method bodies ---------------------------------------------------------------------------

  lemma {:induction false} SimBody(p: Program, stmts: seq<Node>, at: nat, lits: seq<Value>, w: World, fuel: nat)
    returns (k: nat)
    requires AllClosed(stmts) && GenAt(p, at, GenBody(stmts, at, lits)) && PeakStatements(stmts) <= p.stackSize
    ensures Reaches(p, Running(at, [], w), k, EvalBody(p.env, stmts, at, lits, w, fuel), 0, [], fuel)
    ensures !EvalBody(p.env, stmts, at, lits, w, fuel).Normal?
    decreases stmts
  {
    hide CodeAt, Len, Run, Encode, Eval, GenNode, Closed, Peak, BytesAt;
    if stmts == [] {
      k := 1;
      Execute(p, at, SelfReturn, [], w);
      return;
    }
    var g := GenNode(stmts[0], false, at, lits);
    var rest := GenBody(stmts[1..], at + Len(g.code) + 1, g.lits);
    JumpSizes(0, true, 0);
    CodeAtSplit3(p, at, g.code, [PopTop], rest.code);
    k := SimNode(p, stmts[0], false, false, at, lits, [], Nil, w, fuel);
    var o := Eval(p.env, stmts[0], false, at, lits, Nil, w, fuel);
    if o.Normal? {
      var m := Running(at, [], w);
      ThenExecute(p, m, k, at + Len(g.code), PopTop, [] + [o.v], o.w);
      assert Front([] + [o.v]) == [];
      var j := SimBody(p, stmts[1..], at + Len(g.code) + 1, g.lits, o.w, fuel);
      RunAdd(p, m, k + 1, j);
      k := k + 1 + j;
    }
  }

  function Compile(stmts: seq<Node>, stackSize: nat, env: Env): Program {
    var g := GenBody(stmts, 0, []);
    Program(Assemble(g.code), g.lits, stackSize, env)
  }

  /** Operands, code locations and literal numbers fit the bytes the encoder has for them. */
  ghost predicate Compilable(stmts: seq<Node>) {
    AllClosed(stmts) && AllEncodable(GenBody(stmts, 0, []).code)
  }

  /** The stack a method and its blocks need. */
  ghost predicate Enough(stmts: seq<Node>, stackSize: nat) {
    && PeakStatements(stmts) <= stackSize
    && forall s | s in GenBody(stmts, 0, []).sites :: PeakStatements(s.statements) <= stackSize
  }

  lemma {:induction false} CompiledAt(stmts: seq<Node>, stackSize: nat, env: Env)
    requires Compilable(stmts)
    ensures GenAt(Compile(stmts, stackSize, env), 0, GenBody(stmts, 0, []))
  {
    hide GenBody, Assemble, AllEncodable, AllClosed;
    var bytes := Assemble(GenBody(stmts, 0, []).code);
    assert bytes[0..0 + |bytes|] == bytes;
  }

  /** Running a compiled method does what its parse tree means: value, effects, early returns,
      divergence, a primitive that miscounts, and for a tree whose loops outrun `fuel`, at least `fuel` steps. */
  lemma {:induction false} MethodMeaning(stmts: seq<Node>, stackSize: nat, env: Env, w: World, fuel: nat) returns (k: nat)
    requires Compilable(stmts) && Enough(stmts, stackSize)
    ensures Reaches(Compile(stmts, stackSize, env), Running(0, [], w), k, EvalBody(env, stmts, 0, [], w, fuel), 0, [], fuel)
    ensures !EvalBody(env, stmts, 0, [], w, fuel).Normal?
  {
    CompiledAt(stmts, stackSize, env);
    hide GenAt, Reaches, EvalBody;
    k := SimBody(Compile(stmts, stackSize, env), stmts, 0, [], w, fuel);
  }

  lemma {:induction false} Ended(p: Program, m: State, j: nat, k: nat)
    requires !Run(p, m, j).Running? && j <= k
    ensures Run(p, m, k) == Run(p, m, j)
  {
    hide Step;
    RunAdd(p, m, j, k - j);
    RunEnded(p, Run(p, m, j), k - j);
  }

  /** So far no primitive has failed and taken off the stack more or less than its arguments. */
  ghost predicate Counts(p: Program, m: State, steps: nat) {
    forall j: nat | j < steps :: !Miscounting(p, Run(p, m, j))
  }

  /** That is so of every run where primitives always take their arguments. */
  lemma {:induction false} TidyCounts(p: Program, m: State, steps: nat)
    requires forall w, n, vs :: p.env.primitive(w, n, vs).Fails? ==> p.env.primitive(w, n, vs).popped == |vs|
    ensures Counts(p, m, steps)
  {
    hide Run, Decode;
  }

  /** When a run ends, it ends as the outcome it was to reach. */
  lemma {:induction false} EndsAs(p: Program, m: State, k: nat, o: Outcome, steps: nat)
    requires Reaches(p, m, k, o, 0, [], steps + 1) && !o.Normal? && Counts(p, m, steps) && !Run(p, m, steps).Running?
    ensures match o
            case Exit(kind, v, w) => Run(p, m, steps) == Exited(kind, v, w)
            case Never => Run(p, m, steps) == Diverged
            case _ => false
  {
    hide Step, Run;
    if steps <= k {
      Ended(p, m, steps, k);
    } else {
      assert !o.Miscounts? && !o.Timeout?;
      Ended(p, m, k, steps);
    }
  }

  /** And nothing else: whenever the machine comes to an end, it is the end that the tree means.  In
      particular it never gets stuck -- on a bad byte, a missing operand, or a full stack. */
  lemma {:induction false} MethodEnds(stmts: seq<Node>, stackSize: nat, env: Env, w: World, steps: nat)
    requires Compilable(stmts) && Enough(stmts, stackSize)
    requires Counts(Compile(stmts, stackSize, env), Running(0, [], w), steps)
    requires !Run(Compile(stmts, stackSize, env), Running(0, [], w), steps).Running?
    ensures match EvalBody(env, stmts, 0, [], w, steps + 1)
            case Exit(kind, v, w') => Run(Compile(stmts, stackSize, env), Running(0, [], w), steps) == Exited(kind, v, w')
            case Never => Run(Compile(stmts, stackSize, env), Running(0, [], w), steps) == Diverged
            case _ => false
  {
    var k := MethodMeaning(stmts, stackSize, env, w, steps + 1);
    hide Run, EvalBody, Compile, Compilable, Enough, Counts, Reaches;
    EndsAs(Compile(stmts, stackSize, env), Running(0, [], w), k, EvalBody(env, stmts, 0, [], w, steps + 1), steps);
  }

  /** The value of a block's last statement is its answer. */
  function Answered(o: Outcome): Outcome {
    if o.Normal? then Exit(ToSender, o.v, o.w) else o
  }

  /** Each block of the method, started where PushBlock says on an empty stack, does what its statements mean. */
  lemma {:induction false} BlockMeaning(stmts: seq<Node>, stackSize: nat, env: Env, s: Site, w: World, fuel: nat) returns (k: nat)
    requires Compilable(stmts) && Enough(stmts, stackSize) && s in GenBody(stmts, 0, []).sites
    ensures Reaches(Compile(stmts, stackSize, env), Running(s.entry, [], w), k,
                    Answered(EvalInline(env, s.statements, true, s.entry, s.lits, w, fuel)), 0, [], fuel)
  {
    CompiledAt(stmts, stackSize, env);
    hide GenAt, GenBody, Placed, Reaches, Answered;
    var p := Compile(stmts, stackSize, env);
    PlacedBody(p, stmts, 0, []);
    k := SimSite(p, s, w, fuel);
  }

  lemma {:induction false} SimSite(p: Program, s: Site, w: World, fuel: nat) returns (k: nat)
    requires Placed(p, s) && PeakStatements(s.statements) <= p.stackSize
    ensures Reaches(p, Running(s.entry, [], w), k,
                    Answered(EvalInline(p.env, s.statements, true, s.entry, s.lits, w, fuel)), 0, [], fuel)
  {
    var g := GenInline(s.statements, true, s.entry, s.lits);
    hide CodeAt, GenInline, EvalInline, Len, Run, AllClosed, PeakStatements;
    k := SimInline(p, s.statements, true, s.entry, s.lits, [], w, fuel);
    var o := EvalInline(p.env, s.statements, true, s.entry, s.lits, w, fuel);
    if o.Normal? {
      ThenExecute(p, Running(s.entry, [], w), k, s.entry + Len(g.code), StackReturn, [] + [o.v], o.w);
      k := k + 1;
    }
  }

  /** The bytes of a method are its instructions and nothing else, and every jump leads to one of them. */
  lemma {:induction false} MethodStream(stmts: seq<Node>, stackSize: nat, env: Env)
    requires Compilable(stmts)
    ensures var bytes, g := Compile(stmts, stackSize, env).bytes, GenBody(stmts, 0, []);
            Disassemble(bytes, 0, |bytes|) == g.code && WellTargeted(g, 0)
  {
    CompiledAt(stmts, stackSize, env);
    hide GenBody, Assemble, AllEncodable, BytesAt, WellTargeted, Disassemble;
    var p := Compile(stmts, stackSize, env);
    DisassembleAssemble(p.bytes, 0, |p.bytes|, GenBody(stmts, 0, []).code);
    BodyTargets(stmts, 0, []);
  }

  /** With the stack the encoder asks for, a compiled method runs to the end its parse tree means, and
      never needs a slot beyond that stack, if its cascades are counted. */
  lemma {:induction false} EncodedMethodEnds(stmts: seq<Node>, env: Env, w: World, steps: nat)
    requires Compilable(stmts) && CountedStatements(stmts, false)
    requires Counts(Compile(stmts, MaxStack(stmts), env), Running(0, [], w), steps)
    ensures var s := Run(Compile(stmts, MaxStack(stmts), env), Running(0, [], w), steps);
            && s != Stuck
            && (!s.Running? ==>
                  match EvalBody(env, stmts, 0, [], w, steps + 1)
                  case Exit(kind, v, w') => s == Exited(kind, v, w')
                  case Never => s == Diverged
                  case _ => false)
  {
    hide AllEncodable, AllClosed, PeakStatements, Step, EvalBody, GenBody, CountedStatements, Counts;
    EnoughStack(stmts);
    hide MaxStack, Run;
    if !Run(Compile(stmts, MaxStack(stmts), env), Running(0, [], w), steps).Running? {
      MethodEnds(stmts, MaxStack(stmts), env, w, steps);
    }
  }

  /** So does every block in it, on a stack of the same size. */
  lemma {:induction false} EncodedBlockEnds(stmts: seq<Node>, env: Env, b: Site, w: World, steps: nat)
    requires Compilable(stmts) && CountedStatements(stmts, false) && b in GenBody(stmts, 0, []).sites
    requires Counts(Compile(stmts, MaxStack(stmts), env), Running(b.entry, [], w), steps)
    ensures var s := Run(Compile(stmts, MaxStack(stmts), env), Running(b.entry, [], w), steps);
            && s != Stuck
            && (!s.Running? ==>
                  match Answered(EvalInline(env, b.statements, true, b.entry, b.lits, w, steps + 1))
                  case Exit(kind, v, w') => s == Exited(kind, v, w')
                  case Never => s == Diverged
                  case _ => false)
  {
    hide AllEncodable, AllClosed, PeakStatements, Step, EvalInline, GenBody, CountedStatements, Counts, Reaches;
    EnoughStack(stmts);
    hide MaxStack, Run, Enough, Compilable;
    var p := Compile(stmts, MaxStack(stmts), env);
    if !Run(p, Running(b.entry, [], w), steps).Running? {
      var k := BlockMeaning(stmts, MaxStack(stmts), env, b, w, steps + 1);
      EndsAs(p, Running(b.entry, [], w), k, Answered(EvalInline(env, b.statements, true, b.entry, b.lits, w, steps + 1)), steps);
    }
  }

  // ---- Primitive 35, which miscounts ---------------------------------------------------------------

  datatype Arrays = Arrays(isArray: Value -> bool, size: Value -> nat, exchange: (World, Value, Value) -> World)

  /** Bulk exchange, in the interpreter's order: it looks at the last argument before it takes the other. */
  function BulkExchange(arrays: Arrays, w: World, one: Value, other: Value): PrimResult {
    if !arrays.isArray(other) then Fails(w, 1)
    else if !arrays.isArray(one) || arrays.size(one) != arrays.size(other) then Fails(w, 2)
    else Succeeds(one, arrays.exchange(w, one, other))
  }

  /** `<35 a b>` miscounts exactly when b is not an Array: then the value of a stays under the nil. */
  lemma {:induction false} BulkExchangeMiscounts(p: Program, arrays: Arrays, at: nat, base: seq<Value>, one: Value, other: Value, w: World)
    requires CodeAt(p, at, [DoPrimitive(2, 35)]) && |base| + 2 <= p.stackSize
    requires p.env.primitive(w, 35, [one, other]) == BulkExchange(arrays, w, one, other)
    ensures Miscounting(p, Running(at, base + [one, other], w)) <==> !arrays.isArray(other)
    ensures !arrays.isArray(other) ==>
              Run(p, Running(at, base + [one, other], w), 1) == Running(at + Len([DoPrimitive(2, 35)]), base + [one] + [Nil], w)
  {
    var i, stack := DoPrimitive(2, 35), base + [one, other];
    assert stack[|stack| - 2..] == [one, other] && stack[..|stack| - 1] == base + [one];
    assert [i][1..] == [] && Assemble([i]) == Encode(i) && i in [i];
    EncodeSize(i);
    DecodeEncode(p.bytes, at, i);
    Execute(p, at, i, stack, w);
    hide Decode, Encode, Len, Run, CodeAt;
  }

  /** The method elementsExchangeIdentityWith: comes to that when it is given something else. */
  lemma {:induction false} ExchangeMiscounts(env: Env, arrays: Arrays, b: bool, at: nat, lits: seq<Value>, w: World, fuel: nat)
    requires env.primitive(w, 35, [env.argument(w, 0), env.argument(w, 1)]) == BulkExchange(arrays, w, env.argument(w, 0), env.argument(w, 1))
    ensures Eval(env, Primitive(35, [Argument(1), Argument(2)]), b, at, lits, Nil, w, fuel).Miscounts? <==> !arrays.isArray(env.argument(w, 1))
  {
    var args := [Argument(1), Argument(2)];
    assert args[1..] == [Argument(2)] && args[1..][1..] == [];
    assert Eval(env, args[0], b, at, lits, Nil, w, fuel) == Normal(env.argument(w, 0), w);
    hide GenNode, Len;
    forall at', lits' ensures EvalArgs(env, [Argument(2)], b, at', lits', w, fuel) == Normals([env.argument(w, 1)], w) {
      OneArgument(env, b, at', lits', w, fuel);
    }
    var g := GenNode(args[0], b, at, lits);
    assert EvalArgs(env, args[1..], b, at + Len(g.code), g.lits, w, fuel) == Normals([env.argument(w, 1)], w);
    var vs := [env.argument(w, 0)] + [env.argument(w, 1)];
    assert EvalArgs(env, args, b, at, lits, w, fuel) == Normals(vs, w);
    assert vs == [env.argument(w, 0), env.argument(w, 1)];
    hide EvalArgs;
    var n := Primitive(35, args);
    assert Eval(env, n, b, at, lits, Nil, w, fuel) == FromPrimitive(env.primitive(w, 35, vs), 2);
  }

  lemma {:induction false} OneArgument(env: Env, b: bool, at: nat, lits: seq<Value>, w: World, fuel: nat)
    ensures EvalArgs(env, [Argument(2)], b, at, lits, w, fuel) == Normals([env.argument(w, 1)], w)
  {
    var args := [Argument(2)];
    assert args[1..] == [];
    assert Eval(env, args[0], b, at, lits, Nil, w, fuel) == Normal(env.argument(w, 1), w);
    hide GenNode, Len;
    assert [env.argument(w, 1)] + [] == [env.argument(w, 1)];
  }

  // ---- `x; foo: 1`, for which the encoder asks for one slot less than it takes ---------------------

  const FOO_ONE := Message(Top, "foo:", [Literal(SmallInt(1))])
  const FOO_METHOD := [Cascade(Temporary(1), [FOO_ONE])]
  const FOO_PUSHES := [PushTemporary(0), Duplicate, PushConstant(1)]
  const FOO_REST := [MarkArguments(2), SendMessage(0), PopTop, PopTop, SelfReturn]

  lemma {:induction false} FooSend(at: nat)
    ensures GenNode(FOO_ONE, false, at, []).code == [PushConstant(1), MarkArguments(2), SendMessage(0)]
  {
    var args := [Literal(SmallInt(1))];
    assert args[1..] == [];
    assert GenNode(args[0], false, at, []) == Gen([PushConstant(1)], [], []);
    assert GenArgs(args, false, at, []) == Gen([PushConstant(1)], [], []);
    hide GenArgs, Len;
    assert IndexOf([], Symbol("foo:")) == 0;
    hide IndexOf;
    assert GenSend(args, "foo:", false, false, at, []).code == [PushConstant(1)] + [MarkArguments(2), SendMessage(0)];
  }

  lemma {:induction false} FooCascade(at: nat)
    ensures GenNode(FOO_METHOD[0], false, at, []).code == [PushTemporary(0), Duplicate, PushConstant(1), MarkArguments(2), SendMessage(0), PopTop]
  {
    var l := [FOO_ONE];
    assert l[1..] == [];
    var after := at + Len([PushTemporary(0)]);
    assert GenNode(Temporary(1), false, at, []) == Gen([PushTemporary(0)], [], []);
    assert GenNode(FOO_METHOD[0], false, at, []).code == [PushTemporary(0)] + GenCascade(l, false, after, []).code;
    FooSend(after + 1);
    hide GenNode, Len;
    assert GenCascade(l, false, after, []).code == [Duplicate] + GenNode(FOO_ONE, false, after + 1, []).code + [PopTop] + [];
  }

  lemma {:induction false} FooCode()
    ensures GenBody(FOO_METHOD, 0, []).code == FOO_PUSHES + FOO_REST
  {
    FooCascade(0);
    hide GenNode, Len;
    assert FOO_METHOD[1..] == [];
    assert GenBody(FOO_METHOD, 0, []).code == GenNode(FOO_METHOD[0], false, 0, []).code + [PopTop] + [SelfReturn];
  }

  lemma {:induction false} FooCompilable()
    ensures Compilable(FOO_METHOD)
  {
    hide GenBody, AllClosed, AllEncodable, PeakStatements, MaxStack;
    FooCode();
    OneShort();
    FooEncodable();
  }

  lemma {:induction false} FooEncodable()
    ensures AllEncodable(FOO_PUSHES + FOO_REST)
  {
    hide Encode;
    forall i | i in FOO_PUSHES + FOO_REST ensures i in FOO_PUSHES || i in FOO_REST {}
  }

  /** The stack really is too small: the third push has no slot. */
  lemma {:induction false} OneShortOverflows(env: Env, w: World)
    ensures Run(Compile(FOO_METHOD, MaxStack(FOO_METHOD), env), Running(0, [], w), 3) == Stuck
  {
    var p := Compile(FOO_METHOD, 2, env);
    OneShort();
    assert p.stackSize == 2 && p.env == env;
    FooCompilable();
    FooCode();
    CompiledAt(FOO_METHOD, 2, env);
    hide GenBody, Compile, MaxStack;
    FooRun(p, w);
  }

  lemma {:induction false} FooParts(p: Program)
    requires CodeAt(p, 0, FOO_PUSHES + FOO_REST)
    ensures CodeAt(p, 0, [PushTemporary(0)]) && CodeAt(p, 1, [Duplicate]) && CodeAt(p, 2, [PushConstant(1)])
  {
    LenOne(PushTemporary(0));
    LenOne(Duplicate);
    hide Len, CodeAt;
    CodeAtSplit(p, 0, FOO_PUSHES, FOO_REST);
    assert FOO_PUSHES == [PushTemporary(0)] + [Duplicate] + [PushConstant(1)];
    CodeAtSplit3(p, 0, [PushTemporary(0)], [Duplicate], [PushConstant(1)]);
  }

  lemma {:induction false} FooRun(p: Program, w: World)
    requires p.stackSize == 2 && CodeAt(p, 0, FOO_PUSHES + FOO_REST)
    ensures Run(p, Running(0, [], w), 3) == Stuck
  {
    hide Run, Len, CodeAt;
    FooParts(p);
    var s := Running(0, [], w);
    var v := p.env.temporary(w, 0);
    Execute(p, 0, PushTemporary(0), [], w);
    ThenExecute(p, s, 1, 1, Duplicate, [v], w);
    ThenExecute(p, s, 2, 2, PushConstant(1), [v, v], w);
  }
}
