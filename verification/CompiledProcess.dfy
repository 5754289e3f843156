/** Everything together: a compiled method, run as a process in any slices by the interpreter that optimizes tail
    calls, answers what its parse tree means. */
module CompiledProcess {
  import opened Options
  import opened Bytecode
  import opened Syntax
  import opened Values
  import opened CodeGen
  import opened Evaluator
  import opened StackDepth
  import opened StackTracker
  import opened StackBound
  import opened Compiled
  import opened Simulation
  import opened Activations
  import C = Contexts
  import M = Machine
  import T = TailCalls
  import R = Registers
  import L = Loop
  import S = Slicing

  /** The method is compiled, and given the stack the encoder asks for. */
  ghost predicate CompiledIn(k: C.Kernel, o: Others, stmts: seq<Node>, m: nat) {
    Compilable(stmts) && CountedStatements(stmts, false) && Loaded(k, Compile(stmts, MaxStack(stmts), EnvOf(k, o)), m)
  }

  /** The environment knows what comes of everything the activation leaves to others. */
  ghost predicate AlwaysFaithful(k: C.Kernel, o: Others, stmts: seq<Node>, pc: nat, w: World) {
    forall j: nat :: Faithful(k, Compile(stmts, MaxStack(stmts), EnvOf(k, o)), M.Running(pc, [], w), j)
  }

  /** Every send and every block run by the activation comes to something, among the contexts. */
  ghost predicate AlwaysAnswerable(k: C.Kernel, stmts: seq<Node>, pc: nat, w: World) {
    var p := Compile(stmts, MaxStack(stmts), EnvOf(k, OthersOf(k)));
    forall i: nat :: AnswerableAt(k, p, M.Run(p, M.Running(pc, [], w), i))
  }

  /** Then the kernel's own environment is faithful: with it, nothing is left to be chosen. */
  lemma {:induction false} AnswerableIsFaithful(k: C.Kernel, stmts: seq<Node>, pc: nat, w: World)
    ensures AlwaysAnswerable(k, stmts, pc, w) <==> AlwaysFaithful(k, OthersOf(k), stmts, pc, w)
  {
    var env := EnvOf(k, OthersOf(k));
    var p, m := Compile(stmts, MaxStack(stmts), env), M.Running(pc, [], w);
    CompiledEnv(stmts, MaxStack(stmts), env);
    hide Compile, EnvOf, OthersOf, MaxStack, AnswerableAt, FollowsAt, M.Run;
    forall i: nat ensures FollowsAt(k, p, M.Run(p, m, i)) <==> AnswerableAt(k, p, M.Run(p, m, i)) {
      FollowsIffAnswerable(k, p, M.Run(p, m, i));
    }
    if AlwaysFaithful(k, OthersOf(k), stmts, pc, w) {
      forall i: nat ensures FollowsAt(k, p, M.Run(p, m, i)) {
        assert Faithful(k, p, m, i + 1);
      }
    }
  }

  /** The contexts come to the outcome. */
  ghost predicate ComesTo(k: C.Kernel, w: World, out: Outcome, s: C.State, n: nat) {
    match out
    case Exit(kind, v, w') => Follows(k, w, M.Exited(kind, v, w'), C.Run(k, false, s, n))
    case Never => forall j: nat :: C.Run(k, false, s, j).Running?
    case Normal(_, _) => false
    case _ => true
  }

  lemma {:induction false} FromMachine(k: C.Kernel, o: Others, p: M.Program, w: World, pc: nat, i: nat, out: Outcome, fuel: nat) returns (n: nat)
    requires Whole(w) && Loaded(k, p, Mine(w).method_) && p.env == EnvOf(k, o) && !out.Normal?
    requires forall j: nat :: Faithful(k, p, M.Running(pc, [], w), j)
    requires Reaches(p, M.Running(pc, [], w), i, out, 0, [], fuel)
    ensures ComesTo(k, w, out, StateOf(w, [], pc), n)
  {
    n := 0;
    if out.Exit? || out.Never? {
      n := RunFollows(k, o, p, w, [], pc, i);
    }
    hide Whole, Mine, Loaded, M.Run, C.Run, Follows, EnvOf;
  }

  lemma {:induction false} EnoughFor(stmts: seq<Node>)
    requires Compilable(stmts) && CountedStatements(stmts, false)
    ensures Enough(stmts, MaxStack(stmts))
  {
    hide AllEncodable, AllClosed, PeakStatements, GenBody, CountedStatements;
    EnoughStack(stmts);
    hide MaxStack;
  }

  /** A method's activation runs among the contexts to the end that its parse tree means: a return to its sender,
      or from a block made by it, or never. */
  lemma {:induction false} MethodComesTo(k: C.Kernel, o: Others, stmts: seq<Node>, w: World, fuel: nat) returns (n: nat)
    requires Whole(w) && CompiledIn(k, o, stmts, Mine(w).method_) && AlwaysFaithful(k, o, stmts, 0, w)
    ensures ComesTo(k, w, EvalBody(EnvOf(k, o), stmts, 0, [], w, fuel), StateOf(w, [], 0), n)
  {
    hide Compilable, CountedStatements, Loaded, Whole, Mine, EvalBody, MaxStack, Enough, Reaches, ComesTo, Faithful;
    EnoughFor(stmts);
    var env := EnvOf(k, o);
    var i := MethodMeaning(stmts, MaxStack(stmts), env, w, fuel);
    CompiledEnv(stmts, MaxStack(stmts), env);
    hide EnvOf, Compile;
    n := FromMachine(k, o, Compile(stmts, MaxStack(stmts), env), w, 0, i, EvalBody(env, stmts, 0, [], w, fuel), fuel);
  }

  lemma {:induction false} CompiledEnv(stmts: seq<Node>, stackSize: nat, env: Env)
    ensures Compile(stmts, stackSize, env).env == env
  {
    hide GenBody, Assemble;
  }

  /** So does the activation of a block. */
  lemma {:induction false} BlockComesTo(k: C.Kernel, o: Others, stmts: seq<Node>, b: Site, w: World, fuel: nat) returns (n: nat)
    requires Whole(w) && CompiledIn(k, o, stmts, Mine(w).method_) && AlwaysFaithful(k, o, stmts, b.entry, w)
    requires b in GenBody(stmts, 0, []).sites
    ensures ComesTo(k, w, Answered(EvalInline(EnvOf(k, o), b.statements, true, b.entry, b.lits, w, fuel)), StateOf(w, [], b.entry), n)
  {
    hide Compilable, CountedStatements, Loaded, Whole, Mine, EvalInline, MaxStack, Enough, Reaches, ComesTo, GenBody, Faithful;
    EnoughFor(stmts);
    var env := EnvOf(k, o);
    var i := BlockMeaning(stmts, MaxStack(stmts), env, b, w, fuel);
    CompiledEnv(stmts, MaxStack(stmts), env);
    hide EnvOf, Compile;
    n := FromMachine(k, o, Compile(stmts, MaxStack(stmts), env), w, b.entry, i,
                     Answered(EvalInline(env, b.statements, true, b.entry, b.lits, w, fuel)), fuel);
  }

  // ---- A process -------------------------------------------------------------------------------------

  function FreshWorld(m: nat, args: seq<Value>, temps: nat, x: Store): World {
    World(0, T.Fresh(m, args, temps, x).vm)
  }

  lemma {:induction false} FreshIs(m: nat, args: seq<Value>, temps: nat, x: Store)
    ensures var w := FreshWorld(m, args, temps, x);
            Whole(w) && Mine(w).method_ == m && Mine(w).previous == None && StateOf(w, [], 0) == T.Fresh(m, args, temps, x)
  {
    var c := Context(m, args, temps, [], 0, None, None, 0, 0);
    var none: seq<Value> := [];
    assert none + [] == none && c.(stack := none + c.stack, pc := 0) == c;
    var one: map<nat, Context> := map[0 := c];
    assert one[0 := c] == one;
  }

  /** Where a process with one context returns to, it ends. */
  lemma {:induction false} LastExit(k: C.Kernel, w0: World, v: Value, w: World, s: C.State)
    requires Follows(k, w0, M.Exited(ToSender, v, w), s) && Mine(w0).previous == None
    ensures s.Ended? && s.v == v && s.vm.w == w.vm.w
  {}

  /** The process ends with what the method's tree means, with tail calls optimized as without. */
  lemma {:induction false} ProcessAnswers(k: C.Kernel, o: Others, stmts: seq<Node>, m: nat, args: seq<Value>, temps: nat, x: Store, fuel: nat)
    returns (n: nat)
    requires CompiledIn(k, o, stmts, m) && AlwaysFaithful(k, o, stmts, 0, FreshWorld(m, args, temps, x))
    requires T.Sane(k, T.Fresh(m, args, temps, x))
    requires var out := EvalBody(EnvOf(k, o), stmts, 0, [], FreshWorld(m, args, temps, x), fuel); out.Exit? && out.kind == ToSender
    ensures var out, s := EvalBody(EnvOf(k, o), stmts, 0, [], FreshWorld(m, args, temps, x), fuel), C.Run(k, true, T.Fresh(m, args, temps, x), n);
            s.Ended? && s.v == out.v && s.vm.w == out.w.vm.w
  {
    hide CompiledIn, AlwaysFaithful, T.Sane, EvalBody, C.Run, Whole, Mine, FreshWorld, T.Fresh, EnvOf, Follows, T.Related;
    var w := FreshWorld(m, args, temps, x);
    FreshIs(m, args, temps, x);
    n := MethodComesTo(k, o, stmts, w, fuel);
    var out := EvalBody(EnvOf(k, o), stmts, 0, [], w, fuel);
    LastExit(k, w, out.v, out.w, C.Run(k, false, StateOf(w, [], 0), n));
    T.FreshRelated(k, m, args, temps, x);
    T.TailCallsEnd(k, [0], T.Fresh(m, args, temps, x));
    assert C.Run(k, true, T.Fresh(m, args, temps, x), n).Ended?;
  }

  /** And however the interpreter's run is cut into slices, once there are enough of them. */
  lemma {:induction false} ProcessInSlices(k: C.Kernel, o: Others, stmts: seq<Node>, m: nat, args: seq<Value>, temps: nat, x: Store, fuel: nat, p: L.Process)
    returns (enough: nat)
    requires CompiledIn(k, o, stmts, m) && AlwaysFaithful(k, o, stmts, 0, FreshWorld(m, args, temps, x))
    requires T.Sane(k, T.Fresh(m, args, temps, x))
    requires var out := EvalBody(EnvOf(k, o), stmts, 0, [], FreshWorld(m, args, temps, x), fuel); out.Exit? && out.kind == ToSender
    requires L.Ready(k, p) && L.StateIn(p) == T.Fresh(m, args, temps, x)
    requires forall n: nat :: S.RegistersHidden(k, L.StateIn(p), n)
    ensures var out := EvalBody(EnvOf(k, o), stmts, 0, [], FreshWorld(m, args, temps, x), fuel);
            forall slices: seq<nat> | L.Steps(slices) >= enough && (forall n | n in slices :: n > 0) ::
              L.Slices(k, p, slices).Finished? && L.Slices(k, p, slices).v == out.v
  {
    hide CompiledIn, AlwaysFaithful, T.Sane, EvalBody, C.Run, FreshWorld, T.Fresh, EnvOf, L.Ready, L.StateIn, S.RegistersHidden, L.Slices, L.Steps;
    enough := ProcessAnswers(k, o, stmts, m, args, temps, x, fuel);
    var out, s := EvalBody(EnvOf(k, o), stmts, 0, [], FreshWorld(m, args, temps, x), fuel), T.Fresh(m, args, temps, x);
    forall slices: seq<nat> | L.Steps(slices) >= enough && (forall n | n in slices :: n > 0)
      ensures L.Slices(k, p, slices).Finished? && L.Slices(k, p, slices).v == out.v
    {
      T.EndsOnce(k, true, s, enough, L.Steps(slices));
      S.SlicesCompose(k, p, slices);
      EndedIs(L.Slices(k, p, slices));
    }
  }

  lemma {:induction false} EndedIs(p: L.Process)
    requires L.StateIn(p).Ended?
    ensures p.Finished? && p.v == L.StateIn(p).v
  {
    hide R.Abs;
  }
}
