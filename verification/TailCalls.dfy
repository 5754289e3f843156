/** Tail calls: a send that is followed by a return lets the callee return past its caller.  The machine
    that does so comes to the same results as the one that does not, with the contexts in between left out. */
module TailCalls {
  import opened Bytes
  import opened Options
  import opened Bytecode
  import opened Syntax
  import opened Values
  import opened Contexts

  // ---- Chains ------------------------------------------------------------------------------------------

  /** The contexts that control will come back to: each one's previous context is the next in the chain. */
  ghost predicate Chain(vm: VM, chain: seq<nat>) {
    && chain != []
    && (forall i | 0 <= i < |chain| :: chain[i] in vm.contexts)
    && (forall i, j | 0 <= i < |chain| && 0 <= j < |chain| && chain[i] == chain[j] :: i == j)
    && (forall i | 0 <= i < |chain| :: vm.contexts[chain[i]].previous == After(chain, i))
  }

  function After(chain: seq<nat>, i: nat): Option<nat> {
    if i + 1 < |chain| then Some(chain[i + 1]) else None
  }

  /** What the context will do next. */
  function NextByte(k: Kernel, c: Context): byte {
    ByteAt(k.bytes(c.method_), c.pc)
  }

  /** A value handed to the j-th context of the chain ends up at q: contexts that only return it are passed
      through, to the previous context or to that of their home. */
  ghost predicate Goes(k: Kernel, vm: VM, chain: seq<nat>, j: nat, q: Option<nat>)
    requires j <= |chain| && forall i | 0 <= i < |chain| :: chain[i] in vm.contexts
    decreases |chain| - j
  {
    if j == |chain| then q == None
    else
      var c := vm.contexts[chain[j]];
      if NextByte(k, c) == STACK_RETURN then Goes(k, vm, chain, j + 1, q)
      else if NextByte(k, c) == BLOCK_RETURN then
        forall h {:trigger chain[h]} | j < h < |chain| && c.creating == Some(chain[h]) :: Goes(k, vm, chain, h + 1, q)
      else q == Some(chain[j])
  }

  /** What never changes in a context. */
  predicate Alike(a: Context, b: Context) {
    a.method_ == b.method_ && a.args == b.args && a.temps == b.temps && a.creating == b.creating && a.argLoc == b.argLoc && a.start == b.start
  }

  /** The same but for the previous context. */
  predicate Twins(a: Context, b: Context) {
    Alike(a, b) && a.stack == b.stack && a.pc == b.pc
  }

  /** vn is the machine without tail calls, vt the one with them.  Along the chain of the first, contexts
      are the same, and what is previous to each in the second is where its value would end up. */
  ghost predicate Rel(k: Kernel, chain: seq<nat>, vn: VM, vt: VM) {
    && Chain(vn, chain)
    && vn.contexts.Keys == vt.contexts.Keys && vn.w == vt.w && vn.next == vt.next
    && (forall d | d in vn.contexts :: d < vn.next && Alike(vn.contexts[d], vt.contexts[d]))
    && (forall d | d in vn.left || d in vt.left :: d < vn.next)
    && (forall i | 0 <= i < |chain| :: Kept(k, chain, vn, vt, i))
  }

  ghost predicate Kept(k: Kernel, chain: seq<nat>, vn: VM, vt: VM, i: nat)
    requires i < |chain| && (forall j | 0 <= j < |chain| :: chain[j] in vn.contexts) && vn.contexts.Keys == vt.contexts.Keys
  {
    var c := vn.contexts[chain[i]];
    && Twins(c, vt.contexts[chain[i]]) && chain[i] !in vn.left && chain[i] !in vt.left
    && |c.stack| <= k.stackSize(c.method_) && (i > 0 ==> |c.stack| < k.stackSize(c.method_))
    && Goes(k, vn, chain, i + 1, vt.contexts[chain[i]].previous)
  }

  ghost predicate Related(k: Kernel, chain: seq<nat>, sn: State, st: State) {
    match (sn, st)
    case (Running(c, vn), Running(d, vt)) => c == d && Rel(k, chain, vn, vt) && chain[0] == c
    case (Ended(v, vn), Ended(u, vt)) => v == u && vn.w == vt.w
    case (one, _) => one.Stuck? || one.Strayed?
  }

  // ---- Goes --------------------------------------------------------------------------------------------

  /** Goes looks only at the contexts from j on. */
  lemma {:induction false} GoesFrame(k: Kernel, vm: VM, vm': VM, chain: seq<nat>, j: nat, q: Option<nat>)
    requires j <= |chain| && forall i | 0 <= i < |chain| :: chain[i] in vm.contexts && chain[i] in vm'.contexts
    requires forall i | j <= i < |chain| :: Twins(vm.contexts[chain[i]], vm'.contexts[chain[i]])
    requires Goes(k, vm, chain, j, q)
    ensures Goes(k, vm', chain, j, q)
    decreases |chain| - j
  {
    if j < |chain| {
      var c := vm.contexts[chain[j]];
      if NextByte(k, c) == STACK_RETURN {
        GoesFrame(k, vm, vm', chain, j + 1, q);
      } else if NextByte(k, c) == BLOCK_RETURN {
        forall h {:trigger chain[h]} | j < h < |chain| && c.creating == Some(chain[h]) ensures Goes(k, vm', chain, h + 1, q) {
          GoesFrame(k, vm, vm', chain, h + 1, q);
        }
      }
    }
  }

  /** Contexts before j may be dropped from the chain, or others put there. */
  lemma {:induction false} GoesShift(k: Kernel, vm: VM, a: seq<nat>, i: nat, b: seq<nat>, j: nat, q: Option<nat>)
    requires i <= |a| && j <= |b| && a[i..] == b[j..]
    requires (forall x | 0 <= x < |a| :: a[x] in vm.contexts) && (forall x | 0 <= x < |b| :: b[x] in vm.contexts)
    requires Goes(k, vm, a, i, q)
    ensures Goes(k, vm, b, j, q)
    decreases |a| - i
  {
    assert |a| - i == |a[i..]| == |b[j..]| == |b| - j;
    if i < |a| {
      assert a[i] == a[i..][0] == b[j..][0] == b[j];
      var c := vm.contexts[a[i]];
      if NextByte(k, c) == STACK_RETURN {
        assert a[i + 1..] == a[i..][1..] == b[j..][1..] == b[j + 1..];
        GoesShift(k, vm, a, i + 1, b, j + 1, q);
      } else if NextByte(k, c) == BLOCK_RETURN {
        forall h {:trigger b[h]} | j < h < |b| && c.creating == Some(b[h]) ensures Goes(k, vm, b, h + 1, q) {
          var g := h - j + i;
          assert a[g] == a[i..][h - j] == b[j..][h - j] == b[h];
          assert a[g + 1..] == a[i..][h - j + 1..] == b[j..][h - j + 1..] == b[h + 1..];
          GoesShift(k, vm, a, g + 1, b, h + 1, q);
        }
      }
    }
  }

  /** A chain is determined by its first context. */
  lemma {:induction false} ChainUnique(vm: VM, a: seq<nat>, b: seq<nat>, i: nat)
    requires Chain(vm, a) && Chain(vm, b) && a[0] == b[0] && i <= |a|
    ensures i <= |b| && a[..i] == b[..i]
    ensures i == |a| ==> |a| == |b| && a == b
    decreases i
  {
    if i > 0 {
      ChainUnique(vm, a, b, i - 1);
      if i > 1 {
        assert vm.contexts[a[i - 2]].previous == Some(a[i - 1]);
        assert a[i - 2] == a[..i - 1][i - 2] == b[..i - 1][i - 2] == b[i - 2];
        assert After(b, i - 2) == Some(a[i - 1]);
      }
      assert a[..i] == a[..i - 1] + [a[i - 1]] && b[..i] == b[..i - 1] + [b[i - 1]];
      if i == |a| {
        assert vm.contexts[a[i - 1]].previous == None;
        assert After(b, i - 1) == None;
        assert a == a[..i] && b == b[..i];
      }
    }
  }

  lemma {:induction false} ChainDrop(vm: VM, chain: seq<nat>, i: nat)
    requires Chain(vm, chain) && i < |chain|
    ensures Chain(vm, chain[i..])
  {
    forall j | 0 <= j < |chain[i..]| ensures vm.contexts[chain[i..][j]].previous == After(chain[i..], j) {
      assert vm.contexts[chain[i + j]].previous == After(chain, i + j);
    }
  }

  // ---- Instructions that stay in the context -----------------------------------------------------------

  /** Both machines give the current context the same new form. */
  lemma {:induction false} SetCurrent(k: Kernel, chain: seq<nat>, vn: VM, vt: VM, cn: Context, ct: Context, w: Store)
    requires Rel(k, chain, vn, vt)
    requires Twins(cn, ct) && Alike(cn, vn.contexts[chain[0]])
    requires cn.previous == vn.contexts[chain[0]].previous && ct.previous == vt.contexts[chain[0]].previous
    requires |cn.stack| <= k.stackSize(cn.method_)
    ensures Rel(k, chain, vn.(contexts := vn.contexts[chain[0] := cn], w := w), vt.(contexts := vt.contexts[chain[0] := ct], w := w))
  {
    var un := vn.(contexts := vn.contexts[chain[0] := cn], w := w);
    var ut := vt.(contexts := vt.contexts[chain[0] := ct], w := w);
    forall i | 0 <= i < |chain| ensures Kept(k, chain, un, ut, i) {
      KeptSet(k, chain, vn, vt, cn, ct, w, i);
    }
    hide Kept;
  }

  lemma {:induction false} KeptSet(k: Kernel, chain: seq<nat>, vn: VM, vt: VM, cn: Context, ct: Context, w: Store, i: nat)
    requires Chain(vn, chain) && vn.contexts.Keys == vt.contexts.Keys && i < |chain| && Kept(k, chain, vn, vt, i) && Kept(k, chain, vn, vt, 0)
    requires Twins(cn, ct) && Alike(cn, vn.contexts[chain[0]]) && |cn.stack| <= k.stackSize(cn.method_)
    requires ct.previous == vt.contexts[chain[0]].previous
    ensures Kept(k, chain, vn.(contexts := vn.contexts[chain[0] := cn], w := w), vt.(contexts := vt.contexts[chain[0] := ct], w := w), i)
  {
    var un := vn.(contexts := vn.contexts[chain[0] := cn], w := w);
    GoesFrame(k, vn, un, chain, i + 1, vt.contexts[chain[i]].previous);
    hide Goes;
  }

  /** The contexts the machines are in, and what they have in common. */
  lemma {:induction false} Both(k: Kernel, chain: seq<nat>, vn: VM, vt: VM)
    requires Rel(k, chain, vn, vt)
    ensures chain != [] && chain[0] in vn.contexts && chain[0] in vt.contexts && chain[0] < vn.next
    ensures Twins(vn.contexts[chain[0]], vt.contexts[chain[0]])
    ensures |vn.contexts[chain[0]].stack| <= k.stackSize(vn.contexts[chain[0]].method_)
  {
    assert Kept(k, chain, vn, vt, 0);
  }

  lemma {:induction false} PushRelated(k: Kernel, chain: seq<nat>, vn: VM, vt: VM, cn: Context, ct: Context, w: Store, v: Value)
    requires Rel(k, chain, vn, vt)
    requires Twins(cn, ct) && Alike(cn, vn.contexts[chain[0]])
    requires cn.previous == vn.contexts[chain[0]].previous && ct.previous == vt.contexts[chain[0]].previous
    ensures Related(k, chain, Push(k, chain[0], vn.(w := w), cn, v), Push(k, chain[0], vt.(w := w), ct, v))
  {
    if |cn.stack| < k.stackSize(cn.method_) {
      SetCurrent(k, chain, vn, vt, cn.(stack := cn.stack + [v]), ct.(stack := ct.stack + [v]), w);
    }
  }

  lemma {:induction false} WithRelated(k: Kernel, chain: seq<nat>, vn: VM, vt: VM, cn: Context, ct: Context, w: Store)
    requires Rel(k, chain, vn, vt)
    requires Twins(cn, ct) && Alike(cn, vn.contexts[chain[0]]) && |cn.stack| <= k.stackSize(cn.method_)
    requires cn.previous == vn.contexts[chain[0]].previous && ct.previous == vt.contexts[chain[0]].previous
    ensures Related(k, chain, With(chain[0], vn.(w := w), cn), With(chain[0], vt.(w := w), ct))
  {
    SetCurrent(k, chain, vn, vt, cn, ct, w);
  }

  /** Both make the same new object that is not being run. */
  lemma {:induction false} AddBlock(k: Kernel, chain: seq<nat>, vn: VM, vt: VM, block: Context)
    requires Rel(k, chain, vn, vt)
    ensures Rel(k, chain, VM(vn.contexts[vn.next := block], vn.w, vn.next + 1, vn.left + {vn.next}),
                VM(vt.contexts[vt.next := block], vt.w, vt.next + 1, vt.left + {vt.next}))
  {
    var un := VM(vn.contexts[vn.next := block], vn.w, vn.next + 1, vn.left + {vn.next});
    var ut := VM(vt.contexts[vt.next := block], vt.w, vt.next + 1, vt.left + {vt.next});
    forall i | 0 <= i < |chain| ensures chain[i] < vn.next && un.contexts[chain[i]] == vn.contexts[chain[i]] && ut.contexts[chain[i]] == vt.contexts[chain[i]] {
      assert Kept(k, chain, vn, vt, i);
    }
    forall i | 0 <= i < |chain| ensures Kept(k, chain, un, ut, i) {
      assert Kept(k, chain, vn, vt, i);
      GoesFrame(k, vn, un, chain, i + 1, vt.contexts[chain[i]].previous);
    }
  }

  /** Instructions that neither send nor return. */
  predicate Local(i: Instr) {
    !i.SendMessage? && !i.SendToSuper? && !i.SendBinary? && !i.DoPrimitive? && !i.SelfReturn? && !i.StackReturn? && !i.BlockReturn?
  }

  lemma {:induction false} LocalRelated(k: Kernel, chain: seq<nat>, vn: VM, vt: VM, i: Instr)
    requires Rel(k, chain, vn, vt) && Local(i)
    ensures Related(k, chain, Exec(k, false, chain[0], vn, vn.contexts[chain[0]], i), Exec(k, true, chain[0], vt, vt.contexts[chain[0]], i))
  {
    hide Rel, Kept, Chain, Push, With;
    Both(k, chain, vn, vt);
    var cn, ct, w := vn.contexts[chain[0]], vt.contexts[chain[0]], vn.w;
    assert vn.(w := w) == vn && vt.(w := w) == vt by { SameWorld(k, chain, vn, vt); }
    var s := cn.stack;
    match i
    case PushInstance(n) => PushRelated(k, chain, vn, vt, cn, ct, w, k.field(w, Receiver(cn), n));
    case PushArgument(n) => PushRelated(k, chain, vn, vt, cn, ct, w, if n < |cn.args| then cn.args[n] else Nil);
    case PushTemporary(n) => PushRelated(k, chain, vn, vt, cn, ct, w, k.temporary(w, cn.temps, n));
    case PushLiteral(n) => PushRelated(k, chain, vn, vt, cn, ct, w, k.literal(cn.method_, n));
    case PushConstant(n) => PushRelated(k, chain, vn, vt, cn, ct, w, Constant(n));
    case AssignInstance(n) => if s != [] { WithRelated(k, chain, vn, vt, cn, ct, k.setField(w, Receiver(cn), n, Last(s))); }
    case AssignTemporary(n) => if s != [] { WithRelated(k, chain, vn, vt, cn, ct, k.setTemporary(w, cn.temps, n, Last(s))); }
    case MarkArguments(n) =>
      if n <= |s| { PushRelated(k, chain, vn, vt, cn.(stack := Front(s, n)), ct.(stack := Front(s, n)), w, Arguments(Topmost(s, n))); }
    case SendUnary(n) =>
      if s != [] { PushRelated(k, chain, vn, vt, cn.(stack := Front(s, 1)), ct.(stack := Front(s, 1)), w, Unary(n, Last(s))); }
    case PushBlock(argLoc, target) => BlockRelated(k, chain, vn, vt, argLoc, target);
    case Duplicate => if s != [] { PushRelated(k, chain, vn, vt, cn, ct, w, Last(s)); }
    case PopTop => if s != [] { WithRelated(k, chain, vn, vt, cn.(stack := Front(s, 1)), ct.(stack := Front(s, 1)), w); }
    case Branch(target) => WithRelated(k, chain, vn, vt, cn.(pc := target), ct.(pc := target), w);
    case BranchIfTrue(target) =>
      if s != [] {
        var pc := if Last(s) == True then target else cn.pc;
        WithRelated(k, chain, vn, vt, cn.(stack := Front(s, 1), pc := pc), ct.(stack := Front(s, 1), pc := pc), w);
      }
    case BranchIfFalse(target) =>
      if s != [] {
        var pc := if Last(s) == False then target else cn.pc;
        WithRelated(k, chain, vn, vt, cn.(stack := Front(s, 1), pc := pc), ct.(stack := Front(s, 1), pc := pc), w);
      }
    case Breakpoint =>
  }

  lemma {:induction false} SameWorld(k: Kernel, chain: seq<nat>, vn: VM, vt: VM)
    requires Rel(k, chain, vn, vt)
    ensures vn.w == vt.w && vn.next == vt.next && vn.contexts.Keys == vt.contexts.Keys && Chain(vn, chain)
  {}

  lemma {:induction false} BlockRelated(k: Kernel, chain: seq<nat>, vn: VM, vt: VM, argLoc: nat, target: nat)
    requires Rel(k, chain, vn, vt)
    ensures Related(k, chain, MakeBlock(k, chain[0], vn, vn.contexts[chain[0]], argLoc, target),
                    MakeBlock(k, chain[0], vt, vt.contexts[chain[0]], argLoc, target))
  {
    hide Rel, Kept, Chain, Push, Related;
    Both(k, chain, vn, vt);
    SameWorld(k, chain, vn, vt);
    var cn, ct := vn.contexts[chain[0]], vt.contexts[chain[0]];
    var block := Context(cn.method_, cn.args, cn.temps, [], 0, None, if cn.creating.Some? then cn.creating else Some(chain[0]), argLoc, cn.pc);
    AddBlock(k, chain, vn, vt, block);
    var un := VM(vn.contexts[vn.next := block], vn.w, vn.next + 1, vn.left + {vn.next});
    var ut := VM(vt.contexts[vt.next := block], vt.w, vt.next + 1, vt.left + {vt.next});
    PushRelated(k, chain, un, ut, cn.(pc := target), ct.(pc := target), vn.w, Object(vn.next));
    assert un.(w := vn.w) == un && ut.(w := vn.w) == ut;
  }

  // ---- Sends -------------------------------------------------------------------------------------------

  /** Where the callee's value would go is where it is sent. */
  lemma {:induction false} LinkGoes(k: Kernel, chain: seq<nat>, vn: VM, vt: VM, d: nat, vm: VM)
    requires Rel(k, chain, vn, vt)
    requires (forall x | x in vn.contexts :: x in vm.contexts && vm.contexts[x] == vn.contexts[x]) && d in vm.contexts
    requires var c := vn.contexts[chain[0]]; NextByte(k, c) == BLOCK_RETURN ==> HomeOf(vn, c).Some?
    ensures var link := Link(k, true, chain[0], vt, vt.contexts[chain[0]]);
            link.Some? && Goes(k, vm, [d] + chain, 1, link.value)
  {
    var c := vn.contexts[chain[0]];
    var long := [d] + chain;
    assert long[1..] == chain[0..] && long[2..] == chain[1..];
    assert Kept(k, chain, vn, vt, 0);
    if NextByte(k, c) == STACK_RETURN {
      GoesFrame(k, vn, vm, chain, 1, vt.contexts[chain[0]].previous);
      GoesShift(k, vm, chain, 1, long, 2, vt.contexts[chain[0]].previous);
    } else if NextByte(k, c) == BLOCK_RETURN {
      var link := vt.contexts[c.creating.value].previous;
      forall h {:trigger long[h]} | 1 < h < |long| && c.creating == Some(long[h]) ensures Goes(k, vm, long, h + 1, link) {
        assert long[h] == chain[h - 1] && Kept(k, chain, vn, vt, h - 1);
        GoesFrame(k, vn, vm, chain, h, link);
        assert long[h + 1..] == chain[h..];
        GoesShift(k, vm, chain, h, long, h + 1, link);
      }
    }
  }

  /** The caller waits, and the callee heads the chain. */
  lemma {:induction false} CallRelated(k: Kernel, chain: seq<nat>, vn: VM, vt: VM, m: nat, args: seq<Value>, t: nat, w: Store)
    requires Rel(k, chain, vn, vt)
    requires var c := vn.contexts[chain[0]];
             |c.stack| < k.stackSize(c.method_) && (NextByte(k, c) == BLOCK_RETURN ==> HomeOf(vn, c).Some?)
    ensures var link := Link(k, true, chain[0], vt, vt.contexts[chain[0]]);
            && link.Some?
            && Rel(k, [vn.next] + chain,
                   VM(vn.contexts[vn.next := Context(m, args, t, [], 0, Some(chain[0]), None, 0, 0)], w, vn.next + 1, vn.left),
                   VM(vt.contexts[vt.next := Context(m, args, t, [], 0, link.value, None, 0, 0)], w, vt.next + 1, vt.left))
  {
    var un := VM(vn.contexts[vn.next := Context(m, args, t, [], 0, Some(chain[0]), None, 0, 0)], w, vn.next + 1, vn.left);
    LinkGoes(k, chain, vn, vt, vn.next, un);
    var link := Link(k, true, chain[0], vt, vt.contexts[chain[0]]);
    hide Goes, Link, HomeOf, NextByte;
    var ut := VM(vt.contexts[vt.next := Context(m, args, t, [], 0, link.value, None, 0, 0)], w, vt.next + 1, vt.left);
    Extend(k, chain, vn, vt, un, ut);
  }

  lemma {:induction false} Extend(k: Kernel, chain: seq<nat>, vn: VM, vt: VM, un: VM, ut: VM)
    requires Rel(k, chain, vn, vt)
    requires var c := vn.contexts[chain[0]]; |c.stack| < k.stackSize(c.method_)
    requires vn.next in un.contexts && vn.next in ut.contexts && Twins(un.contexts[vn.next], ut.contexts[vn.next])
    requires un.contexts[vn.next].stack == [] && un.contexts[vn.next].previous == Some(chain[0])
    requires un.contexts == vn.contexts[vn.next := un.contexts[vn.next]] && ut.contexts == vt.contexts[vn.next := ut.contexts[vn.next]]
    requires un.w == ut.w && un.next == ut.next == vn.next + 1 && un.left == vn.left && ut.left == vt.left
    requires Goes(k, un, [vn.next] + chain, 1, ut.contexts[vn.next].previous)
    ensures Rel(k, [vn.next] + chain, un, ut)
  {
    var long := [vn.next] + chain;
    LongChain(k, chain, vn, vt, un);
    forall i | 0 <= i < |long| ensures Kept(k, long, un, ut, i) {
      if i > 0 {
        KeptLonger(k, chain, vn, vt, long, un, ut, i - 1);
      } else {
        KeptCallee(k, long, un, ut);
      }
    }
    hide Kept, Chain, Goes;
  }

  lemma {:induction false} KeptCallee(k: Kernel, long: seq<nat>, un: VM, ut: VM)
    requires Chain(un, long) && un.contexts.Keys == ut.contexts.Keys && long[0] !in un.left && long[0] !in ut.left
    requires Twins(un.contexts[long[0]], ut.contexts[long[0]]) && un.contexts[long[0]].stack == []
    requires Goes(k, un, long, 1, ut.contexts[long[0]].previous)
    ensures Kept(k, long, un, ut, 0)
  {}

  lemma {:induction false} LongChain(k: Kernel, chain: seq<nat>, vn: VM, vt: VM, un: VM)
    requires Rel(k, chain, vn, vt) && vn.next in un.contexts && un.contexts[vn.next].previous == Some(chain[0])
    requires forall d | d in vn.contexts :: d in un.contexts && un.contexts[d] == vn.contexts[d]
    ensures Chain(un, [vn.next] + chain)
  {
    var long := [vn.next] + chain;
    forall i | 0 <= i < |long| ensures long[i] in un.contexts && un.contexts[long[i]].previous == After(long, i) {
      if i > 0 {
        assert long[i] == chain[i - 1] && vn.contexts[chain[i - 1]].previous == After(chain, i - 1);
      }
    }
  }

  lemma {:induction false} KeptLonger(k: Kernel, chain: seq<nat>, vn: VM, vt: VM, long: seq<nat>, un: VM, ut: VM, i: nat)
    requires Rel(k, chain, vn, vt) && i < |chain| && long == [vn.next] + chain
    requires var c := vn.contexts[chain[0]]; |c.stack| < k.stackSize(c.method_)
    requires (forall d | d in vn.contexts :: d in un.contexts && un.contexts[d] == vn.contexts[d] && d in ut.contexts && ut.contexts[d] == vt.contexts[d])
    requires un.left == vn.left && ut.left == vt.left && un.contexts.Keys == ut.contexts.Keys && vn.next in un.contexts
    ensures Kept(k, long, un, ut, i + 1)
  {
    assert Kept(k, chain, vn, vt, i) && long[i + 1] == chain[i];
    var q := vt.contexts[chain[i]].previous;
    GoesFrame(k, vn, un, chain, i + 1, q);
    assert long[i + 2..] == chain[i + 1..];
    GoesShift(k, un, chain, i + 1, long, i + 2, q);
  }

  /** A block that is not in the chain takes the place of the current context. */
  lemma {:induction false} InvokeRelated(k: Kernel, chain: seq<nat>, vn: VM, vt: VM, b: nat, w: Store)
    requires Rel(k, chain, vn, vt) && b in vn.contexts && b !in chain
    ensures var gn, gt := Leave(chain[0], vn, vn.contexts[chain[0]]), Leave(chain[0], vt, vt.contexts[chain[0]]);
            var bn, bt := vn.contexts[b], vt.contexts[b];
            Rel(k, [b] + chain[1..],
                VM(gn.contexts[b := bn.(stack := [], pc := bn.start, previous := vn.contexts[chain[0]].previous)], w, vn.next, gn.left - {b}),
                VM(gt.contexts[b := bt.(stack := [], pc := bt.start, previous := vt.contexts[chain[0]].previous)], w, vt.next, gt.left - {b}))
  {
    var gn, gt := Leave(chain[0], vn, vn.contexts[chain[0]]), Leave(chain[0], vt, vt.contexts[chain[0]]);
    var bn, bt := vn.contexts[b], vt.contexts[b];
    var un := VM(gn.contexts[b := bn.(stack := [], pc := bn.start, previous := vn.contexts[chain[0]].previous)], w, vn.next, gn.left - {b});
    var ut := VM(gt.contexts[b := bt.(stack := [], pc := bt.start, previous := vt.contexts[chain[0]].previous)], w, vt.next, gt.left - {b});
    var next := [b] + chain[1..];
    NextChain(vn, chain, b, un);
    forall i | 0 <= i < |next| ensures Kept(k, next, un, ut, i) {
      KeptNext(k, chain, vn, vt, b, un, ut, i);
    }
    hide Kept, Chain, Goes;
  }

  lemma {:induction false} NextChain(vn: VM, chain: seq<nat>, b: nat, un: VM)
    requires Chain(vn, chain) && b !in chain && b in un.contexts && un.contexts[b].previous == After(chain, 0)
    requires forall i | 0 < i < |chain| :: chain[i] in un.contexts && un.contexts[chain[i]] == vn.contexts[chain[i]]
    ensures Chain(un, [b] + chain[1..])
  {
    var next := [b] + chain[1..];
    forall i | 0 <= i < |next| ensures next[i] in un.contexts && un.contexts[next[i]].previous == After(next, i) {
      if i > 0 {
        assert next[i] == chain[i] && vn.contexts[chain[i]].previous == After(chain, i);
      }
    }
  }

  lemma {:induction false} KeptNext(k: Kernel, chain: seq<nat>, vn: VM, vt: VM, b: nat, un: VM, ut: VM, i: nat)
    requires Rel(k, chain, vn, vt) && b in vn.contexts && b !in chain && i < |chain|
    requires un.contexts.Keys == ut.contexts.Keys == vn.contexts.Keys
    requires un.contexts[b] == vn.contexts[b].(stack := [], pc := vn.contexts[b].start, previous := vn.contexts[chain[0]].previous)
    requires ut.contexts[b] == vt.contexts[b].(stack := [], pc := vt.contexts[b].start, previous := vt.contexts[chain[0]].previous)
    requires forall j | 0 < j < |chain| :: un.contexts[chain[j]] == vn.contexts[chain[j]] && ut.contexts[chain[j]] == vt.contexts[chain[j]]
    requires un.left == vn.left + {chain[0]} - {b} && ut.left == vt.left + {chain[0]} - {b}
    ensures Kept(k, [b] + chain[1..], un, ut, i)
  {
    var next := [b] + chain[1..];
    assert Kept(k, chain, vn, vt, i);
    assert forall j | 0 < j < |chain| :: next[j] == chain[j];
    var q := vt.contexts[chain[i]].previous;
    GoesFrame(k, vn, un, chain, i + 1, q);
    assert next[i + 1..] == chain[i + 1..];
    GoesShift(k, un, chain, i + 1, next, i + 1, q);
  }

  // ---- Proper runs -------------------------------------------------------------------------------------

  /** The next instruction returns only through a home that is still in the chain, runs only a block that is
      not, and is a send before a block return only in a block. */
  ghost predicate ProperOn(k: Kernel, vm: VM, chain: seq<nat>)
    requires Chain(vm, chain)
  {
    var c := vm.contexts[chain[0]];
    match Decode(k.bytes(c.method_), c.pc)
    case Invalid => true
    case Decoded(i, next) =>
      && (i.BlockReturn? ==> exists h :: 0 < h < |chain| && c.creating == Some(chain[h]))
      && (i.DoPrimitive? && i.number == 8 && c.stack != [] && Last(c.stack).Object? ==> Last(c.stack).id !in chain)
      && ((i.SendMessage? || i.SendToSuper? || i.SendBinary?) && ByteAt(k.bytes(c.method_), next) == BLOCK_RETURN ==> HomeOf(vm, c).Some?)
  }

  ghost predicate Proper(k: Kernel, s: State) {
    s.Running? ==> exists chain :: Chain(s.vm, chain) && chain[0] == s.cur && ProperOn(k, s.vm, chain)
  }

  /** The machine without tail calls never gets stuck, never strays, and is always proper. */
  ghost predicate Sane(k: Kernel, s: State) {
    forall n: nat :: Allowed(k, Run(k, false, s, n))
  }

  ghost predicate Allowed(k: Kernel, s: State) {
    Proper(k, s) && !s.Stuck? && !s.Strayed?
  }

  lemma {:induction false} SaneHere(k: Kernel, s: State)
    requires Sane(k, s)
    ensures Proper(k, s) && !s.Stuck? && !s.Strayed?
  {
    assert Allowed(k, Run(k, false, s, 0));
    hide Proper;
  }

  lemma {:induction false} SaneStep(k: Kernel, s: State)
    requires Sane(k, s)
    ensures Sane(k, Step(k, false, s))
  {
    hide Allowed, Step;
    forall n: nat ensures Allowed(k, Run(k, false, Step(k, false, s), n)) {
      assert Allowed(k, Run(k, false, s, n + 1));
    }
  }

  lemma {:induction false} SaneRest(k: Kernel, s: State, p: nat)
    requires Sane(k, s)
    ensures Sane(k, Run(k, false, s, p))
    decreases p
  {
    hide Sane, Step;
    if p > 0 {
      SaneStep(k, s);
      SaneRest(k, Step(k, false, s), p - 1);
    }
  }

  lemma {:induction false} ProperHere(k: Kernel, s: State, chain: seq<nat>)
    requires Proper(k, s) && s.Running? && Chain(s.vm, chain) && chain[0] == s.cur
    ensures ProperOn(k, s.vm, chain)
  {
    var other :| Chain(s.vm, other) && other[0] == s.cur && ProperOn(k, s.vm, other);
    ChainUnique(s.vm, other, chain, |other|);
  }

  // ---- Returns -----------------------------------------------------------------------------------------

  function At(chain: seq<nat>, j: nat): Option<nat> {
    if j < |chain| then Some(chain[j]) else None
  }

  /** The contexts of the chain from j on wait for a value, and have room for it. */
  ghost predicate Waiting(k: Kernel, vm: VM, chain: seq<nat>, j: nat) {
    && (forall i | 0 <= i < |chain| :: chain[i] in vm.contexts)
    && (forall x, y | 0 <= x < |chain| && 0 <= y < |chain| && chain[x] == chain[y] :: x == y)
    && (forall i | j <= i < |chain| :: WaitsAt(k, vm, chain, i))
  }

  ghost predicate WaitsAt(k: Kernel, vm: VM, chain: seq<nat>, i: nat)
    requires i < |chain| && chain[i] in vm.contexts
  {
    var c := vm.contexts[chain[i]];
    chain[i] !in vm.left && |c.stack| < k.stackSize(c.method_) && c.previous == At(chain, i + 1)
  }

  /** Only contexts of the chain before i have changed, and only in what matters while they are run. */
  ghost predicate Passed(vm: VM, vm': VM, chain: seq<nat>, i: nat) {
    && vm'.contexts.Keys == vm.contexts.Keys && vm'.w == vm.w && vm'.next == vm.next
    && (forall d | d in vm.contexts :: Alike(vm.contexts[d], vm'.contexts[d]) && vm'.contexts[d].previous == vm.contexts[d].previous)
    && (forall x | i <= x < |chain| && chain[x] in vm.contexts :: vm'.contexts[chain[x]] == vm.contexts[chain[x]] && (chain[x] in vm'.left ==> chain[x] in vm.left))
    && (forall d | d in vm'.left :: d in vm.left || d in vm.contexts)
  }

  /** One context is passed through: the value is pushed, popped, and handed on. */
  lemma {:induction false} PassOne(k: Kernel, vm: VM, chain: seq<nat>, j: nat, v: Value, h: nat)
    requires j < |chain| && Waiting(k, vm, chain, j)
    requires var c := vm.contexts[chain[j]];
             || (NextByte(k, c) == STACK_RETURN && h == j)
             || (NextByte(k, c) == BLOCK_RETURN && j < h < |chain| && c.creating == Some(chain[h]))
    ensures var d := Deliver(k, vm, Some(chain[j]), v);
            var gone := vm.(contexts := vm.contexts[chain[j] := vm.contexts[chain[j]].(stack := [], pc := 0)], left := vm.left + {chain[j]});
            && d.Running? && d.cur == chain[j] && Chain(d.vm, chain[j..])
            && Step(k, false, d) == Deliver(k, gone, At(chain, h + 1), v)
            && Passed(vm, gone, chain, j + 1) && Waiting(k, gone, chain, j + 1)
  {
    assert WaitsAt(k, vm, chain, j);
    var c := vm.contexts[chain[j]];
    var pushed := c.(stack := c.stack + [v]);
    var d := Deliver(k, vm, Some(chain[j]), v);
    assert d == Running(chain[j], vm.(contexts := vm.contexts[chain[j] := pushed]));
    PassChain(k, vm, chain, j, pushed);
    PassStep(k, d.vm, chain[j], pushed, v, h > j);
    var gone := vm.(contexts := vm.contexts[chain[j] := c.(stack := [], pc := 0)], left := vm.left + {chain[j]});
    assert d.vm.contexts[chain[j] := c.(stack := [], pc := 0)] == gone.contexts;
    forall i | j + 1 <= i < |chain| ensures WaitsAt(k, gone, chain, i) {
      assert WaitsAt(k, vm, chain, i);
    }
    if h > j {
      assert WaitsAt(k, vm, chain, h);
    }
  }

  lemma {:induction false} PassChain(k: Kernel, vm: VM, chain: seq<nat>, j: nat, pushed: Context)
    requires j < |chain| && Waiting(k, vm, chain, j) && pushed.previous == vm.contexts[chain[j]].previous
    ensures Chain(vm.(contexts := vm.contexts[chain[j] := pushed]), chain[j..])
  {
    var un := vm.(contexts := vm.contexts[chain[j] := pushed]);
    var rest := chain[j..];
    forall i | 0 <= i < |rest| ensures un.contexts[rest[i]].previous == After(rest, i) {
      assert WaitsAt(k, vm, chain, j + i);
    }
  }

  /** The return instruction of a context that does nothing else. */
  lemma {:induction false} PassStep(k: Kernel, vm: VM, d: nat, c: Context, v: Value, block: bool)
    requires d in vm.contexts && vm.contexts[d] == c && c.stack != [] && Last(c.stack) == v
    requires NextByte(k, c) == if block then BLOCK_RETURN else STACK_RETURN
    requires block ==> HomeOf(vm, c).Some? && c.creating != Some(d)
    ensures Step(k, false, Running(d, vm)) ==
            Deliver(k, vm.(contexts := vm.contexts[d := c.(stack := [], pc := 0)], left := vm.left + {d}),
                    if block then HomeOf(vm, c).value else c.previous, v)
  {
    var i := if block then BlockReturn else StackReturn;
    assert Decode(k.bytes(c.method_), c.pc) == Decoded(i, c.pc + 1);
    var c' := c.(pc := c.pc + 1);
    var vm' := vm.(contexts := vm.contexts[d := c']);
    assert Leave(d, vm', c') == vm.(contexts := vm.contexts[d := c.(stack := [], pc := 0)], left := vm.left + {d}) by {
      assert vm'.contexts[d := c'.(stack := [], pc := 0)] == vm.contexts[d := c.(stack := [], pc := 0)];
    }
    hide Deliver, Decode, Leave;
  }

  /** A value on its way through the chain arrives where Goes says, in a run that ends. */
  lemma {:induction false} PassThrough(k: Kernel, vm: VM, chain: seq<nat>, j: nat, q: Option<nat>, v: Value)
    returns (p: nat, vm': VM, i: nat)
    requires j <= |chain| && Waiting(k, vm, chain, j) && Goes(k, vm, chain, j, q)
    requires Sane(k, Deliver(k, vm, At(chain, j), v))
    ensures j <= i <= |chain| && q == At(chain, i)
    ensures Run(k, false, Deliver(k, vm, At(chain, j), v), p) == Deliver(k, vm', q, v)
    ensures Passed(vm, vm', chain, i) && Waiting(k, vm', chain, i)
    decreases |chain| - j
  {
    hide Step, Deliver, Waiting, Passed, Sane, Goes, NextByte, Chain;
    var d := Deliver(k, vm, At(chain, j), v);
    NothingPassed(k, vm, chain, j);
    if !IsPassing(k, vm, chain, j) {
      GoesHere(k, vm, chain, j, q);
      p, vm', i := 0, vm, j;
      return;
    }
    var h := HomeIndex(k, vm, chain, j, v);
    PassOne(k, vm, chain, j, v, h);
    var gone := vm.(contexts := vm.contexts[chain[j] := vm.contexts[chain[j]].(stack := [], pc := 0)], left := vm.left + {chain[j]});
    WaitingLater(k, vm, gone, chain, j + 1, h + 1);
    GoneGoes(k, vm, gone, chain, j, h, q);
    SaneStep(k, d);
    p, vm', i := PassThrough(k, gone, chain, h + 1, q, v);
    PassedTwice(vm, gone, vm', chain, j + 1, i);
    p := p + 1;
  }

  /** The j-th context of the chain does nothing with a value but return it. */
  ghost predicate IsPassing(k: Kernel, vm: VM, chain: seq<nat>, j: nat) {
    j < |chain| && chain[j] in vm.contexts &&
    (NextByte(k, vm.contexts[chain[j]]) == STACK_RETURN || NextByte(k, vm.contexts[chain[j]]) == BLOCK_RETURN)
  }

  lemma {:induction false} GoesHere(k: Kernel, vm: VM, chain: seq<nat>, j: nat, q: Option<nat>)
    requires j <= |chain| && (forall i | 0 <= i < |chain| :: chain[i] in vm.contexts) && Goes(k, vm, chain, j, q) && !IsPassing(k, vm, chain, j)
    ensures q == At(chain, j)
  {}

  lemma {:induction false} NothingPassed(k: Kernel, vm: VM, chain: seq<nat>, j: nat)
    requires j <= |chain| && Waiting(k, vm, chain, j)
    ensures Passed(vm, vm, chain, j) && forall i | 0 <= i < |chain| :: chain[i] in vm.contexts
  {}

  /** Where the home of a context that is passed through stands in the chain. */
  lemma {:induction false} HomeIndex(k: Kernel, vm: VM, chain: seq<nat>, j: nat, v: Value) returns (h: nat)
    requires j < |chain| && Waiting(k, vm, chain, j)
    requires NextByte(k, vm.contexts[chain[j]]) == STACK_RETURN || NextByte(k, vm.contexts[chain[j]]) == BLOCK_RETURN
    requires Sane(k, Deliver(k, vm, At(chain, j), v))
    ensures var c := vm.contexts[chain[j]];
            if NextByte(k, c) == STACK_RETURN then h == j else j < h < |chain| && c.creating == Some(chain[h])
  {
    var c := vm.contexts[chain[j]];
    assert WaitsAt(k, vm, chain, j);
    var d := Deliver(k, vm, At(chain, j), v);
    assert d == Running(chain[j], vm.(contexts := vm.contexts[chain[j] := c.(stack := c.stack + [v])]));
    if NextByte(k, c) == STACK_RETURN {
      h := j;
    } else {
      PassChain(k, vm, chain, j, c.(stack := c.stack + [v]));
      SaneHere(k, d);
      ProperHere(k, d, chain[j..]);
      hide Run, Waiting, Deliver;
      var g := ProperHome(k, d.vm, chain[j..]);
      h := j + g;
    }
  }

  lemma {:induction false} ProperHome(k: Kernel, vm: VM, chain: seq<nat>) returns (h: nat)
    requires Chain(vm, chain) && ProperOn(k, vm, chain) && NextByte(k, vm.contexts[chain[0]]) == BLOCK_RETURN
    ensures 0 < h < |chain| && vm.contexts[chain[0]].creating == Some(chain[h])
  {
    var c := vm.contexts[chain[0]];
    assert Decode(k.bytes(c.method_), c.pc) == Decoded(BlockReturn, c.pc + 1);
    h :| 0 < h < |chain| && c.creating == Some(chain[h]);
  }

  lemma {:induction false} WaitingLater(k: Kernel, vm: VM, gone: VM, chain: seq<nat>, j: nat, i: nat)
    requires Waiting(k, gone, chain, j) && j <= i
    ensures Waiting(k, gone, chain, i)
  {}

  lemma {:induction false} GoneGoes(k: Kernel, vm: VM, gone: VM, chain: seq<nat>, j: nat, h: nat, q: Option<nat>)
    requires j < |chain| && j <= h < |chain| && Waiting(k, vm, chain, j) && Passed(vm, gone, chain, j + 1) && Goes(k, vm, chain, j, q)
    requires var c := vm.contexts[chain[j]];
             || (NextByte(k, c) == STACK_RETURN && h == j)
             || (NextByte(k, c) == BLOCK_RETURN && j < h && c.creating == Some(chain[h]))
    ensures Goes(k, gone, chain, h + 1, q)
  {
    GoesFrame(k, vm, gone, chain, h + 1, q);
  }

  lemma {:induction false} PassedTwice(a: VM, b: VM, c: VM, chain: seq<nat>, j: nat, i: nat)
    requires Passed(a, b, chain, j) && Passed(b, c, chain, i) && j <= i
    ensures Passed(a, c, chain, i)
  {}

  /** What is left of the chain, once a value has arrived in it, is related again. */
  lemma {:induction false} Landed(k: Kernel, chain: seq<nat>, vn: VM, vt: VM, un: VM, i: nat, v: Value)
    requires Rel(k, chain, vn, vt) && 0 < i < |chain|
    requires Passed(Leave(chain[0], vn, vn.contexts[chain[0]]), un, chain, i) && Waiting(k, un, chain, i)
    ensures Related(k, chain[i..], Deliver(k, un, Some(chain[i]), v),
                    Deliver(k, Leave(chain[0], vt, vt.contexts[chain[0]]), Some(chain[i]), v))
  {
    var gn, gt := Leave(chain[0], vn, vn.contexts[chain[0]]), Leave(chain[0], vt, vt.contexts[chain[0]]);
    LandedRel(k, chain, vn, vt, un, i);
    assert WaitsAt(k, un, chain, i);
    assert Kept(k, chain, vn, vt, i);
    hide Rel, Kept, Waiting, WaitsAt, Passed;
    var rest := chain[i..];
    var cn, ct := un.contexts[chain[i]], gt.contexts[chain[i]];
    PushRelated(k, rest, un, gt, cn, ct, un.w, v);
    assert un.(w := un.w) == un && gt.(w := un.w) == gt;
  }

  lemma {:induction false} LandedRel(k: Kernel, chain: seq<nat>, vn: VM, vt: VM, un: VM, i: nat)
    requires Rel(k, chain, vn, vt) && 0 < i < |chain|
    requires Passed(Leave(chain[0], vn, vn.contexts[chain[0]]), un, chain, i) && Waiting(k, un, chain, i)
    ensures var gt := Leave(chain[0], vt, vt.contexts[chain[0]]);
            && Rel(k, chain[i..], un, gt) && un.w == gt.w && chain[i] in gt.contexts && chain[i] !in gt.left
            && Twins(un.contexts[chain[i]], gt.contexts[chain[i]])
  {
    var gt := Leave(chain[0], vt, vt.contexts[chain[0]]);
    LandedChain(k, chain, vn, vt, un, i);
    LandedStatic(k, chain, vn, vt, un, i);
    forall j | 0 <= j < |chain| - i ensures Kept(k, chain[i..], un, gt, j) {
      LandedKept(k, chain, vn, vt, un, i, j);
    }
    assert Kept(k, chain[i..], un, gt, 0) && chain[i..][0] == chain[i];
    hide Passed, Waiting, Goes, Alike, Leave, Chain;
  }

  lemma {:induction false} LandedChain(k: Kernel, chain: seq<nat>, vn: VM, vt: VM, un: VM, i: nat)
    requires Rel(k, chain, vn, vt) && 0 < i < |chain|
    requires Passed(Leave(chain[0], vn, vn.contexts[chain[0]]), un, chain, i) && Waiting(k, un, chain, i)
    ensures Chain(un, chain[i..])
  {
    ChainDrop(vn, chain, i);
    var rest := chain[i..];
    forall j | 0 <= j < |rest| ensures un.contexts[rest[j]] == vn.contexts[rest[j]] {
      assert rest[j] == chain[i + j];
    }
  }

  lemma {:induction false} LandedStatic(k: Kernel, chain: seq<nat>, vn: VM, vt: VM, un: VM, i: nat)
    requires Rel(k, chain, vn, vt) && 0 < i < |chain|
    requires Passed(Leave(chain[0], vn, vn.contexts[chain[0]]), un, chain, i)
    ensures var gt := Leave(chain[0], vt, vt.contexts[chain[0]]);
            && un.contexts.Keys == gt.contexts.Keys && un.w == gt.w && un.next == gt.next
            && (forall d | d in un.contexts :: d < un.next && Alike(un.contexts[d], gt.contexts[d]))
            && (forall d | d in un.left || d in gt.left :: d < un.next)
  {
    var gn := Leave(chain[0], vn, vn.contexts[chain[0]]);
    Both(k, chain, vn, vt);
    forall d | d in un.contexts ensures d in vn.contexts && Alike(un.contexts[d], vt.contexts[d]) {
      assert Alike(gn.contexts[d], un.contexts[d]) && Alike(vn.contexts[d], vt.contexts[d]);
    }
    hide Kept, Goes;
  }

  lemma {:induction false} LandedKept(k: Kernel, chain: seq<nat>, vn: VM, vt: VM, un: VM, i: nat, j: nat)
    requires Rel(k, chain, vn, vt) && 0 < i && i + j < |chain|
    requires Passed(Leave(chain[0], vn, vn.contexts[chain[0]]), un, chain, i) && Waiting(k, un, chain, i)
    ensures un.contexts.Keys == vt.contexts.Keys && (forall x | 0 <= x < |chain[i..]| :: chain[i..][x] in un.contexts)
    ensures Kept(k, chain[i..], un, Leave(chain[0], vt, vt.contexts[chain[0]]), j)
  {
    forall x | i <= x < |chain| ensures un.contexts[chain[x]] == vn.contexts[chain[x]] && chain[x] !in un.left {
      assert WaitsAt(k, un, chain, x);
    }
    assert Kept(k, chain, vn, vt, i + j);
    KeptRest(k, chain, vn, vt, un, Leave(chain[0], vt, vt.contexts[chain[0]]), i, j);
    hide Kept, Goes;
  }

  lemma {:induction false} KeptRest(k: Kernel, chain: seq<nat>, vn: VM, vt: VM, un: VM, gt: VM, i: nat, j: nat)
    requires 0 < i && i + j < |chain| && un.contexts.Keys == gt.contexts.Keys == vn.contexts.Keys == vt.contexts.Keys
    requires (forall x | 0 <= x < |chain| :: chain[x] in vn.contexts) && Kept(k, chain, vn, vt, i + j)
    requires forall x | i <= x < |chain| :: un.contexts[chain[x]] == vn.contexts[chain[x]] && chain[x] !in un.left
    requires gt.contexts[chain[i + j]] == vt.contexts[chain[i + j]] && chain[i + j] !in gt.left
    ensures forall x | 0 <= x < |chain[i..]| :: chain[i..][x] in un.contexts
    ensures Kept(k, chain[i..], un, gt, j)
  {
    var rest, q := chain[i..], vt.contexts[chain[i + j]].previous;
    DropDrop(chain, i, j);
    GoesFrame(k, vn, un, chain, i + j + 1, q);
    GoesShift(k, un, chain, i + j + 1, rest, j + 1, q);
    hide Goes;
  }

  lemma {:induction false} DropDrop(chain: seq<nat>, i: nat, j: nat)
    requires i + j < |chain|
    ensures chain[i..][j] == chain[i + j] && chain[i..][j + 1..] == chain[i + j + 1..]
    ensures forall x | 0 <= x < |chain| - i :: chain[i..][x] == chain[i + x]
  {}

  /** A return: the one machine passes the value through the chain, the other has it there at once. */
  lemma {:induction false} ReturnRelated(k: Kernel, chain: seq<nat>, vn: VM, vt: VM, j: nat, q: Option<nat>, v: Value)
    returns (p: nat, chain': seq<nat>)
    requires Rel(k, chain, vn, vt) && 0 < j <= |chain| && Goes(k, vn, chain, j, q)
    requires Sane(k, Deliver(k, Leave(chain[0], vn, vn.contexts[chain[0]]), At(chain, j), v))
    ensures Related(k, chain', Run(k, false, Deliver(k, Leave(chain[0], vn, vn.contexts[chain[0]]), At(chain, j), v), p),
                    Deliver(k, Leave(chain[0], vt, vt.contexts[chain[0]]), q, v))
  {
    var gn := Leave(chain[0], vn, vn.contexts[chain[0]]);
    LeftWaiting(k, chain, vn, vt, j, q);
    var un: VM, i: nat;
    p, un, i := PassThrough(k, gn, chain, j, q, v);
    if i < |chain| {
      Landed(k, chain, vn, vt, un, i, v);
      chain' := chain[i..];
    } else {
      chain' := [];
    }
  }

  lemma {:induction false} LeftWaiting(k: Kernel, chain: seq<nat>, vn: VM, vt: VM, j: nat, q: Option<nat>)
    requires Rel(k, chain, vn, vt) && 0 < j <= |chain| && Goes(k, vn, chain, j, q)
    ensures var gn := Leave(chain[0], vn, vn.contexts[chain[0]]);
            Waiting(k, gn, chain, j) && Goes(k, gn, chain, j, q)
  {
    var gn := Leave(chain[0], vn, vn.contexts[chain[0]]);
    forall i | j <= i < |chain| ensures WaitsAt(k, gn, chain, i) {
      assert Kept(k, chain, vn, vt, i) && vn.contexts[chain[i]].previous == After(chain, i);
    }
    GoesFrame(k, vn, gn, chain, j, q);
  }

  // ---- One instruction -----------------------------------------------------------------------------------

  /** As ProperOn, for the instruction just fetched. */
  ghost predicate ProperExec(k: Kernel, vm: VM, chain: seq<nat>, i: Instr)
    requires Chain(vm, chain)
  {
    var c := vm.contexts[chain[0]];
    && (i.BlockReturn? ==> exists h :: 0 < h < |chain| && c.creating == Some(chain[h]))
    && (i.DoPrimitive? && i.number == 8 && c.stack != [] && Last(c.stack).Object? ==> Last(c.stack).id !in chain)
    && ((i.SendMessage? || i.SendToSuper? || i.SendBinary?) && NextByte(k, c) == BLOCK_RETURN ==> HomeOf(vm, c).Some?)
  }

  lemma {:induction false} DirectReturn(k: Kernel, chain: seq<nat>, vn: VM, vt: VM, v: Value) returns (p: nat, chain': seq<nat>)
    requires Rel(k, chain, vn, vt)
    requires Sane(k, Deliver(k, Leave(chain[0], vn, vn.contexts[chain[0]]), vn.contexts[chain[0]].previous, v))
    ensures Related(k, chain', Run(k, false, Deliver(k, Leave(chain[0], vn, vn.contexts[chain[0]]), vn.contexts[chain[0]].previous, v), p),
                    Deliver(k, Leave(chain[0], vt, vt.contexts[chain[0]]), vt.contexts[chain[0]].previous, v))
  {
    assert Kept(k, chain, vn, vt, 0) && vn.contexts[chain[0]].previous == After(chain, 0) == At(chain, 1);
    hide Kept, Deliver, Leave, Run, Goes, Related;
    p, chain' := ReturnRelated(k, chain, vn, vt, 1, vt.contexts[chain[0]].previous, v);
  }

  lemma {:induction false} HomeReturn(k: Kernel, chain: seq<nat>, vn: VM, vt: VM, h: nat, v: Value) returns (p: nat, chain': seq<nat>)
    requires Rel(k, chain, vn, vt) && 0 < h < |chain| && vn.contexts[chain[0]].creating == Some(chain[h])
    requires HomeOf(vn, vn.contexts[chain[0]]) == Some(vn.contexts[chain[h]].previous)
    requires HomeOf(vt, vt.contexts[chain[0]]) == Some(vt.contexts[chain[h]].previous)
    requires Sane(k, Deliver(k, Leave(chain[0], vn, vn.contexts[chain[0]]), vn.contexts[chain[h]].previous, v))
    ensures Related(k, chain', Run(k, false, Deliver(k, Leave(chain[0], vn, vn.contexts[chain[0]]), vn.contexts[chain[h]].previous, v), p),
                    Deliver(k, Leave(chain[0], vt, vt.contexts[chain[0]]), vt.contexts[chain[h]].previous, v))
  {
    assert Kept(k, chain, vn, vt, h) && vn.contexts[chain[h]].previous == After(chain, h) == At(chain, h + 1);
    hide Kept, Deliver, Leave, Run, Goes, Related;
    p, chain' := ReturnRelated(k, chain, vn, vt, h + 1, vt.contexts[chain[h]].previous, v);
  }

  lemma {:induction false} HomesOf(k: Kernel, chain: seq<nat>, vn: VM, vt: VM, h: nat)
    requires Rel(k, chain, vn, vt) && 0 < h < |chain| && vn.contexts[chain[0]].creating == Some(chain[h])
    ensures HomeOf(vn, vn.contexts[chain[0]]) == Some(vn.contexts[chain[h]].previous)
    ensures HomeOf(vt, vt.contexts[chain[0]]) == Some(vt.contexts[chain[h]].previous)
  {
    Both(k, chain, vn, vt);
  }

  /** A send, its arguments popped. */
  lemma {:induction false} SendRelated(k: Kernel, chain: seq<nat>, vn: VM, vt: VM, pops: nat, from: Option<nat>, args: seq<Value>, selector: Value)
    returns (chain': seq<nat>)
    requires Rel(k, chain, vn, vt) && 0 < pops <= |vn.contexts[chain[0]].stack|
    requires var c := vn.contexts[chain[0]]; NextByte(k, c) == BLOCK_RETURN ==> HomeOf(vn, c).Some?
    requires |vt.contexts[chain[0]].stack| == |vn.contexts[chain[0]].stack|
    ensures var cn, ct := vn.contexts[chain[0]], vt.contexts[chain[0]];
            Related(k, chain', Call(k, false, chain[0], vn, cn.(stack := Front(cn.stack, pops)), from, args, selector),
                    Call(k, true, chain[0], vt, ct.(stack := Front(ct.stack, pops)), from, args, selector))
  {
    hide Rel, Kept, Link, HomeOf, NextByte, Call, Related;
    Both(k, chain, vn, vt);
    var bn, bt := vn.contexts[chain[0]], vt.contexts[chain[0]];
    var cn, ct := bn.(stack := Front(bn.stack, pops)), bt.(stack := Front(bt.stack, pops));
    SetCurrent(k, chain, vn, vt, cn, ct, vn.w);
    SameWorld(k, chain, vn, vt);
    CallSame(k, false, vn, chain[0], cn, from, args, selector);
    CallSame(k, true, vt, chain[0], ct, from, args, selector);
    SameLink(k, vn, chain[0], cn);
    var un := vn.(contexts := vn.contexts[chain[0] := cn], w := vn.w);
    var ut := vt.(contexts := vt.contexts[chain[0] := ct], w := vn.w);
    CalledRelated(k, chain, un, ut, from, args, selector);
    chain' := [un.next] + chain;
  }

  lemma {:induction false} CalledRelated(k: Kernel, chain: seq<nat>, vn: VM, vt: VM, from: Option<nat>, args: seq<Value>, selector: Value)
    requires Rel(k, chain, vn, vt)
    requires var c := vn.contexts[chain[0]]; |c.stack| < k.stackSize(c.method_) && (NextByte(k, c) == BLOCK_RETURN ==> HomeOf(vn, c).Some?)
    ensures Related(k, [vn.next] + chain, Call(k, false, chain[0], vn, vn.contexts[chain[0]], from, args, selector),
                    Call(k, true, chain[0], vt, vt.contexts[chain[0]], from, args, selector))
  {
    hide Rel, Kept, HomeOf, NextByte, Chain, Call, Link, Related, FindCallee;
    Both(k, chain, vn, vt);
    SameWorld(k, chain, vn, vt);
    CallIs(k, false, chain[0], vn, from, args, selector);
    CallIs(k, true, chain[0], vt, from, args, selector);
    NaiveLink(k, vn, chain[0]);
    if args == [] || FindCallee(k, vn.w, from, args, selector).NoMethod? {
      StuckRelated(k, [vn.next] + chain, Call(k, true, chain[0], vt, vt.contexts[chain[0]], from, args, selector));
    } else {
      var callee := FindCallee(k, vn.w, from, args, selector);
      var (t, w') := k.newTemporaries(vn.w, callee.method_);
      CallRelated(k, chain, vn, vt, callee.method_, callee.args, t, w');
      var link := Link(k, true, chain[0], vt, vt.contexts[chain[0]]).value;
      RunningRelated(k, [vn.next] + chain, vn.next, Calling(chain[0], vn, callee, t, w', Some(chain[0])), Calling(chain[0], vt, callee, t, w', link));
    }
  }

  function Calling(cur: nat, vm: VM, callee: Callee, t: nat, w: Store, link: Option<nat>): VM
    requires callee.Callee?
  {
    VM(vm.contexts[vm.next := Context(callee.method_, callee.args, t, [], 0, link, None, 0, 0)], w, vm.next + 1, vm.left)
  }

  lemma {:induction false} CallIs(k: Kernel, tail: bool, cur: nat, vm: VM, from: Option<nat>, args: seq<Value>, selector: Value)
    requires cur in vm.contexts
    ensures Call(k, tail, cur, vm, vm.contexts[cur], from, args, selector) ==
            if args == [] then Stuck
            else
              var callee := FindCallee(k, vm.w, from, args, selector);
              if callee.NoMethod? then Stuck
              else
                var link := Link(k, tail, cur, vm, vm.contexts[cur]);
                if link.None? then Stuck
                else var (t, w') := k.newTemporaries(vm.w, callee.method_); Running(vm.next, Calling(cur, vm, callee, t, w', link.value))
  {
    assert vm.contexts[cur := vm.contexts[cur]] == vm.contexts;
    hide FindCallee, Link;
  }

  lemma {:induction false} NaiveLink(k: Kernel, vm: VM, cur: nat)
    requires cur in vm.contexts
    ensures Link(k, false, cur, vm, vm.contexts[cur]) == Some(Some(cur))
  {}

  lemma {:induction false} RunningRelated(k: Kernel, chain: seq<nat>, cur: nat, vn: VM, vt: VM)
    requires Rel(k, chain, vn, vt) && chain[0] == cur
    ensures Related(k, chain, Running(cur, vn), Running(cur, vt))
  {}

  /** A call does not look at the caller as it was before. */
  lemma {:induction false} CallSame(k: Kernel, tail: bool, vm: VM, cur: nat, c: Context, from: Option<nat>, args: seq<Value>, selector: Value)
    requires cur in vm.contexts && c.previous == vm.contexts[cur].previous
    requires c.creating == vm.contexts[cur].creating && c.method_ == vm.contexts[cur].method_ && c.pc == vm.contexts[cur].pc
    ensures var um := vm.(contexts := vm.contexts[cur := c], w := vm.w);
            Call(k, tail, cur, vm, c, from, args, selector) == Call(k, tail, cur, um, um.contexts[cur], from, args, selector)
  {
    SameLink(k, vm, cur, c);
    var um := vm.(contexts := vm.contexts[cur := c], w := vm.w);
    assert um.contexts[cur := c] == vm.contexts[cur := c];
    hide FindCallee;
  }

  /** What a send returns to does not depend on the caller's stack. */
  lemma {:induction false} SameLink(k: Kernel, vm: VM, cur: nat, c: Context)
    requires cur in vm.contexts && c.previous == vm.contexts[cur].previous
    requires c.creating == vm.contexts[cur].creating && c.method_ == vm.contexts[cur].method_ && c.pc == vm.contexts[cur].pc
    ensures var um := vm.(contexts := vm.contexts[cur := c], w := vm.w);
            && Link(k, true, cur, um, c) == Link(k, true, cur, vm, c) && Link(k, false, cur, vm, c) == Link(k, false, cur, um, c)
            && HomeOf(um, c) == HomeOf(vm, vm.contexts[cur]) && NextByte(k, c) == NextByte(k, vm.contexts[cur])
  {}

  // ---- Primitives --------------------------------------------------------------------------------------

  lemma {:induction false} PrimitiveRelated(k: Kernel, chain: seq<nat>, vn: VM, vt: VM, argCount: nat, number: nat)
    returns (p: nat, chain': seq<nat>)
    requires Rel(k, chain, vn, vt) && number != 8
    requires Sane(k, RunPrimitive(k, chain[0], vn, vn.contexts[chain[0]], argCount, number))
    ensures Related(k, chain', Run(k, false, RunPrimitive(k, chain[0], vn, vn.contexts[chain[0]], argCount, number), p),
                    RunPrimitive(k, chain[0], vt, vt.contexts[chain[0]], argCount, number))
  {
    hide Rel, Kept, Related, Push, Deliver, Leave, Step, Chain;
    Both(k, chain, vn, vt);
    SameWorld(k, chain, vn, vt);
    var cn, ct := vn.contexts[chain[0]], vt.contexts[chain[0]];
    p, chain' := 0, chain;
    if argCount <= |cn.stack| {
      var answer := k.primitive(vn.w, number, Topmost(cn.stack, argCount));
      if answer.Done? {
        WithRelated(k, chain, vn, vt, cn, ct, answer.w);
        OnlyWorld(k, chain, vn, vt, answer.w);
        p, chain' := DirectReturn(k, chain, vn.(w := answer.w), vt.(w := answer.w), answer.v);
      } else {
        var pops := if answer.Failed? then answer.popped else argCount;
        if pops <= |cn.stack| {
          PushRelated(k, chain, vn, vt, cn.(stack := Front(cn.stack, pops)), ct.(stack := Front(ct.stack, pops)), answer.w, Nil);
        } else {
          StuckRelated(k, chain, Stuck);
        }
      }
    } else {
      StuckRelated(k, chain, RunPrimitive(k, chain[0], vt, ct, argCount, number));
    }
  }

  lemma {:induction false} StuckRelated(k: Kernel, chain: seq<nat>, s: State)
    ensures Related(k, chain, Stuck, s)
  {}

  lemma {:induction false} OnlyWorld(k: Kernel, chain: seq<nat>, vn: VM, vt: VM, w: Store)
    requires Rel(k, chain, vn, vt)
    ensures Rel(k, chain, vn.(w := w), vt.(w := w))
  {
    forall i | 0 <= i < |chain| ensures Kept(k, chain, vn.(w := w), vt.(w := w), i) {
      assert Kept(k, chain, vn, vt, i);
      GoesFrame(k, vn, vn.(w := w), chain, i + 1, vt.contexts[chain[i]].previous);
    }
  }

  lemma {:induction false} BlockRun(k: Kernel, chain: seq<nat>, vn: VM, vt: VM, argCount: nat) returns (chain': seq<nat>)
    requires Rel(k, chain, vn, vt)
    requires var c := vn.contexts[chain[0]]; c.stack != [] && Last(c.stack).Object? ==> Last(c.stack).id !in chain
    ensures Related(k, chain', Invoke(k, chain[0], vn, vn.contexts[chain[0]], argCount), Invoke(k, chain[0], vt, vt.contexts[chain[0]], argCount))
  {
    hide Rel, Kept, Related, Push, Leave, Chain;
    Both(k, chain, vn, vt);
    SameWorld(k, chain, vn, vt);
    var cn, ct := vn.contexts[chain[0]], vt.contexts[chain[0]];
    chain' := chain;
    if argCount == 0 || |cn.stack| < argCount || !Last(cn.stack).Object? {
      StuckRelated(k, chain, Stuck);
      return;
    }
    var b := Last(cn.stack).id;
    SameBlock(k, chain, vn, vt, b);
    if b !in vn.contexts || vn.contexts[b].creating.None? {
      StuckRelated(k, chain, Stuck);
      return;
    }
    var entered := k.enterBlock(vn.w, vn.contexts[b].temps, vn.contexts[b].argLoc, BlockArguments(cn.stack, argCount));
    if entered.None? {
      PushRelated(k, chain, vn, vt, cn.(stack := Front(cn.stack, argCount)), ct.(stack := Front(ct.stack, argCount)), vn.w, Nil);
      assert vn.(w := vn.w) == vn && vt.(w := vn.w) == vt;
    } else {
      chain' := [b] + chain[1..];
      InvokeRelated(k, chain, vn, vt, b, entered.value);
      RunningRelated(k, chain', b, Invoke(k, chain[0], vn, cn, argCount).vm, Invoke(k, chain[0], vt, ct, argCount).vm);
    }
  }

  lemma {:induction false} SameBlock(k: Kernel, chain: seq<nat>, vn: VM, vt: VM, b: nat)
    requires Rel(k, chain, vn, vt)
    ensures b in vn.contexts <==> b in vt.contexts
    ensures b in vn.contexts ==> Alike(vn.contexts[b], vt.contexts[b])
  {}

  // ---- Whole runs --------------------------------------------------------------------------------------

  lemma {:induction false} ExecRelated(k: Kernel, chain: seq<nat>, vn: VM, vt: VM, i: Instr) returns (p: nat, chain': seq<nat>)
    requires Rel(k, chain, vn, vt) && ProperExec(k, vn, chain, i)
    requires Sane(k, Exec(k, false, chain[0], vn, vn.contexts[chain[0]], i))
    ensures Related(k, chain', Run(k, false, Exec(k, false, chain[0], vn, vn.contexts[chain[0]], i), p),
                    Exec(k, true, chain[0], vt, vt.contexts[chain[0]], i))
  {
    hide Rel, Kept, Related, Chain, Step, Push, Deliver, Leave, Call, Invoke, RunPrimitive, HomeOf, NextByte;
    Both(k, chain, vn, vt);
    p, chain' := 0, chain;
    var cn, ct := vn.contexts[chain[0]], vt.contexts[chain[0]];
    var s := cn.stack;
    if Local(i) {
      LocalRelated(k, chain, vn, vt, i);
    } else if i.SelfReturn? {
      p, chain' := DirectReturn(k, chain, vn, vt, Receiver(cn));
    } else if s == [] && !i.DoPrimitive? {
      StuckRelated(k, chain, Exec(k, true, chain[0], vt, ct, i));
    } else if i.StackReturn? {
      p, chain' := DirectReturn(k, chain, vn, vt, Last(s));
    } else if i.BlockReturn? {
      var h :| 0 < h < |chain| && cn.creating == Some(chain[h]);
      HomesOf(k, chain, vn, vt, h);
      p, chain' := HomeReturn(k, chain, vn, vt, h, Last(s));
    } else if i.DoPrimitive? {
      if i.number == 8 {
        BlockPrimitive(k, chain[0], vn, cn, i.argCount);
        BlockPrimitive(k, chain[0], vt, ct, i.argCount);
        chain' := BlockRun(k, chain, vn, vt, i.argCount);
      } else {
        p, chain' := PrimitiveRelated(k, chain, vn, vt, i.argCount, i.number);
      }
    } else {
      chain' := SendsRelated(k, chain, vn, vt, i);
    }
  }

  lemma {:induction false} BlockPrimitive(k: Kernel, cur: nat, vm: VM, c: Context, argCount: nat)
    ensures RunPrimitive(k, cur, vm, c, argCount, 8) == Invoke(k, cur, vm, c, argCount)
  {}

  lemma {:induction false} SendsRelated(k: Kernel, chain: seq<nat>, vn: VM, vt: VM, i: Instr) returns (chain': seq<nat>)
    requires Rel(k, chain, vn, vt) && (i.SendMessage? || i.SendToSuper? || i.SendBinary?) && vn.contexts[chain[0]].stack != []
    requires var c := vn.contexts[chain[0]]; NextByte(k, c) == BLOCK_RETURN ==> HomeOf(vn, c).Some?
    ensures Related(k, chain', Exec(k, false, chain[0], vn, vn.contexts[chain[0]], i), Exec(k, true, chain[0], vt, vt.contexts[chain[0]], i))
  {
    hide Rel, Kept, Related, Chain, Push, Call, HomeOf, NextByte;
    Both(k, chain, vn, vt);
    SameWorld(k, chain, vn, vt);
    var cn, ct := vn.contexts[chain[0]], vt.contexts[chain[0]];
    var s := cn.stack;
    StuckRelated(k, chain, Stuck);
    chain' := chain;
    if i.SendBinary? {
      if |s| >= 2 && i.n <= 2 {
        var a, b := s[|s| - 2], s[|s| - 1];
        if a.SmallInt? && b.SmallInt? {
          var v := BinaryValue(i.n, a.i, b.i);
          PushRelated(k, chain, vn, vt, cn.(stack := Front(s, 2)), ct.(stack := Front(s, 2)), vn.w, v);
          assert vn.(w := vn.w) == vn && vt.(w := vn.w) == vt;
        } else {
          chain' := SendRelated(k, chain, vn, vt, 2, None, [a, b], Symbol(BINARY_NAMES[i.n]));
        }
      }
    } else if Last(s).Arguments? {
      var from := if i.SendToSuper? then Some(cn.method_) else None;
      chain' := SendRelated(k, chain, vn, vt, 1, from, Last(s).vals, k.literal(cn.method_, i.n));
    }
  }

  /** One instruction of the machine with tail calls, and the instructions of the other that match it. */
  lemma {:induction false} StepRelated(k: Kernel, chain: seq<nat>, vn: VM, vt: VM) returns (p: nat, chain': seq<nat>)
    requires Rel(k, chain, vn, vt) && Sane(k, Running(chain[0], vn))
    ensures 0 < p
    ensures Related(k, chain', Run(k, false, Running(chain[0], vn), p), Step(k, true, Running(chain[0], vt)))
  {
    hide ProperOn, Chain, Rel, Kept, Related, Exec, HomeOf, Step, Goes, Decode, Run;
    Both(k, chain, vn, vt);
    var sn, st := Running(chain[0], vn), Running(chain[0], vt);
    FirstStep(k, chain, vn, vt);
    SameWorld(k, chain, vn, vt);
    var cn, ct := vn.contexts[chain[0]], vt.contexts[chain[0]];
    var d := Decode(k.bytes(cn.method_), cn.pc);
    StepIs(k, false, chain[0], vn);
    StepIs(k, true, chain[0], vt);
    if d.Invalid? {
      p, chain' := 1, chain;
      RunOne(k, sn, 0);
      StuckRelated(k, chain, Step(k, true, st));
      return;
    }
    SetCurrent(k, chain, vn, vt, cn.(pc := d.next), ct.(pc := d.next), vn.w);
    var un, ut := Fetch(vn, chain[0], d.next), Fetch(vt, chain[0], d.next);
    FetchIs(vn, chain[0], d.next);
    FetchIs(vt, chain[0], d.next);
    SameWorld(k, chain, un, ut);
    Fetched(k, chain, vn, vt, un, d.instr, d.next);
    hide Fetch, ProperExec;
    p, chain' := ExecRelated(k, chain, un, ut, d.instr);
    RunOne(k, sn, p);
    p := p + 1;
  }

  lemma {:induction false} FirstStep(k: Kernel, chain: seq<nat>, vn: VM, vt: VM)
    requires Rel(k, chain, vn, vt) && Sane(k, Running(chain[0], vn))
    ensures Chain(vn, chain) && ProperOn(k, vn, chain) && Sane(k, Step(k, false, Running(chain[0], vn)))
  {
    SaneHere(k, Running(chain[0], vn));
    SaneStep(k, Running(chain[0], vn));
    ProperHere(k, Running(chain[0], vn), chain);
    hide Step, ProperOn, Proper, Sane;
  }

  lemma {:induction false} RunOne(k: Kernel, s: State, p: nat)
    ensures Run(k, false, s, p + 1) == Run(k, false, Step(k, false, s), p) && Run(k, false, s, 1) == Step(k, false, s)
  {
    hide Step;
    assert Run(k, false, Step(k, false, s), 0) == Step(k, false, s);
  }

  /** The current context with its pc past the instruction. */
  function Fetch(vm: VM, cur: nat, next: nat): VM
    requires cur in vm.contexts
  {
    vm.(contexts := vm.contexts[cur := vm.contexts[cur].(pc := next)])
  }

  lemma {:induction false} FetchIs(vm: VM, cur: nat, next: nat)
    requires cur in vm.contexts
    ensures Fetch(vm, cur, next) == vm.(contexts := vm.contexts[cur := vm.contexts[cur].(pc := next)], w := vm.w)
    ensures cur in Fetch(vm, cur, next).contexts
  {}

  lemma {:induction false} StepIs(k: Kernel, tail: bool, cur: nat, vm: VM)
    requires cur in vm.contexts
    ensures Step(k, tail, Running(cur, vm)) ==
            match Decode(k.bytes(vm.contexts[cur].method_), vm.contexts[cur].pc)
            case Invalid => Stuck
            case Decoded(i, next) => Exec(k, tail, cur, Fetch(vm, cur, next), Fetch(vm, cur, next).contexts[cur], i)
  {
    hide Exec, Decode;
  }

  /** What is proper before the fetch is proper after it. */
  lemma {:induction false} Fetched(k: Kernel, chain: seq<nat>, vn: VM, vt: VM, un: VM, i: Instr, next: nat)
    requires Rel(k, chain, vn, vt) && ProperOn(k, vn, chain)
    requires Decode(k.bytes(vn.contexts[chain[0]].method_), vn.contexts[chain[0]].pc) == Decoded(i, next)
    requires un.contexts == vn.contexts[chain[0] := vn.contexts[chain[0]].(pc := next)] && Chain(un, chain)
    ensures ProperExec(k, un, chain, i)
  {
    assert HomeOf(vn, vn.contexts[chain[0]]).Some? ==> HomeOf(un, un.contexts[chain[0]]).Some?;
    hide Decode;
  }

  /** Wherever the machine with tail calls comes to, the one without them comes too, in no fewer steps: the
      surviving contexts are the same, and each returns past those that only return. */
  lemma {:induction false} RunRelated(k: Kernel, chain: seq<nat>, sn: State, st: State, m: nat) returns (n: nat, chain': seq<nat>)
    requires Related(k, chain, sn, st) && Sane(k, sn)
    ensures Related(k, chain', Run(k, false, sn, n), Run(k, true, st, m))
    ensures n >= m || !Run(k, false, sn, n).Running?
    decreases m
  {
    hide Sane, Related, Rel, Step, Run;
    RelatedKinds(k, chain, sn, st);
    RunFirst(k, false, sn, 0);
    RunFirst(k, true, st, m);
    if m == 0 {
      n, chain' := 0, chain;
    } else if !sn.Running? {
      n, chain' := 0, chain;
      RunEnded(k, true, st, m);
    } else {
      var p, mid := StepRelated(k, chain, sn.vm, st.vm);
      SaneRest(k, sn, p);
      n, chain' := RunRelated(k, mid, Run(k, false, sn, p), Step(k, true, st), m - 1);
      RunAdd(k, false, sn, p, n);
      n := n + p;
    }
  }

  lemma {:induction false} RelatedKinds(k: Kernel, chain: seq<nat>, sn: State, st: State)
    requires Related(k, chain, sn, st) && Sane(k, sn)
    ensures sn.Running? || sn.Ended?
    ensures sn.Running? ==> st.Running? && Rel(k, chain, sn.vm, st.vm) && chain != [] && sn.cur == st.cur == chain[0]
    ensures sn.Ended? ==> st.Ended? && sn.v == st.v && sn.vm.w == st.vm.w
  {
    SaneHere(k, sn);
  }

  /** The machine with tail calls ends exactly when the other does, with the same value and the same memory. */
  lemma {:induction false} TailCallsEnd(k: Kernel, chain: seq<nat>, s: State)
    requires Related(k, chain, s, s) && Sane(k, s)
    ensures (exists n: nat :: Run(k, false, s, n).Ended?) <==> (exists m: nat :: Run(k, true, s, m).Ended?)
    ensures forall n: nat, m: nat :: Run(k, false, s, n).Ended? && Run(k, true, s, m).Ended? ==>
              Run(k, true, s, m).v == Run(k, false, s, n).v && Run(k, true, s, m).vm.w == Run(k, false, s, n).vm.w
    ensures forall n: nat :: Run(k, false, s, n).Ended? ==> Run(k, true, s, n).Ended?
  {
    hide Sane, Rel, Step, Related, Run;
    forall n: nat | Run(k, false, s, n).Ended? ensures Run(k, true, s, n).Ended? {
      EndsAsWell(k, chain, s, n);
    }
    if m: nat :| Run(k, true, s, m).Ended? {
      var n := EndsToo(k, chain, s, m);
      assert Run(k, false, s, n).Ended?;
    }
    forall n: nat, m: nat | Run(k, false, s, n).Ended? && Run(k, true, s, m).Ended?
      ensures Run(k, true, s, m).v == Run(k, false, s, n).v && Run(k, true, s, m).vm.w == Run(k, false, s, n).vm.w
    {
      var i := EndsToo(k, chain, s, m);
      EndsOnce(k, false, s, n, i);
    }
  }

  lemma {:induction false} EndsToo(k: Kernel, chain: seq<nat>, s: State, m: nat) returns (n: nat)
    requires Related(k, chain, s, s) && Sane(k, s) && Run(k, true, s, m).Ended?
    ensures Run(k, false, s, n).Ended? && Run(k, false, s, n).v == Run(k, true, s, m).v && Run(k, false, s, n).vm.w == Run(k, true, s, m).vm.w
  {
    hide Rel, Step, Run, Proper;
    var chain': seq<nat>;
    n, chain' := RunRelated(k, chain, s, s, m);
    assert Allowed(k, Run(k, false, s, n));
  }

  lemma {:induction false} EndsAsWell(k: Kernel, chain: seq<nat>, s: State, n: nat)
    requires Related(k, chain, s, s) && Sane(k, s) && Run(k, false, s, n).Ended?
    ensures Run(k, true, s, n).Ended?
  {
    hide Rel, Step, Run, Proper;
    var i, chain' := RunRelated(k, chain, s, s, n);
    assert Allowed(k, Run(k, false, s, i));
    if i >= n {
      EndsOnce(k, false, s, n, i);
    }
  }

  lemma {:induction false} EndsOnce(k: Kernel, tail: bool, s: State, n: nat, i: nat)
    requires Run(k, tail, s, n).Ended? && (i >= n || Run(k, tail, s, i).Ended?)
    ensures Run(k, tail, s, i) == Run(k, tail, s, n)
  {
    hide Step;
    if i >= n {
      RunAdd(k, tail, s, n, i - n);
      RunEnded(k, tail, Run(k, tail, s, n), i - n);
    } else {
      RunAdd(k, tail, s, i, n - i);
      RunEnded(k, tail, Run(k, tail, s, i), n - i);
    }
  }

  /** A process with one context, about to run a method. */
  function Fresh(m: nat, args: seq<Value>, temps: nat, w: Store): State {
    Running(0, VM(map[0 := Context(m, args, temps, [], 0, None, None, 0, 0)], w, 1, {}))
  }

  /** Whatever it comes to with tail calls, it comes to without them, and it ends in the one way when it ends in
      the other. */
  lemma {:induction false} TailCallsRefine(k: Kernel, m: nat, args: seq<Value>, temps: nat, w: Store, steps: nat)
    returns (n: nat, chain: seq<nat>)
    requires Sane(k, Fresh(m, args, temps, w))
    ensures var s := Fresh(m, args, temps, w);
            && Related(k, chain, Run(k, false, s, n), Run(k, true, s, steps))
            && (n >= steps || Run(k, false, s, n).Ended?)
            && (Run(k, false, s, steps).Ended? ==> Run(k, true, s, steps).Ended?)
            && (Run(k, true, s, steps).Ended? <==> Run(k, false, s, n).Ended?)
  {
    var s := Fresh(m, args, temps, w);
    FreshRelated(k, m, args, temps, w);
    TailCallsEnd(k, [0], s);
    hide Rel, Run, Proper;
    n, chain := RunRelated(k, [0], s, s, steps);
    assert Allowed(k, Run(k, false, s, n));
  }

  lemma {:induction false} FreshRelated(k: Kernel, m: nat, args: seq<Value>, temps: nat, w: Store)
    ensures Related(k, [0], Fresh(m, args, temps, w), Fresh(m, args, temps, w))
  {
    var vm := Fresh(m, args, temps, w).vm;
    assert Goes(k, vm, [0], 1, None);
    assert Kept(k, [0], vm, vm, 0);
  }
}
