/** Which method a send enters, when methods are looked up in the classes of the image. */
module Sends {
  import opened Options
  import opened Bytecode
  import opened Values
  import opened Contexts
  import opened Instructions
  import opened MethodLookup

  /** The classes, which are in memory: the class of a value, the class a method is in, and the symbol that a selector
      is.  `rank` is there to show that superclass chains end. */
  datatype Library = Library(
    image: Store -> Image,
    rank: Store -> map<nat, nat>,
    classOf: (Store, Value) -> nat,
    classIn: (Store, nat) -> nat,
    symbolOf: Value -> nat)

  ghost predicate Complete(l: Library, w: Store) {
    && WellFormed(l.image(w), l.rank(w))
    && (forall v :: l.classOf(w, v) in l.image(w).classes)
    && (forall m :: l.classIn(w, m) in l.image(w).classes)
  }

  /** The receiver's class and those above it, nearest first. */
  ghost function FromReceiver(l: Library, w: Store, rcv: Value): seq<nat>
    requires Complete(l, w)
  {
    Chain(l.image(w), l.rank(w), Some(l.classOf(w, rcv)))
  }

  /** The classes above that of a method. */
  ghost function AboveMethod(l: Library, w: Store, m: nat): seq<nat>
    requires Complete(l, w)
  {
    Chain(l.image(w), l.rank(w), l.image(w).classes[l.classIn(w, m)].parent)
  }

  /** The kernel looks methods up in the classes: from the receiver's own, or from the one above a method's. */
  ghost predicate LooksUp(k: Kernel, l: Library) {
    && (forall w, rcv, sel {:trigger k.lookup(w, None, rcv, sel)} | Complete(l, w) ::
          k.lookup(w, None, rcv, sel) == Nearest(l.image(w), l.rank(w), Some(l.classOf(w, rcv)), l.symbolOf(sel)))
    && (forall w, m, rcv, sel {:trigger k.lookup(w, Some(m), rcv, sel)} | Complete(l, w) ::
          k.lookup(w, Some(m), rcv, sel) == Nearest(l.image(w), l.rank(w), l.image(w).classes[l.classIn(w, m)].parent, l.symbolOf(sel)))
  }

  /** There is such a kernel for any classes. */
  ghost function Looking(k: Kernel, l: Library): Kernel {
    k.(lookup := (w: Store, from: Option<nat>, rcv: Value, sel: Value) =>
         if !Complete(l, w) then None
         else
           match from
           case None => Nearest(l.image(w), l.rank(w), Some(l.classOf(w, rcv)), l.symbolOf(sel))
           case Some(m) => Nearest(l.image(w), l.rank(w), l.image(w).classes[l.classIn(w, m)].parent, l.symbolOf(sel)))
  }

  lemma {:induction false} LookingLooksUp(k: Kernel, l: Library)
    ensures LooksUp(Looking(k, l), l)
  {
    hide Complete, Nearest;
  }

  /** f is the method for a selector in the first of these classes that has one. */
  ghost predicate FirstWith(m: Image, chain: seq<nat>, sel: nat, f: nat) {
    exists i :: 0 <= i < |chain| && HasAt(m, chain, sel, f, i)
  }

  ghost predicate HasAt(m: Image, chain: seq<nat>, sel: nat, f: nat, i: nat)
    requires i < |chain|
  {
    && (forall j | 0 <= j < i :: chain[j] in m.classes && sel !in m.classes[chain[j]].keys)
    && chain[i] in m.classes
    && var c := m.classes[chain[i]];
       exists p :: 0 <= p < |c.keys| && p < |c.methods| && c.keys[p] == sel && c.methods[p] == f
  }

  ghost predicate NoneWith(m: Image, chain: seq<nat>, sel: nat) {
    forall j | 0 <= j < |chain| :: chain[j] in m.classes && sel !in m.classes[chain[j]].keys
  }

  lemma {:induction false} OwnIs(m: Image, rank: map<nat, nat>, c: Class, sel: nat, p: nat)
    requires Orderly(m, c) && p < |c.keys| && c.keys[p] == sel
    ensures Own(c.keys, c.methods, sel) == Some(c.methods[p])
  {
    forall j | 0 <= j < p ensures c.keys[j] != sel { Different(m, c, j, p); }
    OwnAt(c.keys, c.methods, sel, p);
  }

  /** The lookup finds the first method of the chain, and nothing when there is none. */
  lemma {:induction false} NearestIs(m: Image, rank: map<nat, nat>, c: Option<nat>, sel: nat, f: nat)
    requires WellFormed(m, rank) && (c.Some? ==> c.value in m.classes)
    ensures FirstWith(m, Chain(m, rank, c), sel, f) ==> Nearest(m, rank, c, sel) == Some(f)
    ensures NoneWith(m, Chain(m, rank, c), sel) <==> Nearest(m, rank, c, sel) == None
  {
    var chain, found := Chain(m, rank, c), Nearest(m, rank, c, sel);
    NearestMeans(m, rank, c, sel);
    hide Nearest, Chain, Own;
    if FirstWith(m, chain, sel, f) {
      var i :| 0 <= i < |chain| && HasAt(m, chain, sel, f, i);
      var k := m.classes[chain[i]];
      var p :| 0 <= p < |k.keys| && p < |k.methods| && k.keys[p] == sel && k.methods[p] == f;
      OwnIs(m, rank, k, sel, p);
      assert sel in k.keys;
      assert found.Some?;
      var j :| 0 <= j < |chain| && (forall h | 0 <= h < j :: sel !in m.classes[chain[h]].keys) && sel in m.classes[chain[j]].keys
               && Own(m.classes[chain[j]].keys, m.classes[chain[j]].methods, sel) == found;
      assert i == j;
    }
  }

  // ---- Entering a method -----------------------------------------------------------------------------

  /** Where the callee returns to: here; but if calls in the last place are optimized, and a return or a block's
      return follows, to where that return would go. */
  function ReturnLink(k: Kernel, tail: bool, s: State, next: nat): Option<Option<nat>>
    requires s.Running? && s.cur in s.vm.contexts
  {
    var c := Here(s);
    var code := k.bytes(c.method_);
    if tail && next < |code| && code[next] == 242 then Some(c.previous)
    else if tail && next < |code| && code[next] == 243 then
      if c.creating.Some? && c.creating.value in s.vm.contexts then Some(s.vm.contexts[c.creating.value].previous) else None
    else Some(Some(s.cur))
  }

  /** A new context is current, about to run f with these arguments; the sender, where it will go on, has taken what
      it sends off its stack. */
  ghost predicate Enters(k: Kernel, tail: bool, s: State, s': State, next: nat, below: seq<Value>, f: nat, args: seq<Value>)
    requires s.Running? && s.cur in s.vm.contexts
  {
    match ReturnLink(k, tail, s, next)
    case None => s' == Stuck
    case Some(to) =>
      var (temps, w) := k.newTemporaries(s.vm.w, f);
      var sender := Here(s).(pc := next, stack := below);
      s' == Running(s.vm.next, VM(s.vm.contexts[s.cur := sender][s.vm.next := Context(f, args, temps, [], 0, to, None, 0, 0)],
                                  w, s.vm.next + 1, s.vm.left))
  }

  /** What a send does, given the classes that are searched and those of the receiver: the first method is entered
      with the arguments; when there is none, that for doesNotUnderstand: with the receiver and the selector; and
      when there is not even that, nothing. */
  ghost predicate Sent(k: Kernel, l: Library, tail: bool, s: State, s': State, next: nat, below: seq<Value>, chain: seq<nat>, args: seq<Value>, sel: Value)
    requires s.Running? && s.cur in s.vm.contexts && Complete(l, s.vm.w) && args != []
  {
    var m, own := l.image(s.vm.w), FromReceiver(l, s.vm.w, args[0]);
    && (forall f | FirstWith(m, chain, l.symbolOf(sel), f) :: Enters(k, tail, s, s', next, below, f, args))
    && (NoneWith(m, chain, l.symbolOf(sel)) ==>
          && (forall f | sel != k.badMethod && FirstWith(m, own, l.symbolOf(k.badMethod), f) ::
                Enters(k, tail, s, s', next, below, f, [args[0], sel]))
          && (sel == k.badMethod || NoneWith(m, own, l.symbolOf(k.badMethod)) ==> s' == Stuck))
  }

  /** The state in which a send is done. */
  ghost predicate Sending(k: Kernel, s: State, next: nat, below: seq<Value>, vm: VM, c: Context) {
    && s.Running? && s.cur in s.vm.contexts
    && c == Here(s).(pc := next, stack := below)
    && vm == s.vm.(contexts := s.vm.contexts[s.cur := Here(s).(pc := next)])
  }

  lemma {:induction false} LinkIs(k: Kernel, tail: bool, s: State, next: nat, below: seq<Value>, vm: VM, c: Context)
    requires Sending(k, s, next, below, vm, c)
    ensures Link(k, tail, s.cur, vm, c) == ReturnLink(k, tail, s, next)
  {}

  lemma {:induction false} CallIs(k: Kernel, tail: bool, s: State, next: nat, below: seq<Value>, vm: VM, c: Context,
                                  from: Option<nat>, args: seq<Value>, sel: Value)
    requires Sending(k, s, next, below, vm, c) && args != []
    ensures var s' := Call(k, tail, s.cur, vm, c, from, args, sel);
            var m, d := k.lookup(vm.w, from, args[0], sel), k.lookup(vm.w, None, args[0], k.badMethod);
            if m.Some? then Enters(k, tail, s, s', next, below, m.value, args)
            else if d.Some? && sel != k.badMethod then Enters(k, tail, s, s', next, below, d.value, [args[0], sel])
            else s' == Stuck
  {
    LinkIs(k, tail, s, next, below, vm, c);
    assert vm.contexts[s.cur := c] == s.vm.contexts[s.cur := c];
    hide Link, ReturnLink;
  }

  lemma {:induction false} SentBy(k: Kernel, l: Library, tail: bool, s: State, next: nat, below: seq<Value>, vm: VM, c: Context,
                                  from: Option<nat>, args: seq<Value>, sel: Value)
    requires Sending(k, s, next, below, vm, c) && args != []
    requires Complete(l, s.vm.w) && LooksUp(k, l)
    ensures var chain := if from.None? then FromReceiver(l, s.vm.w, args[0]) else AboveMethod(l, s.vm.w, from.value);
            Sent(k, l, tail, s, Call(k, tail, s.cur, vm, c, from, args, sel), next, below, chain, args, sel)
  {
    CallIs(k, tail, s, next, below, vm, c, from, args, sel);
    var w, m, rank := s.vm.w, l.image(s.vm.w), l.rank(s.vm.w);
    var own := Some(l.classOf(w, args[0]));
    var start := if from.None? then own else m.classes[l.classIn(w, from.value)].parent;
    assert k.lookup(w, from, args[0], sel) == Nearest(m, rank, start, l.symbolOf(sel));
    assert k.lookup(w, None, args[0], k.badMethod) == Nearest(m, rank, own, l.symbolOf(k.badMethod));
    hide Call, Link, Enters, Nearest, Chain, FirstWith, NoneWith, LooksUp;
    forall f: nat ensures FirstWith(m, Chain(m, rank, start), l.symbolOf(sel), f) ==> Nearest(m, rank, start, l.symbolOf(sel)) == Some(f) {
      NearestIs(m, rank, start, l.symbolOf(sel), f);
    }
    forall f: nat ensures FirstWith(m, Chain(m, rank, own), l.symbolOf(k.badMethod), f) ==> Nearest(m, rank, own, l.symbolOf(k.badMethod)) == Some(f) {
      NearestIs(m, rank, own, l.symbolOf(k.badMethod), f);
    }
    NearestIs(m, rank, start, l.symbolOf(sel), 0);
    NearestIs(m, rank, own, l.symbolOf(k.badMethod), 0);
  }

  // ---- The three instructions ------------------------------------------------------------------------

  /** A message: searched for from the receiver's class on. */
  lemma {:induction false} MessageEnters(k: Kernel, l: Library, tail: bool, s: State, n: nat, next: nat, below: seq<Value>, args: seq<Value>)
    requires StandsAt(k, s, SendMessage(n), next) && LooksUp(k, l) && Complete(l, s.vm.w)
    requires Here(s).stack == below + [Arguments(args)] && args != []
    ensures Sent(k, l, tail, s, Step(k, tail, s), next, below, FromReceiver(l, s.vm.w, args[0]), args, k.literal(Here(s).method_, n))
  {
    hide Decode, LooksUp, Complete, Sent, Call, Link, With, Push, Pushing, Becoming, FromReceiver, AboveMethod, Step;
    Fetched(k, tail, s, SendMessage(n), next);
    var c := Here(s).(pc := next);
    assert Front(c.stack, 1) == below;
    SentBy(k, l, tail, s, next, below, s.vm.(contexts := s.vm.contexts[s.cur := c]), c.(stack := below), None, args, k.literal(c.method_, n));
  }

  /** A message to super: searched for above the class of the method that sends it, whatever the receiver. */
  lemma {:induction false} SuperEnters(k: Kernel, l: Library, tail: bool, s: State, n: nat, next: nat, below: seq<Value>, args: seq<Value>)
    requires StandsAt(k, s, SendToSuper(n), next) && LooksUp(k, l) && Complete(l, s.vm.w)
    requires Here(s).stack == below + [Arguments(args)] && args != []
    ensures var m := Here(s).method_;
            Sent(k, l, tail, s, Step(k, tail, s), next, below, AboveMethod(l, s.vm.w, m), args, k.literal(m, n))
  {
    hide Decode, LooksUp, Complete, Sent, Call, Link, With, Push, Pushing, Becoming, FromReceiver, AboveMethod, Step;
    Fetched(k, tail, s, SendToSuper(n), next);
    var c := Here(s).(pc := next);
    assert Front(c.stack, 1) == below;
    SentBy(k, l, tail, s, next, below, s.vm.(contexts := s.vm.contexts[s.cur := c]), c.(stack := below), Some(c.method_), args, k.literal(c.method_, n));
  }

  /** <, <= and + are messages unless both values are small integers. */
  lemma {:induction false} BinaryEnters(k: Kernel, l: Library, tail: bool, s: State, n: nat, next: nat, below: seq<Value>, a: Value, b: Value)
    requires StandsAt(k, s, SendBinary(n), next) && n <= 2 && LooksUp(k, l) && Complete(l, s.vm.w)
    requires Here(s).stack == below + [a, b] && !(a.SmallInt? && b.SmallInt?)
    ensures Sent(k, l, tail, s, Step(k, tail, s), next, below, FromReceiver(l, s.vm.w, a), [a, b],
                 Symbol(if n == 0 then "<" else if n == 1 then "<=" else "+"))
  {
    hide Decode, LooksUp, Complete, Sent, Call, Link, With, Push, Pushing, Becoming, FromReceiver, AboveMethod, Step;
    Fetched(k, tail, s, SendBinary(n), next);
    var c := Here(s).(pc := next);
    assert Front(c.stack, 2) == below;
    SentBy(k, l, tail, s, next, below, s.vm.(contexts := s.vm.contexts[s.cur := c]), c.(stack := below), None, [a, b],
           Symbol(if n == 0 then "<" else if n == 1 then "<=" else "+"));
  }

  /** And on two small integers they are done at once. */
  lemma {:induction false} BinaryDone(k: Kernel, tail: bool, s: State, n: nat, next: nat, below: seq<Value>, i: int, j: int)
    requires StandsAt(k, s, SendBinary(n), next) && n <= 2 && Here(s).stack == below + [SmallInt(i), SmallInt(j)]
    ensures Step(k, tail, s) ==
            Pushing(k, s, next, below, if n == 0 then (if i < j then True else False) else if n == 1 then (if i <= j then True else False)
                                       else SmallInt(i + j), s.vm.w)
  {
    Fetched(k, tail, s, SendBinary(n), next);
    hide Decode, With, Push, Pushing, Becoming;
    var c := Here(s).(pc := next);
    assert Front(c.stack, 2) == below;
    var vm := s.vm.(contexts := s.vm.contexts[s.cur := c]);
    assert vm == vm.(w := s.vm.w);
  }
}
