/** The theory of the copying collector: what holds at every step of gc_move, stated on
    snapshots of memory, and what follows when it is done. */
module Collector {
  import opened Memory

  /** What one collection starts from: memory, the objects of old space, the roots, and the two spaces. */
  datatype Start = Start(
    m: seq<Word>, objs: set<nat>, roots: seq<Word>,
    oldBase: nat, oldTop: nat, newBase: nat, newTop: nat)
  {
    /** IN_OLDSPACE and IN_NEWSPACE count the end address as inside, so the spaces must not touch. */
    ghost predicate Layout() {
      && 0 < oldBase <= oldTop <= |m| && 0 < newBase <= newTop <= |m|
      && oldTop - oldBase == newTop - newBase
      && (oldTop < newBase || newTop < oldBase)
    }

    predicate InOld(a: nat) { oldBase <= a <= oldTop }
    predicate InNew(a: nat) { newBase <= a <= newTop }

    /** A word a live field may hold. */
    predicate Oop(w: Word) {
      w.SmallInt? || (w.Pointer? && (w.addr in objs || (!InOld(w.addr) && !InNew(w.addr))))
    }

    /** Header of an object before the collection. */
    function H(p: nat): Word { WordAt(m, p) }

    ghost predicate Placed() {
      Layout() && Objects(m, objs, oldBase, oldTop)
    }

    ghost predicate Valid() {
      && Placed()
      && (forall p, i {:trigger Data(m, p, i)} | p in objs && Traced(H(p), i) :: Oop(Data(m, p, i)))
      && (forall w | w in roots :: Oop(w))
    }

    /** The same, but for the object at b, which has yet to be filled. */
    ghost predicate ValidBut(b: nat) {
      && Placed() && b in objs
      && (forall p, i {:trigger Data(m, p, i)} | p in objs && p != b && Traced(H(p), i) :: Oop(Data(m, p, i)))
      && (forall w | w in roots :: Oop(w))
    }

    lemma OtherRoots(roots': seq<Word>)
      requires forall w | w in roots' :: Oop(w)
      ensures Valid() ==> this.(roots := roots').Valid()
      ensures forall b | ValidBut(b) :: this.(roots := roots').ValidBut(b)
    {}

    /** Filling it with proper words completes the heap. */
    lemma Filled(b: nat, m': seq<Word>)
      requires ValidBut(b) && |m'| == |m|
      requires forall a | 0 <= a < |m| && !(b < a < b + Foot(H(b))) :: m'[a] == m[a]
      requires forall i | Traced(H(b), i) :: Oop(Data(m', b, i))
      ensures this.(m := m').Valid()
    {
      forall p | p in objs
        ensures WordAt(m', p) == WordAt(m, p)
        ensures p != b ==> forall i | Traced(H(p), i) :: Data(m', p, i) == Data(m, p, i)
      {
        assert p == b || p + Foot(H(p)) <= b || b + Foot(H(b)) <= p;
      }
    }

    /** A header just below the objects is a new one. */
    lemma Added(b: nat, sz: nat)
      requires Valid() && oldBase <= b && b + 2 + sz <= oldTop && forall p | p in objs :: b + 2 + sz <= p
      ensures this.(m := m[b := Header(sz, false, false)], objs := objs + {b}).ValidBut(b)
    {
      var m' := m[b := Header(sz, false, false)];
      forall p | p in objs
        ensures WordAt(m', p) == WordAt(m, p) && forall i | Traced(H(p), i) :: Data(m', p, i) == Data(m, p, i)
      {}
    }

    /** It may become a binary one of as many words. */
    lemma Relabelled(b: nat, h: Word)
      requires ValidBut(b) && h.Header? && !h.done && Foot(h) == Foot(H(b))
      ensures this.(m := m[b := h]).ValidBut(b)
    {
      forall p | p in objs && p != b
        ensures WordAt(m[b := h], p) == WordAt(m, p) && forall i | Traced(H(p), i) :: Data(m[b := h], p, i) == Data(m, p, i)
      {
        assert p + Foot(H(p)) <= b || b + Foot(H(b)) <= p;
      }
      assert forall p | p in objs :: Foot(WordAt(m[b := h], p)) == Foot(H(p));
    }

    ghost predicate Edge(p: nat, q: nat)
    {
      p in objs && exists i :: Traced(H(p), i) && Data(m, p, i) == Pointer(q)
    }

    ghost predicate Path(path: seq<nat>)
    {
      && |path| > 0 && Pointer(path[0]) in roots && path[0] in objs
      && (forall i | 0 < i < |path| :: Hop(path, i))
    }

    ghost predicate Hop(path: seq<nat>, i: nat)
      requires 0 < i < |path|
    {
      path[i] in objs && Edge(path[i - 1], path[i])
    }

    ghost predicate Reachable(p: nat)
    {
      exists path :: Path(path) && path[|path| - 1] == p
    }

    lemma ReachRoot(p: nat)
      requires Valid() && Pointer(p) in roots && p in objs
      ensures Reachable(p)
    {
      assert Path([p]);
    }

    lemma Reaches(w: Word)
      requires Valid() && w in roots
      ensures w.Pointer? && w.addr in objs ==> Reachable(w.addr)
    {
      if w.Pointer? && w.addr in objs {
        ReachRoot(w.addr);
      }
    }

    /** Every slot the collector follows holds a proper word, and what it points at is reachable. */
    lemma Follows(p: nat, i: nat)
      requires Valid() && Reachable(p) && p in objs && Traced(H(p), i)
      ensures Oop(Data(m, p, i))
      ensures var w := Data(m, p, i); w.Pointer? && w.addr in objs ==> Reachable(w.addr)
    {
      var w := Data(m, p, i);
      if w.Pointer? && w.addr in objs {
        ReachStep(p, i, w.addr);
      }
    }

    lemma ReachStep(p: nat, i: nat, q: nat)
      requires Valid() && Reachable(p) && p in objs && Traced(H(p), i)
      requires Data(m, p, i) == Pointer(q) && q in objs
      ensures Reachable(q)
    {
      var path :| Path(path) && path[|path| - 1] == p;
      assert Edge(p, q);
      forall i | 0 < i < |path + [q]|
        ensures Hop(path + [q], i)
      {
        if i < |path| {
          assert Hop(path, i);
        }
      }
      assert Path(path + [q]);
      assert (path + [q])[|path + [q]| - 1] == q;
    }
  }

  /** A word for a field: a small integer, or a pointer to an object, or one into neither of the spaces (as NULL is). */
  ghost predicate Proper(s: Start, w: Word) {
    match w
    case SmallInt(_) => true
    case Pointer(a) => a in s.objs || ((a < s.oldBase || s.oldTop < a) && (a < s.newBase || s.newTop < a))
    case _ => false
  }

  /** Such words are the class of an object, and the fields of one that is not binary. */
  ghost predicate ProperObject(s: Start, p: nat)
    requires p + 1 < |s.m| && s.m[p].Header? && (s.m[p].bin || p + 2 + s.m[p].size <= |s.m|)
  {
    Proper(s, s.m[p + 1]) && (!s.m[p].bin ==> forall a | p + 2 <= a < p + 2 + s.m[p].size :: Proper(s, s.m[a]))
  }

  lemma {:induction false} ObjectMeans(s: Start, p: nat)
    requires s.Placed() && p in s.objs
    ensures p + 1 < |s.m| && s.m[p].Header? && (s.m[p].bin || p + 2 + s.m[p].size <= |s.m|)
    ensures ProperObject(s, p) <==> forall i: nat {:trigger Data(s.m, p, i)} | Traced(s.H(p), i) :: s.Oop(Data(s.m, p, i))
  {
    var h := s.m[p];
    assert forall w :: Proper(s, w) <==> s.Oop(w);
    hide Proper;
    if forall i: nat {:trigger Data(s.m, p, i)} | Traced(s.H(p), i) :: s.Oop(Data(s.m, p, i)) {
      assert s.Oop(Data(s.m, p, 0));
      forall a | !h.bin && p + 2 <= a < p + 2 + h.size ensures Proper(s, s.m[a]) { assert s.Oop(Data(s.m, p, a - p - 1)); }
    }
  }

  /** What a heap has to satisfy, its objects being in place. */
  lemma {:induction false} HeapMeans(s: Start)
    requires s.Placed()
    ensures s.Valid() <==> (forall w | w in s.roots :: Proper(s, w)) && forall p | p in s.objs :: ProperObject(s, p)
  {
    assert forall w :: Proper(s, w) <==> s.Oop(w);
    hide Proper, ProperObject, Start.Placed, Start.Oop;
    forall p | p in s.objs ensures ProperObject(s, p) <==> forall i: nat {:trigger Data(s.m, p, i)} | Traced(s.H(p), i) :: s.Oop(Data(s.m, p, i)) {
      ObjectMeans(s, p);
    }
  }

  type Map = map<nat, nat>

  /** The value the collector leaves in place of w. */
  function Tr(fwd: Map, w: Word): Word {
    if w.Pointer? && w.addr in fwd then Pointer(fwd[w.addr]) else w
  }

  /** w needs no more work: it is not a pointer to an object still to be moved. */
  predicate Settled(s: Start, fwd: Map, w: Word) {
    w.Pointer? && w.addr in s.objs ==> w.addr in fwd
  }

  predicate Extends(fwd: Map, fwd': Map) {
    forall p | p in fwd :: p in fwd' && fwd'[p] == fwd[p]
  }

  lemma TrExtends(s: Start, fwd: Map, fwd': Map, w: Word)
    requires Settled(s, fwd, w) && Extends(fwd, fwd') && fwd'.Keys <= s.objs
    ensures Settled(s, fwd', w) && Tr(fwd', w) == Tr(fwd, w)
  {}

  /** The state of a collection: memory, the forwarding map, the slot each moved object is waiting
      on, the chain of unfinished objects (innermost last), the objects in order of copying, the
      allocation pointer, and the memory outside the two spaces. */
  datatype State = State(m: seq<Word>, fwd: Map, at: Map, stack: seq<nat>, order: seq<nat>, mp: nat, out: seq<Word>)

  ghost predicate Same(m: seq<Word>, m': seq<Word>, lo: nat, hi: nat) {
    |m| == |m'| && hi <= |m| && forall a {:trigger m'[a]} | lo <= a < hi :: m'[a] == m[a]
  }

  ghost predicate Moved(s: Start, t: State, p: nat)
  {
    && p in s.objs && p in t.fwd && p in t.at
    && var h, n, k := s.H(p), t.fwd[p], t.at[p];
    && h.Header?
    && t.mp <= n && n + Foot(h) <= s.newTop
    && WordAt(t.m, n) == Header(h.size, false, h.bin)
    && k <= Body(h)
    && WordAt(t.m, p) == Header(if h.bin then h.size else k, true, h.bin)
    && Data(t.m, p, k) == Pointer(n)
    && (forall i | 0 <= i < k :: Data(t.m, p, i) == Data(s.m, p, i))
    && (h.bin ==> k == 0 && forall i | 0 < i <= Body(h) :: Data(t.m, n, i) == Data(s.m, p, i))
    && (!h.bin ==> forall i | k < i <= h.size ::
                     Settled(s, t.fwd, Data(s.m, p, i)) && Data(t.m, n, i) == Tr(t.fwd, Data(s.m, p, i)))
  }

  /** Finished: the class has been filled in too. */
  ghost predicate Finished(s: Start, t: State, p: nat)
    requires p in t.at && p in t.fwd
  {
    t.at[p] == 0 && Settled(s, t.fwd, Data(s.m, p, 0)) && Data(t.m, t.fwd[p], 0) == Tr(t.fwd, Data(s.m, p, 0))
  }

  /** The object unfinished at depth j: its new copy points back to the previous one, and the value
      it waits for is the next one on the chain. */
  ghost predicate Linked(s: Start, t: State, j: nat)
    requires j < |t.stack|
  {
    var p := t.stack[j];
    && p in t.fwd && p in t.at
    && Data(t.m, t.fwd[p], t.at[p]) == (if j == 0 then NULL else Pointer(t.stack[j - 1]))
    && (j + 1 < |t.stack| ==> Data(s.m, p, t.at[p]) == Pointer(t.stack[j + 1]))
  }

  ghost predicate Below(s: Start, t: State, i: nat)
    requires i < |t.order| && forall p | p in t.order :: p in t.fwd
  {
    && t.order[i] in s.objs
    && t.fwd[t.order[i]] + Foot(s.H(t.order[i])) == if i == 0 then s.newTop else t.fwd[t.order[i - 1]]
  }

  /** Copies lie one below the other from the top of new space down to mp. */
  ghost predicate Stacked(s: Start, t: State)
  {
    && (forall p :: p in t.order <==> p in t.fwd)
    && (forall i, j | 0 <= i < j < |t.order| :: t.order[i] != t.order[j])
    && (forall i | 0 <= i < |t.order| :: Below(s, t, i))
    && t.mp == if t.order == [] then s.newTop else t.fwd[t.order[|t.order| - 1]]
  }

  ghost predicate Shape(s: Start, t: State) {
    && s.Placed() && |t.m| == |s.m|
    && t.fwd.Keys <= s.objs && t.at.Keys == t.fwd.Keys
    && s.newBase <= t.mp <= s.newTop
  }

  /** Nothing outside old space and the copies changes. */
  ghost predicate Outside(s: Start, t: State)
    requires |t.m| == |s.m|
  {
    && |t.out| == |s.m|
    && forall a {:trigger t.m[a]} | 0 <= a < |s.m| && !(s.oldBase <= a < s.oldTop) && !(t.mp <= a < s.newTop) :: t.m[a] == t.out[a]
  }

  ghost predicate Intact(s: Start, m: seq<Word>, p: nat)
  {
    p in s.objs && Same(s.m, m, p, p + Foot(s.H(p)))
  }

  ghost predicate Untouched(s: Start, t: State)
  {
    forall p {:trigger Intact(s, t.m, p)} | p in s.objs && p !in t.fwd :: Intact(s, t.m, p)
  }

  ghost predicate AllMoved(s: Start, t: State)
    requires t.at.Keys == t.fwd.Keys
  {
    forall p {:trigger Moved(s, t, p)} | p in t.fwd :: Moved(s, t, p) && s.Reachable(p) && (p !in t.stack ==> Finished(s, t, p))
  }

  ghost predicate Disjoint(s: Start, fwd: Map, p: nat, q: nat)
    requires p in fwd && q in fwd
  {
    fwd[p] + Foot(s.H(p)) <= fwd[q] || fwd[q] + Foot(s.H(q)) <= fwd[p]
  }

  ghost predicate Apart(s: Start, t: State)
  {
    forall p, q {:trigger Disjoint(s, t.fwd, p, q)} | p in t.fwd && q in t.fwd && p != q :: Disjoint(s, t.fwd, p, q)
  }

  ghost predicate Chained(s: Start, t: State) {
    && (forall p | p in t.stack :: p in t.fwd)
    && (forall i, j | 0 <= i < j < |t.stack| :: t.stack[i] != t.stack[j])
    && (forall j | 0 <= j < |t.stack| :: Linked(s, t, j))
  }

  ghost predicate Inv(s: Start, t: State) {
    && Shape(s, t) && Outside(s, t) && Untouched(s, t) && AllMoved(s, t)
    && Apart(s, t) && Chained(s, t) && Stacked(s, t)
  }

  /** What the innermost unfinished object waits for, or the value gc_move was called with. */
  ghost function Pending(s: Start, t: State, root: Word): Word
  {
    if t.stack == [] then root
    else
      var p := t.stack[|t.stack| - 1];
      if p in t.at then Data(s.m, p, t.at[p]) else NULL
  }

  // ---- Steps ----------------------------------------------------------------------------------

  /** Only the words of the old object p and of its copy at n differ. */
  ghost predicate Touches(m: seq<Word>, m': seq<Word>, p: nat, n: nat, foot: nat) {
    && |m| == |m'|
    && forall a {:trigger m'[a]} | 0 <= a < |m| && !(p <= a < p + foot) && !(n <= a < n + foot) ::
         m'[a] == m[a]
  }

  /** An object none of whose words, nor its copy's, has changed. */
  lemma MovedFrame(s: Start, t: State, t': State, q: nat)
    requires Moved(s, t, q) && |t.m| == |t'.m|
    requires Same(t.m, t'.m, q, q + Foot(s.H(q))) && Same(t.m, t'.m, t.fwd[q], t.fwd[q] + Foot(s.H(q)))
    requires Extends(t.fwd, t'.fwd) && t'.fwd.Keys <= s.objs && t'.mp <= t.mp
    requires q in t'.at && t'.at[q] == t.at[q]
    ensures Moved(s, t', q)
    ensures q in t'.fwd && (Finished(s, t, q) ==> Finished(s, t', q))
    ensures Data(t'.m, t.fwd[q], t.at[q]) == Data(t.m, t.fwd[q], t.at[q])
  {
    hide Tr, Settled, ToWords;
    var h, n, k := s.H(q), t.fwd[q], t.at[q];
    assert forall i | 0 <= i <= Body(h) :: Data(t'.m, n, i) == Data(t.m, n, i);
    assert forall i | 0 <= i <= Body(h) :: Data(t'.m, q, i) == Data(t.m, q, i);
    hide Data;
    forall i | 0 <= i <= Body(h) && Settled(s, t.fwd, Data(s.m, q, i))
      ensures Settled(s, t'.fwd, Data(s.m, q, i)) && Tr(t'.fwd, Data(s.m, q, i)) == Tr(t.fwd, Data(s.m, q, i))
    {
      TrExtends(s, t.fwd, t'.fwd, Data(s.m, q, i));
    }
  }

  /** A step at p leaves every other moved object as it was. */
  lemma OthersKept(s: Start, t: State, t': State, p: nat, n: nat, q: nat)
    requires s.Placed() && |t.m| == |s.m| && p in s.objs && q in s.objs && q != p
    requires Moved(s, t, q)
    requires Touches(t.m, t'.m, p, n, Foot(s.H(p)))
    requires s.newBase <= n && n + Foot(s.H(p)) <= s.newTop && s.newBase <= t.mp
    requires n + Foot(s.H(p)) <= t.fwd[q] || t.fwd[q] + Foot(s.H(q)) <= n
    requires Extends(t.fwd, t'.fwd) && t'.fwd.Keys <= s.objs && t'.mp <= t.mp
    requires q in t'.at && t'.at[q] == t.at[q]
    ensures Moved(s, t', q)
    ensures q in t'.fwd && (Finished(s, t, q) ==> Finished(s, t', q))
    ensures Data(t'.m, t.fwd[q], t.at[q]) == Data(t.m, t.fwd[q], t.at[q])
  {
    Clear(s, t.m, t'.m, p, n, q, t.fwd[q]);
    hide Moved, Finished, Data, Same, Touches, Objects;
    MovedFrame(s, t, t', q);
  }

  /** Two objects, and their copies, have no word in common. */
  lemma Clear(s: Start, m: seq<Word>, m': seq<Word>, p: nat, n: nat, q: nat, nq: nat)
    requires s.Placed() && |m| == |s.m| && p in s.objs && q in s.objs && q != p
    requires Touches(m, m', p, n, Foot(s.H(p)))
    requires s.newBase <= n && n + Foot(s.H(p)) <= s.newTop
    requires s.newBase <= nq && nq + Foot(s.H(q)) <= s.newTop
    requires n + Foot(s.H(p)) <= nq || nq + Foot(s.H(q)) <= n
    ensures Same(m, m', q, q + Foot(s.H(q))) && Same(m, m', nq, nq + Foot(s.H(q)))
  {
    hide Foot;
    assert p + Foot(s.H(p)) <= q || q + Foot(s.H(q)) <= p;
  }

  lemma OutsideKept(s: Start, t: State, t': State, p: nat, n: nat)
    requires Shape(s, t) && Outside(s, t) && Untouched(s, t) && Shape(s, t')
    requires p in s.objs && Touches(t.m, t'.m, p, n, Foot(s.H(p)))
    requires t'.mp <= n && n + Foot(s.H(p)) <= s.newTop && t'.mp <= t.mp
    requires p in t'.fwd && Extends(t.fwd, t'.fwd) && t'.out == t.out
    ensures Outside(s, t') && Untouched(s, t')
  {
    forall q | q in s.objs && q !in t'.fwd
      ensures Intact(s, t'.m, q)
    {
      assert Intact(s, t.m, q);
      OneIntact(s, t, t', p, n, q);
    }
    hide Intact;
  }

  lemma {:induction false} OneIntact(s: Start, t: State, t': State, p: nat, n: nat, q: nat)
    requires Shape(s, t) && Shape(s, t') && p in s.objs && q in s.objs && q != p && Intact(s, t.m, q)
    requires Touches(t.m, t'.m, p, n, Foot(s.H(p))) && t'.mp <= n && n + Foot(s.H(p)) <= s.newTop
    ensures Intact(s, t'.m, q)
  {}

  /** The slot an object waits on first. */
  function First(h: Word): nat {
    if h.Header? && !h.bin then h.size else 0
  }

  /** What is on top of the chain, as the C variable holds it. */
  ghost function Chain(t: State): Word {
    if t.stack == [] then NULL else Pointer(t.stack[|t.stack| - 1])
  }

  /** The object at p is copied: the copy, placed just below the others, keeps its shape (and its
      bytes), and p joins the chain, waiting on its last field (its class when binary). */
  ghost predicate Forwarded(s: Start, t: State, m': seq<Word>, p: nat, n: nat)
  {
    var h := s.H(p);
    var k := First(h);
    && h.Header? && n + Foot(h) == t.mp && s.newBase <= n && t.mp <= s.newTop
    && |m'| == |t.m|
    && (forall a {:trigger m'[a]} | 0 <= a < |t.m| && !(n <= a < n + Foot(h)) && a != p && a != p + 1 + k :: m'[a] == t.m[a])
    && WordAt(m', n) == Header(h.size, false, h.bin)
    && WordAt(m', p) == Header(h.size, true, h.bin)
    && Data(m', p, k) == Pointer(n)
    && Data(m', n, k) == Chain(t)
    && (h.bin ==> forall i | 0 < i <= Body(h) :: Data(m', n, i) == Data(t.m, p, i))
  }

  ghost function ForwardState(s: Start, t: State, m': seq<Word>, p: nat, n: nat): State
  {
    State(m', t.fwd[p := n], t.at[p := First(s.H(p))], t.stack + [p], t.order + [p], n, t.out)
  }

  /** The words written when an object with fields is copied. */
  lemma FieldsForwarded(s: Start, t: State, m': seq<Word>, p: nat, n: nat)
    requires Shape(s, t) && Intact(s, t.m, p) && !s.H(p).bin
    requires s.newBase <= n && n + Foot(s.H(p)) == t.mp
    requires var sz := s.H(p).size;
             m' == t.m[n := Header(sz, false, false)][p := Header(sz, true, false)]
                      [n + 1 + sz := Chain(t)][p + 1 + sz := Pointer(n)]
    ensures Forwarded(s, t, m', p, n)
  {
    assert t.m[p] == s.m[p];
  }

  lemma BytesForwarded(s: Start, t: State, m': seq<Word>, p: nat, n: nat)
    requires Shape(s, t) && Intact(s, t.m, p) && s.H(p).bin && |m'| == |t.m|
    requires s.newBase <= n && n + Foot(s.H(p)) == t.mp
    requires forall a {:trigger m'[a]} | 0 <= a < |t.m| ::
               m'[a] == if a == n then Header(s.H(p).size, false, true)
                        else if a == n + 1 then Chain(t)
                        else if n + 1 < a < n + Foot(s.H(p)) then t.m[a - n + p]
                        else if a == p then Header(s.H(p).size, true, true)
                        else if a == p + 1 then Pointer(n)
                        else t.m[a]
    ensures Forwarded(s, t, m', p, n)
  {
    hide ToWords;
    forall i | 0 < i <= Body(s.H(p))
      ensures Data(m', n, i) == Data(t.m, p, i)
    {
      assert m'[n + 1 + i] == t.m[n + 1 + i - n + p];
    }
  }

  lemma CopyMade(s: Start, t: State, t': State, p: nat, n: nat)
    requires s.Placed() && |t.m| == |s.m| && Intact(s, t.m, p)
    requires Forwarded(s, t, t'.m, p, n) && t' == ForwardState(s, t, t'.m, p, n)
    ensures Moved(s, t', p)
  {
    var h := s.H(p);
    assert h.bin ==> forall i | 0 < i <= Body(h) :: Data(t.m, p, i) == Data(s.m, p, i);
  }

  lemma ForwardOther(s: Start, t: State, t': State, p: nat, n: nat, q: nat)
    requires Shape(s, t) && AllMoved(s, t) && Shape(s, t') && p in s.objs && p !in t.fwd && q in t.fwd
    requires Touches(t.m, t'.m, p, n, Foot(s.H(p))) && n + Foot(s.H(p)) == t.mp && s.newBase <= n
    requires t'.fwd == t.fwd[p := n] && t'.mp == n && t'.stack == t.stack + [p] && t'.at[q] == t.at[q]
    ensures Moved(s, t', q) && s.Reachable(q) && (q !in t'.stack ==> Finished(s, t', q))
    ensures Moved(s, t, q) && Data(t'.m, t.fwd[q], t.at[q]) == Data(t.m, t.fwd[q], t.at[q])
  {
    assert Moved(s, t, q);
    OthersKept(s, t, t', p, n, q);
  }

  lemma ForwardMoved(s: Start, t: State, t': State, p: nat, n: nat)
    requires Shape(s, t) && AllMoved(s, t) && Shape(s, t') && p in s.objs && p !in t.fwd && s.Reachable(p)
    requires Touches(t.m, t'.m, p, n, Foot(s.H(p))) && n + Foot(s.H(p)) == t.mp && s.newBase <= n
    requires t'.fwd == t.fwd[p := n] && t'.at == t.at[p := t'.at[p]] && t'.mp == n && t'.stack == t.stack + [p]
    requires Moved(s, t', p)
    ensures AllMoved(s, t')
  {
    forall q | q in t'.fwd
      ensures Moved(s, t', q) && s.Reachable(q) && (q !in t'.stack ==> Finished(s, t', q))
    {
      if q != p {
        ForwardOther(s, t, t', p, n, q);
      }
    }
  }

  lemma ForwardApart(s: Start, t: State, t': State, p: nat, n: nat)
    requires Shape(s, t) && AllMoved(s, t) && Apart(s, t) && Shape(s, t') && p in s.objs && p !in t.fwd
    requires n + Foot(s.H(p)) == t.mp && t'.fwd == t.fwd[p := n]
    ensures Apart(s, t')
  {
    forall q, r | q in t'.fwd && r in t'.fwd && q != r
      ensures Disjoint(s, t'.fwd, q, r)
    {
      if q != p && r != p {
        assert Disjoint(s, t.fwd, q, r);
      } else {
        assert Moved(s, t, if q == p then r else q);
      }
    }
  }

  /** The slot the copy of q waits on holds what it held. */
  ghost predicate SlotKept(t: State, t': State, q: nat) {
    q in t.fwd && q in t.at && Data(t'.m, t.fwd[q], t.at[q]) == Data(t.m, t.fwd[q], t.at[q])
  }

  lemma ForwardSlots(s: Start, t: State, t': State, p: nat, n: nat)
    requires Shape(s, t) && AllMoved(s, t) && Shape(s, t') && p in s.objs && p !in t.fwd
    requires Touches(t.m, t'.m, p, n, Foot(s.H(p))) && n + Foot(s.H(p)) == t.mp && s.newBase <= n
    requires t'.fwd == t.fwd[p := n] && t'.at == t.at[p := t'.at[p]] && t'.mp == n && t'.stack == t.stack + [p]
    ensures forall q {:trigger SlotKept(t, t', q)} | q in t.fwd :: SlotKept(t, t', q)
  {
    forall q | q in t.fwd
      ensures SlotKept(t, t', q)
    {
      ForwardOther(s, t, t', p, n, q);
    }
  }

  lemma ForwardChained(s: Start, t: State, t': State, p: nat, n: nat)
    requires Chained(s, t) && p !in t.fwd && p in t'.at
    requires forall q {:trigger SlotKept(t, t', q)} | q in t.fwd :: SlotKept(t, t', q)
    requires t'.fwd == t.fwd[p := n] && t'.at == t.at[p := t'.at[p]] && t'.stack == t.stack + [p]
    requires Data(t'.m, n, t'.at[p]) == if t.stack == [] then NULL else Pointer(t.stack[|t.stack| - 1])
    requires t.stack != [] ==> Pending(s, t, NULL) == Pointer(p)
    ensures Chained(s, t')
  {
    forall j | 0 <= j < |t'.stack|
      ensures Linked(s, t', j)
    {
      if j < |t.stack| {
        assert Linked(s, t, j) && t.stack[j] in t.stack && SlotKept(t, t', t.stack[j]);
      }
    }
  }

  lemma ForwardStacked(s: Start, t: State, t': State, p: nat, n: nat)
    requires Shape(s, t) && Stacked(s, t) && Shape(s, t') && p in s.objs && p !in t.fwd
    requires n + Foot(s.H(p)) == t.mp && t'.mp == n
    requires t'.fwd == t.fwd[p := n] && t'.order == t.order + [p]
    ensures Stacked(s, t')
  {
    hide Foot, WordAt;
    forall i | 0 <= i < |t'.order|
      ensures Below(s, t', i)
    {
      if i < |t.order| {
        assert Below(s, t, i);
        assert t.order[i] in t.order;
      }
    }
  }

  lemma Forward(s: Start, t: State, m': seq<Word>, p: nat, n: nat, root: Word)
    requires Inv(s, t) && p in s.objs && p !in t.fwd && s.Reachable(p)
    requires Forwarded(s, t, m', p, n)
    requires Pending(s, t, root) == Pointer(p)
    ensures Inv(s, ForwardState(s, t, m', p, n))
    ensures Pending(s, ForwardState(s, t, m', p, n), root) ==
            Data(s.m, p, First(s.H(p)))
  {
    hide AllMoved, Untouched, Outside, Apart, Chained, Stacked, Moved, Forwarded, Foot, Touches;
    var t' := ForwardState(s, t, m', p, n);
    ForwardShape(s, t, t', p, n);
    StillIntact(s, t, p);
    CopyMade(s, t, t', p, n);
    ForwardMoved(s, t, t', p, n);
    OutsideKept(s, t, t', p, n);
    ForwardApart(s, t, t', p, n);
    ForwardSlots(s, t, t', p, n);
    ForwardChained(s, t, t', p, n);
    ForwardStacked(s, t, t', p, n);
  }

  lemma ForwardShape(s: Start, t: State, t': State, p: nat, n: nat)
    requires Shape(s, t) && p in s.objs && Forwarded(s, t, t'.m, p, n) && t' == ForwardState(s, t, t'.m, p, n)
    ensures Shape(s, t') && Touches(t.m, t'.m, p, n, Foot(s.H(p)))
    ensures n + Foot(s.H(p)) == t.mp && s.newBase <= n && t.mp <= s.newTop
    ensures Data(t'.m, n, First(s.H(p))) == Chain(t)
  {
    hide Data;
  }

  lemma StillIntact(s: Start, t: State, p: nat)
    requires Untouched(s, t) && p in s.objs && p !in t.fwd
    ensures Intact(s, t.m, p)
  {}

  /** The innermost unfinished object. */
  ghost predicate Top(t: State, p: nat) {
    |t.stack| > 0 && t.stack[|t.stack| - 1] == p && p in t.fwd && p in t.at
  }

  /** gc_move's argument is what the outermost unfinished object was reached by. */
  ghost predicate Rooted(t: State, root: Word) {
    t.stack != [] ==> root == Pointer(t.stack[0])
  }

  /** The class of p is filled in with w: p is finished and leaves the chain. */
  ghost predicate Finishes(s: Start, t: State, m': seq<Word>, p: nat, w: Word) {
    && Top(t, p) && t.at[p] == 0
    && |m'| == |t.m|
    && (forall a {:trigger m'[a]} | 0 <= a < |t.m| && a != t.fwd[p] + 1 :: m'[a] == t.m[a])
    && Data(m', t.fwd[p], 0) == w == Tr(t.fwd, Data(s.m, p, 0))
    && Settled(s, t.fwd, Data(s.m, p, 0))
  }

  ghost function FinishState(t: State, m': seq<Word>): State
    requires t.stack != []
  {
    t.(m := m', stack := t.stack[..|t.stack| - 1])
  }

  lemma TopOther(s: Start, t: State, t': State, p: nat, q: nat)
    requires Shape(s, t) && AllMoved(s, t) && Apart(s, t) && p in t.fwd && q in t.fwd && q != p
    requires Touches(t.m, t'.m, p, t.fwd[p], Foot(s.H(p)))
    requires t'.fwd == t.fwd && t'.mp == t.mp && q in t'.at && t'.at[q] == t.at[q]
    ensures Moved(s, t', q) && s.Reachable(q) && (q !in t.stack ==> Finished(s, t', q))
    ensures SlotKept(t, t', q)
  {
    assert Moved(s, t, q) && Moved(s, t, p) && Disjoint(s, t.fwd, p, q);
    OthersKept(s, t, t', p, t.fwd[p], q);
  }

  /** A step at the innermost object, whose words and copy alone change. */
  lemma TopMoved(s: Start, t: State, t': State, p: nat)
    requires Shape(s, t) && AllMoved(s, t) && Apart(s, t) && p in t.fwd
    requires Touches(t.m, t'.m, p, t.fwd[p], Foot(s.H(p)))
    requires t'.fwd == t.fwd && t'.mp == t.mp && t'.at.Keys == t.at.Keys
    requires forall q | q in t.fwd && q != p :: t'.at[q] == t.at[q]
    requires forall q | q in t.stack && q != p :: q in t'.stack
    requires Moved(s, t', p) && (p !in t'.stack ==> Finished(s, t', p))
    ensures AllMoved(s, t')
    ensures forall q {:trigger SlotKept(t, t', q)} | q in t.fwd && q != p :: SlotKept(t, t', q)
  {
    assert s.Reachable(p) by {
      assert Moved(s, t, p);
    }
    forall q | q in t.fwd && q != p
      ensures Moved(s, t', q) && s.Reachable(q) && (q !in t.stack ==> Finished(s, t', q))
      ensures SlotKept(t, t', q)
    {
      TopOther(s, t, t', p, q);
    }
  }

  lemma TopDone(s: Start, t: State, t': State, p: nat, w: Word)
    requires Shape(s, t) && Moved(s, t, p)
    requires Finishes(s, t, t'.m, p, w) && t' == FinishState(t, t'.m)
    ensures Moved(s, t', p) && Finished(s, t', p)
  {
    var h, n := s.H(p), t.fwd[p];
    assert forall i | 0 < i <= Body(h) :: Data(t'.m, n, i) == Data(t.m, n, i);
  }

  lemma FinishLinks(s: Start, t: State, t': State, p: nat)
    requires Shape(s, t) && AllMoved(s, t) && Apart(s, t) && Chained(s, t) && Top(t, p)
    requires Touches(t.m, t'.m, p, t.fwd[p], Foot(s.H(p)))
    requires Moved(s, t', p) && Finished(s, t', p)
    requires t'.fwd == t.fwd && t'.mp == t.mp && t'.at == t.at && t'.stack == t.stack[..|t.stack| - 1]
    ensures AllMoved(s, t') && Chained(s, t')
  {
    forall q | q in t.stack && q != p
      ensures q in t'.stack
    {
      var j :| 0 <= j < |t.stack| && t.stack[j] == q;
      assert t'.stack[j] == q;
    }
    TopMoved(s, t, t', p);
    LinksKept(s, t, t');
  }

  lemma FinishPending(s: Start, t: State, t': State, p: nat, root: Word)
    requires Chained(s, t) && Rooted(t, root) && Top(t, p)
    requires t'.at == t.at && t'.stack == t.stack[..|t.stack| - 1]
    ensures Pending(s, t', root) == Pointer(p) && Rooted(t', root)
  {
    if |t.stack| > 1 {
      assert Linked(s, t, |t.stack| - 2);
    }
  }

  lemma Finish(s: Start, t: State, t': State, p: nat, w: Word, root: Word)
    requires Inv(s, t) && Rooted(t, root) && Finishes(s, t, t'.m, p, w) && t' == FinishState(t, t'.m)
    ensures Inv(s, t') && Rooted(t', root) && Pending(s, t', root) == Pointer(p)
  {
    assert Moved(s, t, p);
    assert Touches(t.m, t'.m, p, t.fwd[p], Foot(s.H(p)));
    TopDone(s, t, t', p, w);
    FinishLinks(s, t, t', p);
    TopRest(s, t, t', p);
    FinishPending(s, t, t', p, root);
  }

  /** What a step at the innermost object leaves as it was. */
  lemma TopRest(s: Start, t: State, t': State, p: nat)
    requires Shape(s, t) && Outside(s, t) && Untouched(s, t) && Apart(s, t) && Stacked(s, t)
    requires Shape(s, t') && Moved(s, t, p) && Touches(t.m, t'.m, p, t.fwd[p], Foot(s.H(p)))
    requires t'.fwd == t.fwd && t'.order == t.order && t'.mp == t.mp && t'.out == t.out
    ensures Outside(s, t') && Untouched(s, t') && Apart(s, t') && Stacked(s, t')
  {
    OutsideKept(s, t, t', p, t.fwd[p]);
    forall q, r | q in t'.fwd && r in t'.fwd && q != r
      ensures Disjoint(s, t'.fwd, q, r)
    {
      assert Disjoint(s, t.fwd, q, r);
    }
    StackedKept(s, t, t');
  }

  lemma LinksKept(s: Start, t: State, t': State)
    requires Chained(s, t) && t.stack != []
    requires forall q {:trigger SlotKept(t, t', q)} | q in t.fwd && q != t.stack[|t.stack| - 1] :: SlotKept(t, t', q)
    requires t'.fwd == t.fwd && t'.at == t.at && t'.stack == t.stack[..|t.stack| - 1]
    ensures Chained(s, t')
  {
    forall j | 0 <= j < |t'.stack|
      ensures Linked(s, t', j)
    {
      assert Linked(s, t, j) && t.stack[j] in t.stack && SlotKept(t, t', t.stack[j]);
    }
  }

  lemma StackedKept(s: Start, t: State, t': State)
    requires Stacked(s, t) && t'.fwd == t.fwd && t'.order == t.order && t'.mp == t.mp
    ensures Stacked(s, t')
  {
    forall i | 0 <= i < |t'.order|
      ensures Below(s, t', i)
    {
      assert Below(s, t, i);
    }
  }

  /** Field k of p is filled in with w, NULL fields below it are copied as they are, and p waits on
      slot k' next; its own size field counts down to k'. */
  ghost predicate Advances(s: Start, t: State, m': seq<Word>, p: nat, w: Word, k': nat) {
    && Top(t, p) && s.H(p).Header? && !s.H(p).bin && k' < t.at[p]
    && var n, k := t.fwd[p], t.at[p];
    && |m'| == |t.m|
    && (forall a {:trigger m'[a]} | 0 <= a < |t.m| && a != p && a != p + 1 + k' && !(n + 1 + k' <= a <= n + 1 + k) :: m'[a] == t.m[a])
    && WordAt(m', p) == Header(k', true, false)
    && Data(m', n, k) == w == Tr(t.fwd, Data(s.m, p, k)) && Settled(s, t.fwd, Data(s.m, p, k))
    && (forall i | k' < i < k :: Data(m', n, i) == Data(s.m, p, i) == NULL)
    && Data(m', n, k') == (if |t.stack| == 1 then NULL else Pointer(t.stack[|t.stack| - 2]))
    && Data(m', p, k') == Pointer(n)
  }

  ghost function AdvanceState(t: State, m': seq<Word>, p: nat, k': nat): State {
    t.(m := m', at := t.at[p := k'])
  }

  lemma AdvanceTop(s: Start, t: State, t': State, p: nat, w: Word, k': nat)
    requires Shape(s, t) && Moved(s, t, p)
    requires Advances(s, t, t'.m, p, w, k') && t' == AdvanceState(t, t'.m, p, k')
    ensures Moved(s, t', p)
  {
    hide ToWords;
    assert 0 !in t.fwd;
    var h, n, k := s.H(p), t.fwd[p], t.at[p];
    forall i | 0 <= i < k'
      ensures Data(t'.m, p, i) == Data(s.m, p, i)
    {
      assert Data(t.m, p, i) == Data(s.m, p, i);
    }
    forall i | k' < i <= h.size
      ensures Settled(s, t'.fwd, Data(s.m, p, i)) && Data(t'.m, n, i) == Tr(t'.fwd, Data(s.m, p, i))
    {
      if k < i {
        assert Data(t.m, n, i) == Tr(t.fwd, Data(s.m, p, i));
      } else if i < k {
        assert Data(t'.m, n, i) == Data(s.m, p, i) == NULL;
      }
    }
  }

  lemma AdvanceLinks(s: Start, t: State, t': State, p: nat)
    requires Chained(s, t) && Top(t, p)
    requires forall q {:trigger SlotKept(t, t', q)} | q in t.fwd && q != p :: SlotKept(t, t', q)
    requires t'.fwd == t.fwd && t'.at.Keys == t.at.Keys && t'.stack == t.stack
    requires forall q | q in t.at && q != p :: t'.at[q] == t.at[q]
    requires Data(t'.m, t.fwd[p], t'.at[p]) == if |t.stack| == 1 then NULL else Pointer(t.stack[|t.stack| - 2])
    ensures Chained(s, t')
  {
    forall j | 0 <= j < |t'.stack|
      ensures Linked(s, t', j)
    {
      assert Linked(s, t, j) && t.stack[j] in t.stack;
      if j < |t.stack| - 1 {
        assert SlotKept(t, t', t.stack[j]);
      }
    }
  }

  lemma Advance(s: Start, t: State, m': seq<Word>, p: nat, w: Word, k': nat, root: Word)
    requires s.Valid() && Inv(s, t) && Rooted(t, root) && Advances(s, t, m', p, w, k')
    ensures Inv(s, AdvanceState(t, m', p, k')) && Rooted(AdvanceState(t, m', p, k'), root)
    ensures Pending(s, AdvanceState(t, m', p, k'), root) == Data(s.m, p, k')
  {
    hide Untouched, Outside, Apart, Chained, Stacked, Data, Objects;
    var t' := AdvanceState(t, m', p, k');
    assert Moved(s, t, p) && p in t.stack;
    assert Touches(t.m, t'.m, p, t.fwd[p], Foot(s.H(p)));
    hide AllMoved, Moved;
    AdvanceTop(s, t, t', p, w, k');
    TopMoved(s, t, t', p);
    AdvanceLinks(s, t, t', p);
    TopRest(s, t, t', p);
  }

  // ---- Static roots: words outside both spaces ------------------------------------------------

  ghost function CellState(t: State, c: nat, w: Word): State
    requires c < |t.m| && c < |t.out|
  {
    t.(m := t.m[c := w], out := t.out[c := w])
  }

  ghost predicate OutsideBoth(s: Start, c: nat) {
    c < |s.m| && !s.InOld(c) && !s.InNew(c)
  }

  lemma CellOther(s: Start, t: State, c: nat, w: Word, q: nat)
    requires Shape(s, t) && |t.out| == |s.m| && AllMoved(s, t) && OutsideBoth(s, c) && q in t.fwd
    ensures Moved(s, CellState(t, c, w), q) && s.Reachable(q)
    ensures q !in t.stack ==> Finished(s, CellState(t, c, w), q)
    ensures SlotKept(t, CellState(t, c, w), q)
  {
    var t' := CellState(t, c, w);
    assert Moved(s, t, q);
    assert Same(t.m, t'.m, q, q + Foot(s.H(q)));
    assert Same(t.m, t'.m, t.fwd[q], t.fwd[q] + Foot(s.H(q)));
    hide Finished, Data;
    MovedFrame(s, t, t', q);
  }

  lemma CellWritten(s: Start, t: State, c: nat, w: Word)
    requires Inv(s, t) && OutsideBoth(s, c) && t.stack == []
    ensures Inv(s, CellState(t, c, w))
  {
    hide Moved, Finished, SlotKept, Foot;
    var t' := CellState(t, c, w);
    forall q | q in t.fwd
      ensures Moved(s, t', q) && s.Reachable(q) && Finished(s, t', q)
    {
      CellOther(s, t, c, w, q);
    }
    forall q | q in s.objs && q !in t.fwd
      ensures Intact(s, t'.m, q)
    {
      assert Intact(s, t.m, q);
    }
    forall q, r | q in t'.fwd && r in t'.fwd && q != r
      ensures Disjoint(s, t'.fwd, q, r)
    {
      assert Disjoint(s, t.fwd, q, r);
    }
    StackedKept(s, t, t');
  }

  // ---- Termination ----------------------------------------------------------------------------

  /** Slots the unfinished objects still have to go through. */
  ghost function Residual(at: Map, stack: seq<nat>): nat {
    if stack == [] then 0
    else
      var p := stack[|stack| - 1];
      Residual(at, stack[..|stack| - 1]) + (if p in at then at[p] else 0) + 1
  }

  lemma {:induction false} ResidualFrame(at: Map, at': Map, stack: seq<nat>)
    requires forall p | p in stack :: p in at && p in at' && at[p] == at'[p]
    ensures Residual(at, stack) == Residual(at', stack)
  {
    if stack != [] {
      assert forall p | p in stack[..|stack| - 1] :: p in stack;
      ResidualFrame(at, at', stack[..|stack| - 1]);
    }
  }

  lemma AdvanceShrinks(s: Start, t: State, t': State, p: nat)
    requires Chained(s, t) && Top(t, p) && p in t'.at && t'.at[p] < t.at[p]
    requires t'.at == t.at[p := t'.at[p]] && t'.stack == t.stack
    ensures Residual(t'.at, t'.stack) < Residual(t.at, t.stack)
  {
    var rest := t.stack[..|t.stack| - 1];
    forall q | q in rest
      ensures q in t.at && q in t'.at && t.at[q] == t'.at[q]
    {
      var j :| 0 <= j < |rest| && rest[j] == q;
      assert Linked(s, t, j);
    }
    ResidualFrame(t.at, t'.at, rest);
  }

  // ---- The collector's two loops --------------------------------------------------------------

  /** The value a call waits for, and whether it is one that can be traced. */
  ghost predicate Waits(s: Start, t: State, ptr: Word, w: Word) {
    && Rooted(t, ptr) && Pending(s, t, ptr) == w
    && s.Oop(w) && (w.Pointer? && w.addr in s.objs ==> s.Reachable(w.addr))
  }

  ghost predicate Fills(s: Start, t: State, ptr: Word, w: Word) {
    Rooted(t, ptr) && Settled(s, t.fwd, Pending(s, t, ptr)) && w == Tr(t.fwd, Pending(s, t, ptr))
  }

  ghost predicate Later(t0: State, t: State) {
    Extends(t0.fwd, t.fwd) && t.out == t0.out
  }


  /** The header of an object of old space tells whether it has been moved, and where to. */
  lemma HeaderTells(s: Start, t: State, p: nat)
    requires Inv(s, t) && p in s.objs
    ensures p < |t.m| && t.m[p].Header? && t.m[p].bin == s.H(p).bin && (t.m[p].done <==> p in t.fwd)
    ensures p !in t.fwd ==> Intact(s, t.m, p)
    ensures p in t.fwd && t.m[p].bin ==> p + 1 < |t.m| && t.m[p + 1] == Pointer(t.fwd[p])
    ensures p in t.fwd && !t.m[p].bin ==>
              p + 1 + t.m[p].size < |t.m| && t.m[p + 1 + t.m[p].size] == Pointer(t.fwd[p])
  {
    if p in t.fwd {
      assert Moved(s, t, p);
    } else {
      assert Intact(s, t.m, p);
    }
  }

  lemma LaterTrans(t0: State, t1: State, t2: State)
    requires Later(t0, t1) && Later(t1, t2)
    ensures Later(t0, t2)
  {}

  lemma ValueTells(s: Start, t: State, ptr: Word, w: Word)
    requires s.Valid() && Inv(s, t) && Waits(s, t, ptr, w)
    ensures w.SmallInt? || w.Pointer?
    ensures w.Pointer? && s.InOld(w.addr) ==> w.addr in s.objs
    ensures w.Pointer? ==> !s.InNew(w.addr)
    ensures |t.m| == |s.m| && t.mp <= s.newTop
    ensures w.SmallInt? || !s.InOld(w.addr) || w.addr in t.fwd ==> Fills(s, t, ptr, Tr(t.fwd, w))
    ensures w.SmallInt? || !s.InOld(w.addr) ==> Tr(t.fwd, w) == w
    ensures Shape(s, t)
  {}

  lemma ChainTells(s: Start, t: State, ptr: Word, w: Word)
    requires Inv(s, t) && Fills(s, t, ptr, w)
    ensures Chain(t) == NULL <==> t.stack == []
    ensures Rooted(t, ptr) && Shape(s, t)
  {
    if t.stack != [] {
      var p := t.stack[|t.stack| - 1];
      assert p in t.stack && Moved(s, t, p);
    }
  }

  lemma TopTells(s: Start, t: State, p: nat, ptr: Word, w: Word)
    requires Inv(s, t) && Chain(t) == Pointer(p) && t.stack != [] && Fills(s, t, ptr, w)
    ensures Top(t, p) && Moved(s, t, p) && Linked(s, t, |t.stack| - 1)
    ensures p < |t.m| && t.m[p].Header? && t.m[p].bin == s.H(p).bin
    ensures t.m[p].bin ==> t.at[p] == 0
    ensures !t.m[p].bin ==> t.m[p].size == t.at[p]
    ensures w == Tr(t.fwd, Data(s.m, p, t.at[p])) && Settled(s, t.fwd, Data(s.m, p, t.at[p]))
  {
    assert Linked(s, t, |t.stack| - 1);
    assert p in t.stack && Moved(s, t, p);
  }

  /** Where the innermost object and its copy are, and what they hold. */
  lemma TopSlot(s: Start, t: State, p: nat)
    requires Shape(s, t) && Top(t, p) && Moved(s, t, p) && Linked(s, t, |t.stack| - 1) && !s.H(p).bin
    ensures p + 1 + t.at[p] < |t.m| && t.m[p] == Header(t.at[p], true, false)
    ensures t.m[p + 1 + t.at[p]] == Pointer(t.fwd[p])
    ensures t.fwd[p] + 1 + t.at[p] < |t.m|
    ensures t.m[t.fwd[p] + 1 + t.at[p]] == if |t.stack| == 1 then NULL else Pointer(t.stack[|t.stack| - 2])
    ensures t.fwd[p] + 1 + t.at[p] < p || p + 1 + t.at[p] < t.fwd[p]
  {}

  lemma FieldFilled(s: Start, t: State, m1: seq<Word>, m2: seq<Word>, m': seq<Word>, p: nat, w: Word, k': nat)
    requires Shape(s, t) && Top(t, p) && Moved(s, t, p) && Linked(s, t, |t.stack| - 1) && !s.H(p).bin && k' < t.at[p]
    requires w == Tr(t.fwd, Data(s.m, p, t.at[p])) && Settled(s, t.fwd, Data(s.m, p, t.at[p]))
    requires |m2| == |t.m| && p + 1 + k' < |m2| && t.fwd[p] + 1 + t.at[p] < |m2|
    requires m1 == t.m[t.fwd[p] + 1 + t.at[p] := w]
    requires forall i | k' < i < t.at[p] :: Data(m1, p, i) == NULL
    requires forall a {:trigger m2[a]} | 0 <= a < |t.m| ::
               m2[a] == if t.fwd[p] + 1 + k' < a < t.fwd[p] + 1 + t.at[p] then NULL else m1[a]
    requires m' == m2[p := Header(k', true, false)]
                     [t.fwd[p] + 1 + k' := if |t.stack| == 1 then NULL else Pointer(t.stack[|t.stack| - 2])]
                     [p + 1 + k' := Pointer(t.fwd[p])]
    ensures Advances(s, t, m', p, w, k')
    ensures m2[p + 1 + k'] == Data(s.m, p, k')
  {
    hide ToWords, Tr, Settled;
    assert Data(t.m, p, k') == Data(s.m, p, k');
    forall i | k' < i < t.at[p]
      ensures Data(m', t.fwd[p], i) == Data(s.m, p, i) == NULL
    {
      assert Data(m1, p, i) == Data(t.m, p, i) == NULL;
    }
  }

  lemma DescendStep(s: Start, t: State, m': seq<Word>, p: nat, n: nat, ptr: Word)
    requires s.Valid() && Inv(s, t) && p in s.objs && p !in t.fwd && Waits(s, t, ptr, Pointer(p))
    requires Forwarded(s, t, m', p, n)
    ensures Inv(s, ForwardState(s, t, m', p, n)) && Later(t, ForwardState(s, t, m', p, n))
    ensures Waits(s, ForwardState(s, t, m', p, n), ptr, Data(s.m, p, First(s.H(p))))
  {
    Forward(s, t, m', p, n, ptr);
    s.Follows(p, First(s.H(p)));
  }

  lemma ClimbStep(s: Start, t: State, t': State, p: nat, w: Word, ptr: Word)
    requires Inv(s, t) && Rooted(t, ptr) && Finishes(s, t, t'.m, p, w) && t' == FinishState(t, t'.m)
    ensures Inv(s, t') && Later(t, t') && Fills(s, t', ptr, Pointer(t.fwd[p]))
    ensures Residual(t'.at, t'.stack) < Residual(t.at, t.stack)
  {
    Finish(s, t, t', p, w, ptr);
  }

  lemma AdvanceStep(s: Start, t: State, m': seq<Word>, p: nat, w: Word, k': nat, ptr: Word)
    requires s.Valid() && Inv(s, t) && Rooted(t, ptr) && Advances(s, t, m', p, w, k')
    ensures var t' := AdvanceState(t, m', p, k');
            Inv(s, t') && Later(t, t') && Waits(s, t', ptr, Data(s.m, p, k')) &&
            Residual(t'.at, t'.stack) < Residual(t.at, t.stack)
  {
    assert Moved(s, t, p) && s.Reachable(p);
    Advance(s, t, m', p, w, k', ptr);
    AdvanceShrinks(s, t, AdvanceState(t, m', p, k'), p);
    s.Follows(p, k');
  }

  /** Nothing has been copied yet. */
  lemma Begin(s: Start, t: State)
    requires s.Valid() && t == State(s.m, map[], map[], [], [], s.newTop, s.m)
    ensures Inv(s, t)
  {}

  lemma StaticKept(s: Start, t: State, t': State)
    requires Inv(s, t) && Inv(s, t') && Later(t, t')
    ensures |t.m| == |t'.m| == |t'.out| == |s.m|
    ensures forall c: nat | OutsideBoth(s, c) :: t'.m[c] == t.m[c]
  {
    hide AllMoved, Apart, Chained, Stacked, Untouched;
  }
}
