/** What a finished collection has done: the graph reachable from the roots, copied. */
module Collection {
  import opened Sequences
  import opened Memory
  import opened Collector
  import opened Space

  /** The chain is empty, so every copied object is complete; and every root has been dealt with. */
  ghost predicate Done(s: Start, t: State) {
    && Inv(s, t) && t.stack == []
    && forall w | w in s.roots :: Settled(s, t.fwd, w)
  }

  /** fwd is an isomorphism from the objects reachable before onto their copies in m'. */
  ghost predicate Isomorphic(s: Start, m': seq<Word>, fwd: Map) {
    && (forall p :: p in fwd <==> p in s.objs && s.Reachable(p))
    && (forall p, q | p in fwd && q in fwd && p != q :: fwd[p] != fwd[q])
    && (forall p | p in fwd :: CopyOf(s, m', fwd, p))
  }

  /** Same size, same kind, same bytes; class and fields translated. */
  ghost predicate CopyOf(s: Start, m': seq<Word>, fwd: Map, p: nat)
    requires p in fwd
  {
    && s.H(p).Header?
    && WordAt(m', fwd[p]) == Header(s.H(p).size, false, s.H(p).bin)
    && forall i | 0 <= i <= Body(s.H(p)) ::
         Data(m', fwd[p], i) == if Traced(s.H(p), i) then Tr(fwd, Data(s.m, p, i)) else Data(s.m, p, i)
  }

  lemma SlotDone(s: Start, t: State, p: nat, i: nat)
    requires Inv(s, t) && t.stack == [] && p in t.fwd && i <= Body(s.H(p))
    ensures s.H(p).Header? && WordAt(t.m, t.fwd[p]) == Header(s.H(p).size, false, s.H(p).bin)
    ensures Data(t.m, t.fwd[p], i) == if Traced(s.H(p), i) then Tr(t.fwd, Data(s.m, p, i)) else Data(s.m, p, i)
    ensures Traced(s.H(p), i) ==> Settled(s, t.fwd, Data(s.m, p, i))
  {
    hide Apart, Chained, Stacked, Outside, Untouched;
    assert Moved(s, t, p) && Finished(s, t, p);
  }

  /** Nothing reachable is left behind. */
  lemma {:induction false} PathMoved(s: Start, t: State, path: seq<nat>)
    requires Done(s, t) && s.Path(path)
    ensures path[|path| - 1] in t.fwd
  {
    hide Inv;
    if |path| > 1 {
      var front, p, q := path[..|path| - 1], path[|path| - 2], path[|path| - 1];
      forall i | 0 < i < |front|
        ensures s.Hop(front, i)
      {
        assert s.Hop(path, i);
      }
      PathMoved(s, t, front);
      assert s.Hop(path, |path| - 1);
      assert s.Edge(p, q);
      var i :| Traced(s.H(p), i) && Data(s.m, p, i) == Pointer(q);
      SlotDone(s, t, p, i);
    }
  }

  lemma CopiesReachable(s: Start, t: State, p: nat)
    requires Done(s, t)
    ensures p in t.fwd <==> p in s.objs && s.Reachable(p)
  {
    if p in t.fwd {
      assert Moved(s, t, p);
    } else if s.Reachable(p) {
      var path :| s.Path(path) && path[|path| - 1] == p;
      PathMoved(s, t, path);
    }
  }

  lemma CopiesDiffer(s: Start, t: State, p: nat, q: nat)
    requires Inv(s, t) && p in t.fwd && q in t.fwd && p != q
    ensures t.fwd[p] != t.fwd[q]
  {
    assert Disjoint(s, t.fwd, p, q);
  }

  lemma CopiesAreIsomorphic(s: Start, t: State)
    requires Done(s, t)
    ensures Isomorphic(s, t.m, t.fwd)
  {
    hide Inv;
    forall p
      ensures p in t.fwd <==> p in s.objs && s.Reachable(p)
    {
      CopiesReachable(s, t, p);
    }
    forall p, q | p in t.fwd && q in t.fwd && p != q
      ensures t.fwd[p] != t.fwd[q]
    {
      CopiesDiffer(s, t, p, q);
    }
    forall p | p in t.fwd
      ensures CopyOf(s, t.m, t.fwd, p)
    {
      forall i | 0 <= i <= Body(s.H(p))
        ensures Data(t.m, t.fwd[p], i) ==
                if Traced(s.H(p), i) then Tr(t.fwd, Data(s.m, p, i)) else Data(s.m, p, i)
      {
        SlotDone(s, t, p, i);
      }
      SlotDone(s, t, p, 0);
    }
  }

  /** The word that has byte b of the binary object at p: eight bytes a word, after header and class. */
  function ByteWord(m: seq<Word>, p: nat, b: nat): Word {
    WordAt(m, p + 2 + b / 8)
  }

  lemma ByteCopied(s: Start, t: State, p: nat, b: nat)
    requires Done(s, t) && p in t.fwd && s.H(p).Header? && s.H(p).bin && b < s.H(p).size
    ensures WordAt(t.m, t.fwd[p] + 2 + b / 8) == WordAt(s.m, p + 2 + b / 8)
  {
    hide Inv;
    SlotDone(s, t, p, 1 + b / 8);
  }

  /** The main theorem about a collection.  Every word with a byte of a binary object is copied. */
  lemma CollectionIsIsomorphism(s: Start, t: State)
    requires Done(s, t)
    ensures Isomorphic(s, t.m, t.fwd)
    ensures forall p, b: nat | p in t.fwd && s.H(p).bin && b < s.H(p).size :: ByteWord(t.m, t.fwd[p], b) == ByteWord(s.m, p, b)
  {
    CopiesAreIsomorphic(s, t);
    assert forall p | p in t.fwd :: s.H(p).Header?;
    hide Done, Isomorphic;
    forall p, b: nat | p in t.fwd && s.H(p).bin && b < s.H(p).size
      ensures ByteWord(t.m, t.fwd[p], b) == ByteWord(s.m, p, b)
    {
      ByteCopied(s, t, p, b);
    }
  }

  /** New space, from the allocation pointer up, is exactly the copies, without gaps, and takes the
      words of the reachable objects, each counted once. */
  lemma CopiesTile(s: Start, t: State)
    requires Done(s, t)
    ensures Tiled(t.m, t.mp, s.newTop) && Starts(t.m, t.mp, s.newTop) == t.fwd.Values
    ensures s.newTop - t.mp == Words(s.m, t.order) && Distinct(t.order)
    ensures forall p :: p in t.order <==> p in t.fwd
  {
    hide Shape, AllMoved, Apart, Chained, Outside, Untouched;
    assert |t.order| > 0 ==> t.order[|t.order| - 1] in t.order;
    CopiesTilePrefix(s, t, |t.order|);
    CopiedWords(s, t, |t.order|);
    assert t.order[..|t.order|] == t.order;
    hide Inv;
    forall n
      ensures n in PlacedAt(t, |t.order|) <==> n in t.fwd.Values
    {
      if n in t.fwd.Values {
        var p :| p in t.fwd && t.fwd[p] == n;
        assert p in t.order;
        var i :| 0 <= i < |t.order| && t.order[i] == p;
        PlacedAtHas(t, |t.order|, i);
      }
      if n in PlacedAt(t, |t.order|) {
        var i := PlacedAtFrom(t, |t.order|, n);
        assert t.order[i] in t.order;
      }
    }
  }

  /** Where the first n copies were put. */
  ghost function PlacedAt(t: State, n: nat): set<nat>
    requires n <= |t.order|
  {
    if n == 0 then {}
    else PlacedAt(t, n - 1) + (if t.order[n - 1] in t.fwd then {t.fwd[t.order[n - 1]]} else {})
  }

  lemma {:induction false} PlacedAtHas(t: State, n: nat, i: nat)
    requires i < n <= |t.order| && t.order[i] in t.fwd
    ensures t.fwd[t.order[i]] in PlacedAt(t, n)
  {
    if i < n - 1 {
      PlacedAtHas(t, n - 1, i);
    }
  }

  lemma {:induction false} PlacedAtFrom(t: State, n: nat, a: nat) returns (i: nat)
    requires n <= |t.order| && a in PlacedAt(t, n)
    ensures i < n && t.order[i] in t.fwd && t.fwd[t.order[i]] == a
  {
    if a in PlacedAt(t, n - 1) {
      i := PlacedAtFrom(t, n - 1, a);
    } else {
      i := n - 1;
    }
  }

  lemma {:induction false} CopiesTilePrefix(s: Start, t: State, n: nat)
    requires Inv(s, t) && t.stack == [] && n <= |t.order|
    requires n == 0 || t.order[n - 1] in t.fwd
    ensures var low := if n == 0 then s.newTop else t.fwd[t.order[n - 1]];
            Tiled(t.m, low, s.newTop) && Starts(t.m, low, s.newTop) == PlacedAt(t, n)
  {
    hide Inv;
    NewTop(s, t);
    if n > 0 {
      var p := t.order[n - 1];
      CopyHead(s, t, n - 1);
      CopiesTilePrefix(s, t, n - 1);
    }
  }

  lemma NewTop(s: Start, t: State)
    requires Inv(s, t)
    ensures s.newTop <= |t.m|
  {
    hide AllMoved, Apart, Chained, Stacked, Outside, Untouched;
  }

  lemma CopyHead(s: Start, t: State, i: nat)
    requires Inv(s, t) && t.stack == [] && i < |t.order|
    ensures var p := t.order[i];
            p in t.fwd && t.fwd[p] < |t.m| && t.m[t.fwd[p]] == Header(s.H(p).size, false, s.H(p).bin) &&
            t.fwd[p] + Foot(t.m[t.fwd[p]]) == if i == 0 then s.newTop else t.fwd[t.order[i - 1]]
    ensures t.fwd[t.order[i]] + Foot(t.m[t.fwd[t.order[i]]]) <= s.newTop
    ensures i == 0 || t.order[i - 1] in t.fwd
  {
    hide Apart, Chained, Outside, Untouched;
    var p := t.order[i];
    assert p in t.order && p in t.fwd;
    assert i > 0 ==> t.order[i - 1] in t.order;
    assert Moved(s, t, p) && Finished(s, t, p) && Below(s, t, i);
  }

  /** The heap after a collection: the copies, in the space that was new. */
  ghost function After(s: Start, t: State, roots: seq<Word>): Start {
    Start(t.m, t.fwd.Values, roots, s.newBase, s.newTop, s.oldBase, s.oldTop)
  }

  lemma TrOop(s: Start, t: State, roots: seq<Word>, w: Word)
    requires s.Layout() && s.Oop(w) && Settled(s, t.fwd, w) && t.fwd.Keys <= s.objs
    requires forall p | p in s.objs :: s.oldBase <= p <= s.oldTop
    ensures After(s, t, roots).Oop(Tr(t.fwd, w))
  {
    if w.Pointer? && w.addr in t.fwd {
      assert t.fwd[w.addr] in t.fwd.Values;
    }
  }

  lemma CopySlotOop(s: Start, t: State, roots: seq<Word>, p: nat, i: nat)
    requires s.Valid() && Inv(s, t) && t.stack == [] && p in t.fwd
    requires Traced(WordAt(t.m, t.fwd[p]), i)
    ensures After(s, t, roots).Oop(Data(t.m, t.fwd[p], i))
  {
    hide Inv;
    SlotDone(s, t, p, 0);
    SlotDone(s, t, p, i);
    CopiedAreObjects(s, t);
    assert s.Oop(Data(s.m, p, i));
    TrOop(s, t, roots, Data(s.m, p, i));
  }

  lemma CopiedAreObjects(s: Start, t: State)
    requires Inv(s, t)
    ensures t.fwd.Keys <= s.objs && s.Placed() && |t.m| == |s.m|
  {
    hide AllMoved, Apart, Chained, Stacked, Outside, Untouched;
  }

  /** What the next collection needs holds again: the heap stays sound over any number of collections. */
  lemma CollectedIsSound(s: Start, t: State, roots: seq<Word>)
    requires s.Valid() && Done(s, t)
    requires forall w' | w' in roots :: exists w :: w in s.roots && w' == Tr(t.fwd, w)
    ensures After(s, t, roots).Valid()
  {
    CopiesTile(s, t);
    hide Inv, Tiled;
    CopiedAreObjects(s, t);
    StartsAreObjects(t.m, t.mp, s.newTop);
    CopiesInNewSpace(s, t);
    var s' := After(s, t, roots);
    forall n, i {:trigger Data(s'.m, n, i)} | n in s'.objs && Traced(s'.H(n), i)
      ensures s'.Oop(Data(s'.m, n, i))
    {
      var p :| p in t.fwd && t.fwd[p] == n;
      CopySlotOop(s, t, roots, p, i);
    }
    forall w' | w' in roots
      ensures s'.Oop(w')
    {
      var w :| w in s.roots && w' == Tr(t.fwd, w);
      TrOop(s, t, roots, w);
    }
  }

  lemma CopiesInNewSpace(s: Start, t: State)
    requires Inv(s, t)
    ensures s.newBase <= t.mp
  {
    hide AllMoved, Apart, Chained, Stacked, Outside, Untouched;
  }
}
