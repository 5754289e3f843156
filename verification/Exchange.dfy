/** The theory of become: (exchangeObjects): which words a walk visits, and what one visit does. */
module Exchange {
  import opened Memory
  import opened Collector

  /** What map() leaves in place of w: the first pair that mentions w decides. */
  function Swap(a1: seq<Word>, a2: seq<Word>, w: Word): Word
    requires |a1| == |a2|
  {
    if a1 == [] then w
    else if a1[0] == w then a2[0]
    else if a2[0] == w then a1[0]
    else Swap(a1[1..], a2[1..], w)
  }

  /** Two pairs that share an object are the same pair, up to order. */
  ghost predicate Matching(a1: seq<Word>, a2: seq<Word>)
    requires |a1| == |a2|
  {
    forall i, j | 0 <= i < |a1| && 0 <= j < |a1| ::
      && (a1[i] == a1[j] ==> a2[i] == a2[j])
      && (a1[i] == a2[j] ==> a2[i] == a1[j])
      && (a2[i] == a2[j] ==> a1[i] == a1[j])
  }

  /** The two arrays have no object in common and none twice. */
  ghost predicate DisjointArrays(a1: seq<Word>, a2: seq<Word>) {
    && |a1| == |a2|
    && (forall i, j | 0 <= i < j < |a1| :: a1[i] != a1[j] && a2[i] != a2[j])
    && (forall i, j | 0 <= i < |a1| && 0 <= j < |a2| :: a1[i] != a2[j])
  }

  lemma DisjointIsMatching(a1: seq<Word>, a2: seq<Word>)
    requires DisjointArrays(a1, a2)
    ensures Matching(a1, a2)
  {}

  /** Every pair is exchanged. */
  ghost predicate Exchanges(a1: seq<Word>, a2: seq<Word>)
    requires |a1| == |a2|
  {
    forall i | 0 <= i < |a1| :: Swap(a1, a2, a1[i]) == a2[i] && Swap(a1, a2, a2[i]) == a1[i]
  }

  /** w is left alone, or the first pair that mentions it gives its partner. */
  lemma {:induction false} SwapFirst(a1: seq<Word>, a2: seq<Word>, w: Word) returns (i: nat)
    requires |a1| == |a2|
    ensures i <= |a1|
    ensures i == |a1| ==> w !in a1 && w !in a2 && Swap(a1, a2, w) == w
    ensures i < |a1| ==> (a1[i] == w && Swap(a1, a2, w) == a2[i]) || (a2[i] == w && Swap(a1, a2, w) == a1[i])
  {
    if a1 == [] {
      i := 0;
    } else if a1[0] == w || a2[0] == w {
      i := 0;
    } else {
      var k := SwapFirst(a1[1..], a2[1..], w);
      i := k + 1;
    }
  }

  /** The arrays are exchanged pair by pair exactly when no object is in two different pairs. */
  lemma ExchangesIffMatching(a1: seq<Word>, a2: seq<Word>)
    requires |a1| == |a2|
    ensures Exchanges(a1, a2) <==> Matching(a1, a2)
  {
    if Matching(a1, a2) {
      forall i | 0 <= i < |a1|
        ensures Swap(a1, a2, a1[i]) == a2[i] && Swap(a1, a2, a2[i]) == a1[i]
      {
        var j := SwapFirst(a1, a2, a1[i]);
        var k := SwapFirst(a1, a2, a2[i]);
      }
    }
  }

  /** With matching pairs the exchange is one permutation of all words, and its own inverse. */
  lemma SwapTwice(a1: seq<Word>, a2: seq<Word>, w: Word)
    requires |a1| == |a2| && Matching(a1, a2)
    ensures Swap(a1, a2, Swap(a1, a2, w)) == w
  {
    ExchangesIffMatching(a1, a2);
    var i := SwapFirst(a1, a2, w);
  }

  /** Every word of ws is mapped. */
  ghost predicate AllSwapped(a1: seq<Word>, a2: seq<Word>, ws: seq<Word>, ws': seq<Word>) {
    |a1| == |a2| && |ws'| == |ws| && forall i | 0 <= i < |ws| :: ws'[i] == Swap(a1, a2, ws[i])
  }

  /** The elements of the array object at p. */
  function Elements(m: seq<Word>, p: nat, size: nat): seq<Word> {
    seq(size, i requires 0 <= i < size => Data(m, p, i + 1))
  }

  /** Word a of the object at q is one that a walk hands to map(): its class, or a field, unless it is
      binary or one of the two argument arrays. */
  ghost predicate Slot(m: seq<Word>, arr1: nat, arr2: nat, q: nat, a: nat) {
    && WordAt(m, q).Header?
    && (a == q + 1 || (!WordAt(m, q).bin && q != arr1 && q != arr2 && q + 1 < a < q + 2 + WordAt(m, q).size))
  }

  ghost predicate Mapped(m: seq<Word>, objs: set<nat>, arr1: nat, arr2: nat, a: nat) {
    exists q :: q in objs && Slot(m, arr1, arr2, q, a)
  }

  /** m' is m with the given words, and those named by cells, exchanged. */
  ghost predicate Exchanged(m: seq<Word>, m': seq<Word>, objs: set<nat>, arr1: nat, arr2: nat, size: nat, cells: seq<nat>) {
    && |m'| == |m|
    && forall a {:trigger m'[a]} | 0 <= a < |m| ::
         m'[a] == if Mapped(m, objs, arr1, arr2, a) || a in cells
                  then Swap(Elements(m, arr1, size), Elements(m, arr2, size), m[a])
                  else m[a]
  }

  /** The two arrays are objects of the heap with size fields each. */
  ghost predicate Arrays(m: seq<Word>, objs: set<nat>, arr1: nat, arr2: nat, size: nat) {
    && arr1 in objs && arr2 in objs
    && WordAt(m, arr1) == Header(size, false, false) && WordAt(m, arr2) == Header(size, false, false)
  }

  /** Any two objects of the same size will do that are not binary. */
  lemma {:induction false} AnyArrays(s: Start, arr1: nat, arr2: nat)
    requires s.Placed() && arr1 in s.objs && arr2 in s.objs
    ensures Arrays(s.m, s.objs, arr1, arr2, s.m[arr1].size) <==> !s.m[arr1].bin && !s.m[arr2].bin && s.m[arr1].size == s.m[arr2].size
  {}

  /** Headers are never mapped, nor are the arrays' own elements. */
  lemma NotMapped(m: seq<Word>, objs: set<nat>, lo: nat, hi: nat, arr1: nat, arr2: nat, size: nat, p: nat, a: nat)
    requires Objects(m, objs, lo, hi) && Arrays(m, objs, arr1, arr2, size) && p in objs
    requires a == p || ((p == arr1 || p == arr2) && p + 1 < a < p + 2 + size) || (WordAt(m, p).bin && p + 1 < a < p + Foot(WordAt(m, p)))
    ensures !Mapped(m, objs, arr1, arr2, a)
  {
    forall q | q in objs
      ensures !Slot(m, arr1, arr2, q, a)
    {
      assert q == p || q + Foot(WordAt(m, q)) <= p || p + Foot(WordAt(m, p)) <= q;
    }
  }

  /** An exchange keeps layout, sizes, bytes and the two arrays' own elements. */
  lemma ExchangeKeeps(m: seq<Word>, m': seq<Word>, objs: set<nat>, lo: nat, hi: nat, arr1: nat, arr2: nat, size: nat, cells: seq<nat>)
    requires Objects(m, objs, lo, hi) && Arrays(m, objs, arr1, arr2, size)
    requires Exchanged(m, m', objs, arr1, arr2, size, cells)
    requires forall c | c in cells :: c < lo || hi <= c
    ensures forall p | p in objs :: WordAt(m', p) == WordAt(m, p)
    ensures forall p, a {:trigger p in objs, m'[a]} | p in objs && WordAt(m, p).bin && p + 1 < a < p + Foot(WordAt(m, p)) :: m'[a] == m[a]
    ensures Elements(m', arr1, size) == Elements(m, arr1, size) && Elements(m', arr2, size) == Elements(m, arr2, size)
    ensures forall q, a :: q in objs ==> (Slot(m', arr1, arr2, q, a) <==> Slot(m, arr1, arr2, q, a))
  {
    forall p | p in objs
      ensures WordAt(m', p) == WordAt(m, p)
    {
      NotMapped(m, objs, lo, hi, arr1, arr2, size, p, p);
    }
    forall p, a {:trigger p in objs, m'[a]} | p in objs && WordAt(m, p).bin && p + 1 < a < p + Foot(WordAt(m, p))
      ensures m'[a] == m[a]
    {
      NotMapped(m, objs, lo, hi, arr1, arr2, size, p, a);
    }
    forall p, i {:trigger Data(m, p, i + 1)} | (p == arr1 || p == arr2) && 0 <= i < size
      ensures Data(m', p, i + 1) == Data(m, p, i + 1)
    {
      NotMapped(m, objs, lo, hi, arr1, arr2, size, p, p + 2 + i);
    }
  }

  /** Doing it twice restores memory and the root stack. */
  lemma ExchangeTwice(m: seq<Word>, m': seq<Word>, m'': seq<Word>, objs: set<nat>, lo: nat, hi: nat, arr1: nat, arr2: nat, size: nat, cells: seq<nat>,
                      roots: seq<Word>, roots': seq<Word>, roots'': seq<Word>)
    requires Objects(m, objs, lo, hi) && Arrays(m, objs, arr1, arr2, size)
    requires forall c | c in cells :: c < lo || hi <= c
    requires Matching(Elements(m, arr1, size), Elements(m, arr2, size))
    requires Exchanged(m, m', objs, arr1, arr2, size, cells) && Exchanged(m', m'', objs, arr1, arr2, size, cells)
    requires AllSwapped(Elements(m, arr1, size), Elements(m, arr2, size), roots, roots')
    requires AllSwapped(Elements(m', arr1, size), Elements(m', arr2, size), roots', roots'')
    ensures m'' == m && roots'' == roots
  {
    ExchangeKeeps(m, m', objs, lo, hi, arr1, arr2, size, cells);
    forall a | 0 <= a < |m|
      ensures m''[a] == m[a]
    {
      assert Mapped(m', objs, arr1, arr2, a) <==> Mapped(m, objs, arr1, arr2, a);
      SwapTwice(Elements(m, arr1, size), Elements(m, arr2, size), m[a]);
    }
    forall i | 0 <= i < |roots|
      ensures roots''[i] == roots[i]
    {
      SwapTwice(Elements(m, arr1, size), Elements(m, arr2, size), roots[i]);
    }
  }

  /** What is put in place of a proper word is one. */
  lemma SwapOop(s: Start, arr1: nat, arr2: nat, size: nat, w: Word)
    requires s.Valid() && Arrays(s.m, s.objs, arr1, arr2, size) && s.Oop(w)
    ensures s.Oop(Swap(Elements(s.m, arr1, size), Elements(s.m, arr2, size), w))
  {
    var i := SwapFirst(Elements(s.m, arr1, size), Elements(s.m, arr2, size), w);
    if i < size {
      assert s.Oop(Data(s.m, arr1, i + 1)) && s.Oop(Data(s.m, arr2, i + 1));
    }
  }

  /** An exchange leaves a heap that a collection can start from. */
  lemma ExchangeSound(s: Start, m': seq<Word>, roots: seq<Word>, arr1: nat, arr2: nat, size: nat, cells: seq<nat>)
    requires s.Valid() && Arrays(s.m, s.objs, arr1, arr2, size)
    requires Exchanged(s.m, m', s.objs, arr1, arr2, size, cells) && forall c | c in cells :: c < s.oldBase || s.oldTop <= c
    requires AllSwapped(Elements(s.m, arr1, size), Elements(s.m, arr2, size), s.roots, roots)
    ensures s.(m := m', roots := roots).Valid()
  {
    ExchangeKeeps(s.m, m', s.objs, s.oldBase, s.oldTop, arr1, arr2, size, cells);
    hide Swap, Elements;
    forall p, i {:trigger Data(m', p, i)} | p in s.objs && Traced(s.H(p), i)
      ensures s.Oop(Data(m', p, i))
    {
      assert s.Oop(Data(s.m, p, i));
      SwapOop(s, arr1, arr2, size, Data(s.m, p, i));
    }
    forall j | 0 <= j < |roots|
      ensures s.Oop(roots[j])
    {
      assert s.roots[j] in s.roots;
      SwapOop(s, arr1, arr2, size, s.roots[j]);
    }
  }

  // ---- One visit of the walk ------------------------------------------------------------------

  /** The objects visited so far have not touched the next one, nor the two arrays' elements. */
  lemma BeforeVisit(m: seq<Word>, m1: seq<Word>, objs: set<nat>, seen: set<nat>, lo: nat, hi: nat,
                    arr1: nat, arr2: nat, size: nat, op: nat)
    requires Objects(m, objs, lo, hi) && Arrays(m, objs, arr1, arr2, size) && seen <= objs && op in objs && op !in seen
    requires Exchanged(m, m1, seen, arr1, arr2, size, [])
    ensures |m1| == |m| && m1[op] == m[op] && forall a | op <= a < op + Foot(m[op]) :: m1[a] == m[a]
    ensures Elements(m1, arr1, size) == Elements(m, arr1, size) && Elements(m1, arr2, size) == Elements(m, arr2, size)
    ensures op == arr1 || op + Foot(m[op]) <= arr1 || arr1 + 2 + size <= op
    ensures op == arr2 || op + Foot(m[op]) <= arr2 || arr2 + 2 + size <= op
  {
    forall a | op <= a < op + Foot(m[op])
      ensures !Mapped(m, seen, arr1, arr2, a)
    {
      forall q | q in seen
        ensures !Slot(m, arr1, arr2, q, a)
      {
        assert q + Foot(WordAt(m, q)) <= op || op + Foot(WordAt(m, op)) <= q;
      }
    }
    forall p, i {:trigger Data(m, p, i + 1)} | (p == arr1 || p == arr2) && 0 <= i < size
      ensures Data(m1, p, i + 1) == Data(m, p, i + 1)
    {
      NotMapped(m, objs, lo, hi, arr1, arr2, size, p, p + 2 + i);
      assert !Mapped(m, seen, arr1, arr2, p + 2 + i) by {
        forall q | q in seen
          ensures !Slot(m, arr1, arr2, q, p + 2 + i)
        {
          assert q in objs;
        }
      }
    }
  }

  /** What a visit needs. */
  lemma ToVisit(m: seq<Word>, m1: seq<Word>, objs: set<nat>, seen: set<nat>, lo: nat, hi: nat,
                arr1: nat, arr2: nat, size: nat, op: nat)
    requires Objects(m, objs, lo, hi) && Arrays(m, objs, arr1, arr2, size) && seen <= objs && op in objs && op !in seen
    requires Exchanged(m, m1, seen, arr1, arr2, size, [])
    ensures op < |m| == |m1| && m1[op] == m[op] && m[op].Header? && op + Foot(m[op]) <= |m|
    ensures arr1 + 2 + size <= |m| && arr2 + 2 + size <= |m|
    ensures op == arr1 || op + Foot(m[op]) <= arr1 || arr1 + 2 + size <= op
    ensures op == arr2 || op + Foot(m[op]) <= arr2 || arr2 + 2 + size <= op
    ensures op == arr1 || op == arr2 ==> !m[op].bin
  {
    BeforeVisit(m, m1, objs, seen, lo, hi, arr1, arr2, size, op);
    ArraysAreFields(m, objs, lo, hi, arr1, arr2, size);
  }

  lemma AfterVisit(m: seq<Word>, m1: seq<Word>, m2: seq<Word>, objs: set<nat>, seen: set<nat>, lo: nat, hi: nat,
                   arr1: nat, arr2: nat, size: nat, op: nat)
    requires Objects(m, objs, lo, hi) && Arrays(m, objs, arr1, arr2, size) && seen <= objs && op in objs && op !in seen
    requires Exchanged(m, m1, seen, arr1, arr2, size, []) && Exchanged(m1, m2, {op}, arr1, arr2, size, [])
    ensures Exchanged(m, m2, seen + {op}, arr1, arr2, size, []) && m2[op] == m[op]
  {
    BeforeVisit(m, m1, objs, seen, lo, hi, arr1, arr2, size, op);
    forall a
      ensures Mapped(m1, {op}, arr1, arr2, a) <==> Slot(m, arr1, arr2, op, a)
      ensures Mapped(m, seen + {op}, arr1, arr2, a) <==> Mapped(m, seen, arr1, arr2, a) || Slot(m, arr1, arr2, op, a)
    {
      assert op in {op} && op in seen + {op};
      assert Slot(m1, arr1, arr2, op, a) <==> Slot(m, arr1, arr2, op, a);
    }
    forall a | 0 <= a < |m|
      ensures m2[a] == if Mapped(m, seen + {op}, arr1, arr2, a)
                       then Swap(Elements(m, arr1, size), Elements(m, arr2, size), m[a]) else m[a]
    {}
  }

  lemma WalkThenRoots(m: seq<Word>, m1: seq<Word>, m2: seq<Word>, objs: set<nat>, lo: nat, hi: nat,
                      arr1: nat, arr2: nat, size: nat, cells: seq<nat>)
    requires Objects(m, objs, lo, hi) && Arrays(m, objs, arr1, arr2, size)
    requires forall c | c in cells :: c < lo || hi <= c
    requires Exchanged(m, m1, objs, arr1, arr2, size, []) && |m2| == |m|
    requires forall a {:trigger m2[a]} | 0 <= a < |m| ::
               m2[a] == if a in cells then Swap(Elements(m1, arr1, size), Elements(m1, arr2, size), m1[a]) else m1[a]
    ensures Exchanged(m, m2, objs, arr1, arr2, size, cells)
  {
    ExchangeKeeps(m, m1, objs, lo, hi, arr1, arr2, size, []);
    forall c | c in cells
      ensures !Mapped(m, objs, arr1, arr2, c)
    {}
  }

  lemma NoneSeen(m: seq<Word>, arr1: nat, arr2: nat, size: nat)
    ensures Exchanged(m, m, {}, arr1, arr2, size, [])
  {}

  lemma NoneMapped(m: seq<Word>, m': seq<Word>, arr1: nat, arr2: nat, size: nat)
    requires Exchanged(m, m', {}, arr1, arr2, size, [])
    ensures m' == m
  {}

  lemma ArraysAreFields(m: seq<Word>, objs: set<nat>, lo: nat, hi: nat, arr1: nat, arr2: nat, size: nat)
    requires Objects(m, objs, lo, hi) && Arrays(m, objs, arr1, arr2, size)
    ensures arr1 + 2 + size <= |m| && arr2 + 2 + size <= |m|
    ensures m[arr1] == m[arr2] == Header(size, false, false)
  {}
}
