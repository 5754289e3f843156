/** Counting words: the collector checks no bound because it cannot need one. */
module Space {
  import opened Sequences
  import opened Memory
  import opened Collector

  /** Words taken by a list of objects. */
  ghost function Words(m: seq<Word>, order: seq<nat>): nat {
    if order == [] then 0
    else Words(m, order[..|order| - 1]) + Foot(WordAt(m, order[|order| - 1]))
  }

  ghost function Interval(lo: nat, hi: nat): (r: set<nat>)
    ensures forall a :: a in r <==> lo <= a < hi
    ensures lo <= hi ==> |r| == hi - lo
    decreases hi - lo
  {
    if lo >= hi then {} else Interval(lo, hi - 1) + {hi - 1}
  }

  /** The addresses those objects cover. */
  ghost function Cover(m: seq<Word>, order: seq<nat>): set<nat> {
    if order == [] then {}
    else
      var p := order[|order| - 1];
      Cover(m, order[..|order| - 1]) + Interval(p, p + Foot(WordAt(m, p)))
  }

  /** Distinct objects of [lo, hi) take no more than hi - lo words. */
  lemma WordsBound(m: seq<Word>, objs: set<nat>, lo: nat, hi: nat, order: seq<nat>)
    requires Objects(m, objs, lo, hi) && lo <= hi
    requires Distinct(order) && forall p | p in order :: p in objs
    ensures Words(m, order) <= hi - lo
  {
    CoverSize(m, objs, lo, hi, order);
    CardinalityMonotone(Cover(m, order), Interval(lo, hi));
  }

  lemma CardinalityMonotone(a: set<nat>, b: set<nat>)
    requires a <= b
    ensures |a| <= |b|
  {
    assert b == a + (b - a);
  }

  ghost predicate Owns(m: seq<Word>, p: nat, a: nat) {
    p <= a < p + Foot(WordAt(m, p))
  }

  lemma {:induction false} CoverOwned(m: seq<Word>, order: seq<nat>, a: nat) returns (p: nat)
    requires a in Cover(m, order)
    ensures p in order && Owns(m, p, a)
  {
    if a in Cover(m, order[..|order| - 1]) {
      p := CoverOwned(m, order[..|order| - 1], a);
    } else {
      p := order[|order| - 1];
    }
  }

  lemma {:induction false} CoverSize(m: seq<Word>, objs: set<nat>, lo: nat, hi: nat, order: seq<nat>)
    requires Objects(m, objs, lo, hi)
    requires Distinct(order) && forall p | p in order :: p in objs
    ensures |Cover(m, order)| == Words(m, order)
    ensures Cover(m, order) <= Interval(lo, hi)
  {
    if order != [] {
      var rest, p := order[..|order| - 1], order[|order| - 1];
      CoverSize(m, objs, lo, hi, rest);
      assert p in order;
      forall a | a in Cover(m, rest)
        ensures a !in Interval(p, p + Foot(WordAt(m, p)))
      {
        var q := CoverOwned(m, rest, a);
        assert q in order && q != p;
      }
    }
  }

  /** The copies made so far take exactly the words of the objects copied. */
  lemma {:induction false} CopiedWords(s: Start, t: State, n: nat)
    requires Stacked(s, t) && n <= |t.order|
    ensures Words(s.m, t.order[..n]) == s.newTop - (if n == 0 then s.newTop else t.fwd[t.order[n - 1]])
  {
    if n > 0 {
      CopiedWords(s, t, n - 1);
      assert t.order[..n][..n - 1] == t.order[..n - 1];
      assert Below(s, t, n - 1);
    }
  }

  /** There is always room in new space for the next object. */
  lemma Room(s: Start, t: State, p: nat)
    requires s.Placed() && Stacked(s, t) && t.fwd.Keys <= s.objs && p in s.objs && p !in t.fwd
    ensures s.newBase + Foot(s.H(p)) <= t.mp
  {
    hide WordAt, Foot, Objects;
    CopiedWords(s, t, |t.order|);
    assert t.order[..|t.order|] == t.order;
    var more := t.order + [p];
    assert forall q | q in t.order :: q in t.fwd;
    assert more[..|more| - 1] == t.order;
    WordsBound(s.m, s.objs, s.oldBase, s.oldTop, more);
  }

  lemma RoomFor(s: Start, t: State, p: nat)
    requires Inv(s, t) && p in s.objs && p !in t.fwd
    ensures s.newBase + Foot(s.H(p)) <= t.mp
  {
    hide AllMoved, Apart, Chained, Outside, Untouched;
    Room(s, t, p);
  }
}
