/** Object memory as words: the layout of memory.h.

    An object at address p has its header at p, its class at p + 1 and its fields (or the words
    holding its bytes) after that.  The collector numbers the class as slot 0 and the fields from 1. */
module Memory {

  /** One machine word.  `Raw` is a word of bytes inside a binary object; `Pointer(0)` is NULL. */
  datatype Word =
    | Header(size: nat, done: bool, bin: bool)
    | SmallInt(value: int)
    | Pointer(addr: nat)
    | Raw(bits: int)

  const NULL := Pointer(0)
  const BYTES_PER_WORD := 8

  /** As many words of 8 bytes as it takes. */
  function ToWords(bytes: nat): (words: nat)
    ensures bytes <= 8 * words < bytes + 8
  {
    (bytes + BYTES_PER_WORD - 1) / BYTES_PER_WORD
  }

  /** Number of words after the class word. */
  function Body(h: Word): nat {
    if h.Header? then (if h.bin then ToWords(h.size) else h.size) else 0
  }

  /** Words the whole object takes. */
  function Foot(h: Word): nat {
    Body(h) + 2
  }

  /** `data[i]` of the collector's view of an object: the class for i = 0.  Total, so that it can be
      used freely in specifications; the programs index memory directly. */
  function Data(m: seq<Word>, p: nat, i: nat): Word {
    if p + 1 + i < |m| then m[p + 1 + i] else NULL
  }

  /** The word at p: the header, when an object starts there. */
  function WordAt(m: seq<Word>, p: nat): Word {
    if p < |m| then m[p] else NULL
  }

  /** The objects of [p, top) follow each other without gaps, and none is marked as moved. */
  ghost predicate Tiled(m: seq<Word>, p: nat, top: nat)
    decreases top - p
  {
    && p <= top <= |m|
    && (p == top ||
        (m[p].Header? && !m[p].done && p + Foot(m[p]) <= top && Tiled(m, p + Foot(m[p]), top)))
  }

  /** The addresses at which those objects start. */
  ghost function Starts(m: seq<Word>, p: nat, top: nat): set<nat>
    requires Tiled(m, p, top)
    decreases top - p
  {
    if p == top then {} else {p} + Starts(m, p + Foot(m[p]), top)
  }

  /** A set of well-placed objects inside [lo, hi), pairwise disjoint. */
  ghost predicate Objects(m: seq<Word>, objs: set<nat>, lo: nat, hi: nat) {
    && hi <= |m|
    && (forall p | p in objs :: lo <= p && WordAt(m, p).Header? && !WordAt(m, p).done && p + Foot(WordAt(m, p)) <= hi)
    && (forall p, q | p in objs && q in objs && p < q :: p + Foot(WordAt(m, p)) <= q)
  }

  lemma {:induction false} StartsAreObjects(m: seq<Word>, p: nat, top: nat)
    requires Tiled(m, p, top)
    ensures Objects(m, Starts(m, p, top), p, top)
    decreases top - p
  {
    if p < top {
      StartsAreObjects(m, p + Foot(m[p]), top);
    }
  }

  /** Slots the collector follows: the class of every object, the fields of the non-binary ones. */
  ghost predicate Traced(h: Word, i: nat) {
    h.Header? && (i == 0 || (!h.bin && i <= h.size))
  }

  /** Tiling looks at headers only. */
  lemma {:induction false} TiledFrame(m: seq<Word>, m': seq<Word>, p: nat, top: nat)
    requires Tiled(m, p, top) && top <= |m'|
    requires forall a | a in Starts(m, p, top) :: a < |m| && a < |m'| && m'[a] == m[a]
    ensures Tiled(m', p, top) && Starts(m', p, top) == Starts(m, p, top)
    decreases top - p
  {
    if p < top {
      assert p in Starts(m, p, top);
      TiledFrame(m, m', p + Foot(m[p]), top);
    }
  }

  /** op is where a walk over those objects stands: everything below it has been passed. */
  ghost predicate Boundary(m: seq<Word>, objs: set<nat>, op: nat, top: nat) {
    Tiled(m, op, top) && Starts(m, op, top) == objs - Passed(objs, op)
  }

  ghost function Passed(objs: set<nat>, op: nat): set<nat> {
    set q | q in objs && q < op
  }

  lemma BoundaryStart(m: seq<Word>, base: nat, top: nat)
    requires Tiled(m, base, top)
    ensures Boundary(m, Starts(m, base, top), base, top) && Passed(Starts(m, base, top), base) == {} && base <= top
  {
    StartsAreObjects(m, base, top);
  }

  lemma BoundaryStep(m: seq<Word>, objs: set<nat>, op: nat, top: nat)
    requires Boundary(m, objs, op, top) && op < top
    ensures op in objs && op !in Passed(objs, op) && Passed(objs, op) <= objs
    ensures m[op].Header? && op + Foot(m[op]) <= top
    ensures Boundary(m, objs, op + Foot(m[op]), top)
    ensures Passed(objs, op + Foot(m[op])) == Passed(objs, op) + {op}
  {
    var rest := Starts(m, op + Foot(m[op]), top);
    StartsAreObjects(m, op + Foot(m[op]), top);
    assert op in Starts(m, op, top);
    forall q | q in objs
      ensures q < op || q == op || q >= op + Foot(m[op])
    {
      assert q in Passed(objs, op) || q in Starts(m, op, top);
    }
  }

  lemma BoundaryEnd(m: seq<Word>, objs: set<nat>, top: nat)
    requires Boundary(m, objs, top, top)
    ensures Passed(objs, top) == objs
  {
    assert objs == Passed(objs, top) + (objs - Passed(objs, top));
  }
}
