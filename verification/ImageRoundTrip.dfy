/** Reading what was written gives an isomorphic graph. */
module ImageRoundTrip {
  import opened Sequences
  import opened Bytes
  import opened ImageFormat

  /** What a written value is read back as: the k-th object met by the writer is the k-th made by the reader. */
  function Tr(w: seq<nat>, r: seq<nat>, v: Value): Value
    requires |w| <= |r|
  {
    if v.Ref? && v.id in w then Ref(r[IndexOf(w, v.id)]) else v
  }

  ghost predicate Known(w: seq<nat>, v: Value) {
    v.SmallInt? || (v.Ref? && v.id in w)
  }

  lemma {:induction false} IndexOfPrefix(w: seq<nat>, w': seq<nat>, x: nat)
    requires w <= w' && x in w
    ensures IndexOf(w', x) == IndexOf(w, x)
  {
    if w[0] != x {
      assert w'[1..][..|w| - 1] == w[1..];
      IndexOfPrefix(w[1..], w'[1..], x);
    }
  }

  lemma TrPrefix(w: seq<nat>, w': seq<nat>, r: seq<nat>, r': seq<nat>, v: Value)
    requires w <= w' && r <= r' && |w| <= |r| && |w'| <= |r'| && Known(w, v)
    ensures Known(w', v) && Tr(w', r', v) == Tr(w, r, v)
  {
    if v.Ref? {
      IndexOfPrefix(w, w', v.id);
    }
  }

  /** Object k of the tables has been rebuilt: same shape, translated slots. */
  ghost predicate Rebuilt(h: Heap, w: seq<nat>, st: Reader, k: nat)
    requires |w| == |st.indir| && k < |w|
  {
    && w[k] in h && st.indir[k] < |st.store|
    && var o, o' := h[w[k]], st.store[st.indir[k]];
    && o.SameShape(o')
    && forall i | 0 <= i < |o.Slots()| :: Known(w, o.Slots()[i]) && o'.Slots()[i] == Tr(w, st.indir, o.Slots()[i])
  }

  ghost predicate Tables(w: seq<nat>, st: Reader) {
    && |w| == |st.indir| && Distinct(w)
    && (forall k | 0 <= k < |w| :: st.indir[k] < |st.store|)
    && Distinct(st.indir)
  }

  /** The part of the stream from pos is bs. */
  ghost predicate At(input: seq<byte>, pos: nat, bs: seq<byte>) {
    pos + |bs| <= |input| && input[pos..pos + |bs|] == bs
  }

  lemma AtSplit(input: seq<byte>, pos: nat, a: seq<byte>, b: seq<byte>)
    requires At(input, pos, a + b)
    ensures At(input, pos, a) && At(input, pos + |a|, b)
  {
    assert input[pos..pos + |a|] == (a + b)[..|a|];
    assert input[pos + |a|..pos + |a| + |b|] == (a + b)[|a|..];
  }

  /** What reading back a value, from tables (w, st) to (w', r.st), has achieved. */
  ghost predicate ReadBack(h: Heap, w: seq<nat>, st: Reader, w': seq<nat>, r: ReadResult) {
    && r.Read? && w <= w' && Tables(w', r.st) && st.indir <= r.st.indir && |st.store| <= |r.st.store|
    && (forall k | |w| <= k < |w'| :: |st.store| <= r.st.indir[k])
  }

  /** The objects met during this part of the stream, other than those still being filled in. */
  ghost predicate NewRebuilt(h: Heap, w: seq<nat>, w': seq<nat>, st': Reader)
    requires |w'| == |st'.indir|
  {
    forall k | |w| <= k < |w'| :: Rebuilt(h, w', st', k)
  }

  lemma RebuiltLater(h: Heap, w: seq<nat>, st: Reader, w': seq<nat>, st': Reader, k: nat)
    requires |w| == |st.indir| && k < |w| && Rebuilt(h, w, st, k)
    requires w <= w' && st.indir <= st'.indir && |w'| == |st'.indir| && |st.store| <= |st'.store|
    requires st'.store[st.indir[k]] == st.store[st.indir[k]]
    ensures Rebuilt(h, w', st', k)
  {
    var o := h[w[k]];
    forall i | 0 <= i < |o.Slots()|
      ensures Known(w', o.Slots()[i]) && Tr(w', st'.indir, o.Slots()[i]) == Tr(w, st.indir, o.Slots()[i])
    {
      TrPrefix(w, w', st.indir, st'.indir, o.Slots()[i]);
    }
  }

  /** One value has been read back: x is what was written, from table w, and r what the reader made of it. */
  ghost predicate OneBack(h: Heap, v: Value, w: seq<nat>, st: Reader, x: Written, r: ReadResult, pos: nat) {
    && x.Wrote? && ReadBack(h, w, st, x.indir, r) && r.pos == pos + |x.bytes|
    && Known(x.indir, v) && r.v == Tr(x.indir, r.st.indir, v) && NewRebuilt(h, w, x.indir, r.st)
    && forall b | 0 <= b < |st.store| :: r.st.store[b] == st.store[b]
  }

  /** Slots i and up of the object at a have been filled with the values vs read back. */
  ghost predicate AllBack(h: Heap, vs: seq<Value>, w: seq<nat>, st: Reader, x: Written, r: ReadResult, pos: nat, a: nat, i: nat)
    requires a < |st.store| && i + |vs| == |st.store[a].Slots()|
  {
    && x.Wrote? && ReadBack(h, w, st, x.indir, r) && r.pos == pos + |x.bytes| && NewRebuilt(h, w, x.indir, r.st)
    && (forall b | 0 <= b < |st.store| && b != a :: r.st.store[b] == st.store[b])
    && st.store[a].SameShape(r.st.store[a])
    && (forall j | 0 <= j < i :: r.st.store[a].Slots()[j] == st.store[a].Slots()[j])
    && (forall j {:trigger vs[j]} | 0 <= j < |vs| :: Known(x.indir, vs[j]) && r.st.store[a].Slots()[i + j] == Tr(x.indir, r.st.indir, vs[j]))
  }

  lemma {:induction false} WriteRead(h: Heap, v: Value, w: seq<nat>, input: seq<byte>, pos: nat, st: Reader)
    requires GoodHeap(h) && GoodValue(h, v) && Tables(w, st)
    requires Write(h, v, w).Wrote? && At(input, pos, Write(h, v, w).bytes)
    ensures OneBack(h, v, w, st, Write(h, v, w), ReadObject(input, pos, st), pos)
    decreases |h.Keys - Elems(w)|, 0, 0
  {
    hide Write, WriteAll, ReadObject, ReadSlots, AllBack, OneBack, At, HeaderBytes, Tables, Started, GoodHeap, GoodValue, Elems, BlankOf, NewRebuilt;
    if v.SmallInt? || (v.Ref? && v.id in w) {
      KnownBack(h, v, w, input, pos, st);
    } else {
      WriteNew(h, v, w);
      var o := h[v.id];
      var p, st1 := pos + |HeaderBytes(o)|, Started(st, BlankOf(o));
      var x := WriteAll(h, o.Slots(), w + [v.id]);
      AtSplit(input, pos, HeaderBytes(o), x.bytes);
      ReadHeader(o, input, pos, st);
      var r := ReadSlots(input, p, st1, |st.store|, 0, |o.Slots()|);
      StartedTables(h, v.id, w, st);
      Fewer(h, w, v.id);
      WriteReadAll(h, o.Slots(), w + [v.id], input, p, st1, |st.store|, 0, |o.Slots()|);
      NewObjectBack(h, v, w, st, x, r, pos);
    }
  }

  /** Small integers and back-references. */
  lemma KnownBack(h: Heap, v: Value, w: seq<nat>, input: seq<byte>, pos: nat, st: Reader)
    requires GoodHeap(h) && GoodValue(h, v) && Tables(w, st) && (v.SmallInt? || (v.Ref? && v.id in w))
    requires Write(h, v, w).Wrote? && At(input, pos, Write(h, v, w).bytes)
    ensures OneBack(h, v, w, st, Write(h, v, w), ReadObject(input, pos, st), pos)
  {
    if v.SmallInt? {
      TagRoundTrip(if v.i < 0 then NINT_TYPE else PINT_TYPE, if v.i < 0 then -v.i else v.i, input, pos);
    } else {
      var i := IndexOf(w, v.id);
      TagRoundTrip(if i == 0 then NIL_TYPE else POBJ_TYPE, i, input, pos);
    }
  }

  lemma WriteNew(h: Heap, v: Value, w: seq<nat>)
    requires GoodHeap(h) && GoodValue(h, v) && !v.SmallInt? && (v.Ref? ==> v.id !in w) && Write(h, v, w).Wrote?
    ensures v.Ref? && v.id in h && h[v.id].Size() <= MAX_TAG_VALUE && forall u | u in h[v.id].Slots() :: GoodValue(h, u)
    ensures WriteAll(h, h[v.id].Slots(), w + [v.id]).Wrote?
    ensures var x := WriteAll(h, h[v.id].Slots(), w + [v.id]);
            Write(h, v, w) == Wrote(HeaderBytes(h[v.id]) + x.bytes, x.indir)
  {
    hide WriteAll;
  }

  /** An object as it is before its slots are read. */
  function BlankOf(o: Object): Object {
    if o.Bytes? then Blank(BARRAY_TYPE, o.Size(), o.bytes) else Blank(OBJ_TYPE, o.Size(), [])
  }

  lemma StartedTables(h: Heap, id: nat, w: seq<nat>, st: Reader)
    requires id in h && id !in w && Tables(w, st)
    ensures Tables(w + [id], Started(st, BlankOf(h[id])))
    ensures |Started(st, BlankOf(h[id])).store| == |st.store| + 1
    ensures |Started(st, BlankOf(h[id])).store[|st.store|].Slots()| == |h[id].Slots()|
  {}

  /** Reading on from the header of an object is filling in its slots. */
  lemma ReadHeader(o: Object, input: seq<byte>, pos: nat, st: Reader)
    requires o.Size() <= MAX_TAG_VALUE && At(input, pos, HeaderBytes(o))
    ensures pos + |HeaderBytes(o)| <= |input| && 0 <= |o.Slots()|
    ensures ReadObject(input, pos, st) ==
            ReadSlots(input, pos + |HeaderBytes(o)|, Started(st, BlankOf(o)), |st.store|, 0, |o.Slots()|)
  {
    hide ReadObject, ReadSlots, ReadTag, Blank, Started, TagBytes;
    HeaderRead(o, input, pos);
    if o.Bytes? {
      var p := pos + |TagBytes(BARRAY_TYPE, |o.bytes|)|;
      assert p + |o.bytes| == pos + |HeaderBytes(o)|;
      hide At, HeaderBytes;
      ReadBytesHeader(input, pos, st, o.bytes, p);
    } else {
      assert HeaderBytes(o) == TagBytes(OBJ_TYPE, |o.fields|);
      hide At, HeaderBytes;
      ReadFieldsHeader(input, pos, st, |o.fields|, pos + |HeaderBytes(o)|);
    }
  }

  lemma ReadFieldsHeader(input: seq<byte>, pos: nat, st: Reader, size: nat, p: nat)
    requires ReadTag(input, pos) == Tag(OBJ_TYPE, size, p) && p <= |input|
    ensures ReadObject(input, pos, st) ==
            ReadSlots(input, p, Started(st, Blank(OBJ_TYPE, size, [])), |st.store|, 0, 1 + size)
  {
    hide ReadSlots, Blank, Started, ReadTag;
  }

  lemma ReadBytesHeader(input: seq<byte>, pos: nat, st: Reader, bs: seq<byte>, p: nat)
    requires ReadTag(input, pos) == Tag(BARRAY_TYPE, |bs|, p) && At(input, p, bs)
    ensures ReadObject(input, pos, st) ==
            ReadSlots(input, p + |bs|, Started(st, Blank(BARRAY_TYPE, |bs|, bs)), |st.store|, 0, 1)
  {
    hide ReadSlots, Blank, Started, ReadTag;
  }

  lemma NewObjectBack(h: Heap, v: Value, w: seq<nat>, st: Reader, x: Written, r: ReadResult, pos: nat)
    requires v.Ref? && v.id in h && v.id !in w && Tables(w, st) && h[v.id].Size() <= MAX_TAG_VALUE && r.Read?
    requires |Started(st, BlankOf(h[v.id])).store| == |st.store| + 1
    requires |Started(st, BlankOf(h[v.id])).store[|st.store|].Slots()| == |h[v.id].Slots()|
    requires AllBack(h, h[v.id].Slots(), w + [v.id], Started(st, BlankOf(h[v.id])), x, r, pos + |HeaderBytes(h[v.id])|, |st.store|, 0)
    requires r.v == Ref(|st.store|)
    ensures OneBack(h, v, w, st, Wrote(HeaderBytes(h[v.id]) + x.bytes, x.indir), r, pos)
  {
    var st1 := Started(st, BlankOf(h[v.id]));
    assert (w + [v.id])[|w|] == x.indir[|w|] == v.id;
    assert st1.indir[|w|] == r.st.indir[|w|] == |st.store|;
    assert Rebuilt(h, x.indir, r.st, |w|);
    IndexOfUnique(x.indir, |w|);
    forall b | 0 <= b < |st.store|
      ensures r.st.store[b] == st.store[b]
    {
      assert st1.store[b] == st.store[b];
    }
  }

  lemma {:induction false} IndexOfUnique(w: seq<nat>, k: nat)
    requires Distinct(w) && k < |w|
    ensures IndexOf(w, w[k]) == k
  {}

  /** The tag, and the bytes, of an object are read back as they were written. */
  lemma HeaderRead(o: Object, input: seq<byte>, pos: nat)
    requires o.Size() <= MAX_TAG_VALUE && At(input, pos, HeaderBytes(o))
    ensures var t := if o.Bytes? then BARRAY_TYPE else OBJ_TYPE;
            ReadTag(input, pos) == Tag(t, o.Size(), pos + |TagBytes(t, o.Size())|)
    ensures o.Bytes? ==> At(input, pos + |TagBytes(BARRAY_TYPE, |o.bytes|)|, o.bytes)
  {
    if o.Bytes? {
      AtSplit(input, pos, TagBytes(BARRAY_TYPE, |o.bytes|), o.bytes);
      TagRoundTrip(BARRAY_TYPE, |o.bytes|, input, pos);
    } else {
      TagRoundTrip(OBJ_TYPE, |o.fields|, input, pos);
    }
  }

  lemma {:induction false} WriteReadAll(h: Heap, vs: seq<Value>, w: seq<nat>, input: seq<byte>, pos: nat, st: Reader, a: nat, i: nat, n: nat)
    requires GoodHeap(h) && (forall v | v in vs :: GoodValue(h, v)) && Tables(w, st)
    requires WriteAll(h, vs, w).Wrote? && At(input, pos, WriteAll(h, vs, w).bytes)
    requires a < |st.store| && i + |vs| == n == |st.store[a].Slots()|
    ensures ReadSlots(input, pos, st, a, i, n).Read?
    ensures AllBack(h, vs, w, st, WriteAll(h, vs, w), ReadSlots(input, pos, st, a, i, n), pos, a, i)
    decreases |h.Keys - Elems(w)|, |vs|, 1
  {
    hide Write, WriteAll, ReadObject, ReadSlots, AllBack, OneBack, At, Tables, Filled, GoodHeap, GoodValue, Elems, NewRebuilt, Object.Slots;
    if vs == [] {
      NoneBack(h, vs, w, input, pos, st, a, i, n);
    } else {
      ConsBack(h, vs, w, input, pos, st, a, i, n);
    }
  }

  lemma {:induction false} ConsBack(h: Heap, vs: seq<Value>, w: seq<nat>, input: seq<byte>, pos: nat, st: Reader, a: nat, i: nat, n: nat)
    requires GoodHeap(h) && (forall v | v in vs :: GoodValue(h, v)) && Tables(w, st) && vs != []
    requires WriteAll(h, vs, w).Wrote? && At(input, pos, WriteAll(h, vs, w).bytes)
    requires a < |st.store| && i + |vs| == n == |st.store[a].Slots()|
    ensures ReadSlots(input, pos, st, a, i, n).Read?
    ensures AllBack(h, vs, w, st, WriteAll(h, vs, w), ReadSlots(input, pos, st, a, i, n), pos, a, i)
    decreases |h.Keys - Elems(w)|, |vs|, 0
  {
    hide Write, WriteAll, ReadObject, ReadSlots, AllBack, OneBack, At, Tables, Filled, GoodHeap, GoodValue, Elems, NewRebuilt, Object.Slots;
    var x, y, r := HeadBack(h, vs, w, input, pos, st, a, i, n);
    var st1 := Filled(r, a, i);
    WriteReadAll(h, vs[1..], x.indir, input, r.pos, st1, a, i + 1, n);
    OneThenRest(h, vs, w, st, x, r, y, ReadSlots(input, r.pos, st1, a, i + 1, n), pos, a, i);
  }

  /** The first value is read back, and the rest of the stream follows. */
  lemma {:induction false} HeadBack(h: Heap, vs: seq<Value>, w: seq<nat>, input: seq<byte>, pos: nat, st: Reader, a: nat, i: nat, n: nat)
    returns (x: Written, y: Written, r: ReadResult)
    requires GoodHeap(h) && (forall v | v in vs :: GoodValue(h, v)) && Tables(w, st) && vs != []
    requires WriteAll(h, vs, w).Wrote? && At(input, pos, WriteAll(h, vs, w).bytes)
    requires a < |st.store| && i + |vs| == n == |st.store[a].Slots()|
    ensures x == Write(h, vs[0], w) && r == ReadObject(input, pos, st) && r.Read? && OneBack(h, vs[0], w, st, x, r, pos)
    ensures forall v | v in vs[1..] :: GoodValue(h, v)
    ensures x.Wrote? && y == WriteAll(h, vs[1..], x.indir) && y.Wrote? && At(input, r.pos, y.bytes)
    ensures WriteAll(h, vs, w) == Wrote(x.bytes + y.bytes, y.indir)
    ensures pos <= r.pos <= |input| && ReadSlots(input, pos, st, a, i, n) == ReadSlots(input, r.pos, Filled(r, a, i), a, i + 1, n)
    ensures a < |r.st.store| && r.st.store[a] == st.store[a] && Tables(x.indir, Filled(r, a, i))
    ensures a < |Filled(r, a, i).store| && |Filled(r, a, i).store[a].Slots()| == n
    ensures |h.Keys - Elems(x.indir)| <= |h.Keys - Elems(w)|
    decreases |h.Keys - Elems(w)|, 0, 1
  {
    hide Write, WriteAll, ReadObject, ReadSlots, AllBack, OneBack, At, Tables, Filled, GoodHeap, GoodValue, Elems, NewRebuilt, Object.Slots;
    x := Write(h, vs[0], w);
    WriteCons(h, vs, w);
    y := WriteAll(h, vs[1..], x.indir);
    AtSplit(input, pos, x.bytes, y.bytes);
    WriteRead(h, vs[0], w, input, pos, st);
    r := ReadObject(input, pos, st);
    SlotFilled(h, vs[0], w, st, x, r, pos, a, i);
    ReadCons(input, pos, st, a, i, n);
    NoMore(h, w, x.indir);
    assert forall v | v in vs[1..] :: v in vs;
  }

  lemma NoneBack(h: Heap, vs: seq<Value>, w: seq<nat>, input: seq<byte>, pos: nat, st: Reader, a: nat, i: nat, n: nat)
    requires GoodHeap(h) && (forall v | v in vs :: GoodValue(h, v)) && Tables(w, st) && vs == []
    requires WriteAll(h, vs, w).Wrote? && At(input, pos, WriteAll(h, vs, w).bytes)
    requires a < |st.store| && i == n == |st.store[a].Slots()|
    ensures ReadSlots(input, pos, st, a, i, n).Read?
    ensures AllBack(h, vs, w, st, WriteAll(h, vs, w), ReadSlots(input, pos, st, a, i, n), pos, a, i)
  {}

  lemma WriteCons(h: Heap, vs: seq<Value>, w: seq<nat>)
    requires GoodHeap(h) && (forall v | v in vs :: GoodValue(h, v)) && vs != [] && WriteAll(h, vs, w).Wrote?
    ensures Write(h, vs[0], w).Wrote? && WriteAll(h, vs[1..], Write(h, vs[0], w).indir).Wrote?
    ensures var x := Write(h, vs[0], w);
            var y := WriteAll(h, vs[1..], x.indir);
            WriteAll(h, vs, w) == Wrote(x.bytes + y.bytes, y.indir) && w <= x.indir
  {
    hide Write;
  }

  lemma ReadCons(input: seq<byte>, pos: nat, st: Reader, a: nat, i: nat, n: nat)
    requires pos <= |input| && i < n && ReadObject(input, pos, st).Read?
    ensures var r := ReadObject(input, pos, st);
            ReadSlots(input, pos, st, a, i, n) == ReadSlots(input, r.pos, Filled(r, a, i), a, i + 1, n)
  {
    hide ReadObject;
  }

  function Filled(r: ReadResult, a: nat, i: nat): Reader
    requires r.Read?
  {
    r.st.(store := Put(r.st.store, a, i, r.v))
  }

  lemma SlotFilled(h: Heap, v: Value, w: seq<nat>, st: Reader, x: Written, r: ReadResult, pos: nat, a: nat, i: nat)
    requires OneBack(h, v, w, st, x, r, pos) && a < |st.store| && i < |st.store[a].Slots()|
    ensures r.Read? && a < |r.st.store| && r.st.store[a] == st.store[a] && r.pos == pos + |x.bytes|
    ensures Tables(x.indir, Filled(r, a, i))
    ensures a < |Filled(r, a, i).store| && |Filled(r, a, i).store[a].Slots()| == |st.store[a].Slots()|
  {}

  lemma OneThenRest(h: Heap, vs: seq<Value>, w: seq<nat>, st: Reader, x: Written, r: ReadResult, y: Written, r': ReadResult,
                    pos: nat, a: nat, i: nat)
    requires vs != [] && a < |st.store| && i + |vs| == |st.store[a].Slots()| && Tables(w, st)
    requires OneBack(h, vs[0], w, st, x, r, pos) && r.st.store[a] == st.store[a]
    requires a < |Filled(r, a, i).store| && |Filled(r, a, i).store[a].Slots()| == |st.store[a].Slots()|
    requires AllBack(h, vs[1..], x.indir, Filled(r, a, i), y, r', r.pos, a, i + 1)
    ensures AllBack(h, vs, w, st, Wrote(x.bytes + y.bytes, y.indir), r', pos, a, i)
  {
    var st1 := Filled(r, a, i);
    forall k | |w| <= k < |y.indir|
      ensures Rebuilt(h, y.indir, r'.st, k)
    {
      if k < |x.indir| {
        assert Rebuilt(h, x.indir, r.st, k) && |st.store| <= r.st.indir[k];
        assert st1.store[r.st.indir[k]] == r.st.store[r.st.indir[k]];
        RebuiltLater(h, x.indir, r.st, y.indir, r'.st, k);
      }
    }
    TrPrefix(x.indir, y.indir, r.st.indir, r'.st.indir, vs[0]);
    forall j {:trigger vs[j]} | 0 <= j < |vs|
      ensures Known(y.indir, vs[j]) && r'.st.store[a].Slots()[i + j] == Tr(y.indir, r'.st.indir, vs[j])
    {
      if j == 0 {
        assert st1.store[a].Slots()[i] == r.v;
      } else {
        assert vs[j] == vs[1..][j - 1];
      }
    }
  }

  /** Every object written is rebuilt, once, with every reference where it belongs: the tables pair the
      objects one to one, whatever sharing and cycles there are, and all the bytes are consumed. */
  lemma RoundTrip(h: Heap, v: Value, input: seq<byte>, pos: nat, st: Reader)
    requires GoodHeap(h) && GoodValue(h, v) && Write(h, v, []).Wrote?
    requires At(input, pos, Write(h, v, []).bytes) && st.indir == []
    ensures var x, r := Write(h, v, []), ReadObject(input, pos, st);
            r.Read? && r.pos == pos + |x.bytes| && |x.indir| == |r.st.indir| &&
            Distinct(x.indir) && Distinct(r.st.indir) &&
            Known(x.indir, v) && r.v == Tr(x.indir, r.st.indir, v) &&
            (forall k | 0 <= k < |x.indir| :: Rebuilt(h, x.indir, r.st, k)) &&
            (forall b | 0 <= b < |st.store| :: b < |r.st.store| && r.st.store[b] == st.store[b])
  {
    hide Write, ReadObject;
    WriteRead(h, v, [], input, pos, st);
  }

  // ---- When writing succeeds ------------------------------------------------------------------

  /** S holds no NULL and nothing in it points outside it. */
  ghost predicate Closed(h: Heap, S: set<nat>) {
    S <= h.Keys && forall id, u | id in S && u in h[id].Slots() :: Inside(S, u)
  }

  ghost predicate Inside(S: set<nat>, v: Value) {
    v.SmallInt? || (v.Ref? && v.id in S)
  }

  lemma SmallerTable(w: seq<nat>, S: set<nat>)
    requires Distinct(w) && Elems(w) <= S
    ensures |w| <= |S|
  {
    ElemsSize(w);
    assert S == Elems(w) + (S - Elems(w));
  }

  lemma {:induction false} ElemsSize(w: seq<nat>)
    requires Distinct(w)
    ensures |Elems(w)| == |w|
  {
    if w != [] {
      var n := |w| - 1;
      ElemsSize(w[..n]);
      assert Elems(w) == Elems(w[..n]) + {w[n]};
    }
  }

  lemma {:induction false} WriteSucceeds(h: Heap, v: Value, w: seq<nat>, S: set<nat>)
    requires GoodHeap(h) && GoodValue(h, v) && Closed(h, S) && |S| <= MAX_OBJECTS
    requires Distinct(w) && Elems(w) <= S && Inside(S, v)
    ensures Write(h, v, w).Wrote? && Distinct(Write(h, v, w).indir) && Elems(Write(h, v, w).indir) <= S
    decreases |h.Keys - Elems(w)|, 0
  {
    SmallerTable(w, S);
    if v.Ref? && v.id !in w {
      Fewer(h, w, v.id);
      assert Elems(w + [v.id]) == Elems(w) + {v.id};
      WriteAllSucceeds(h, h[v.id].Slots(), w + [v.id], S);
    }
  }

  lemma {:induction false} WriteAllSucceeds(h: Heap, vs: seq<Value>, w: seq<nat>, S: set<nat>)
    requires GoodHeap(h) && (forall v | v in vs :: GoodValue(h, v) && Inside(S, v)) && Closed(h, S) && |S| <= MAX_OBJECTS
    requires Distinct(w) && Elems(w) <= S
    ensures WriteAll(h, vs, w).Wrote? && Distinct(WriteAll(h, vs, w).indir) && Elems(WriteAll(h, vs, w).indir) <= S
    decreases |h.Keys - Elems(w)|, |vs|
  {
    if vs != [] {
      WriteSucceeds(h, vs[0], w, S);
      NoMore(h, w, Write(h, vs[0], w).indir);
      WriteAllSucceeds(h, vs[1..], Write(h, vs[0], w).indir, S);
    }
  }

  /** Objects met while writing refer only to objects met, and there are no more of them than allowed. */
  ghost predicate Complete(h: Heap, w: seq<nat>, w': seq<nat>) {
    && w <= w' && Distinct(w') && |w'| <= MAX_OBJECTS
    && forall k | |w| <= k < |w'| :: w'[k] in h && forall u | u in h[w'[k]].Slots() :: Known(w', u)
  }

  lemma {:induction false} WrittenComplete(h: Heap, v: Value, w: seq<nat>)
    requires GoodHeap(h) && GoodValue(h, v) && Distinct(w) && Write(h, v, w).Wrote?
    ensures Complete(h, w, Write(h, v, w).indir) && Known(Write(h, v, w).indir, v)
    decreases |h.Keys - Elems(w)|, 0
  {
    if v.Ref? && v.id !in w {
      Fewer(h, w, v.id);
      var x := WriteAll(h, h[v.id].Slots(), w + [v.id]);
      AllWrittenComplete(h, h[v.id].Slots(), w + [v.id]);
      assert x.indir[|w|] == (w + [v.id])[|w|] == v.id;
    }
  }

  lemma {:induction false} AllWrittenComplete(h: Heap, vs: seq<Value>, w: seq<nat>)
    requires GoodHeap(h) && (forall v | v in vs :: GoodValue(h, v)) && Distinct(w) && WriteAll(h, vs, w).Wrote?
    requires vs != [] || |w| <= MAX_OBJECTS
    ensures Complete(h, w, WriteAll(h, vs, w).indir) && forall v | v in vs :: Known(WriteAll(h, vs, w).indir, v)
    decreases |h.Keys - Elems(w)|, |vs|
  {
    if vs != [] {
      var x := Write(h, vs[0], w);
      WrittenComplete(h, vs[0], w);
      NoMore(h, w, x.indir);
      AllWrittenComplete(h, vs[1..], x.indir);
      var y := WriteAll(h, vs[1..], x.indir);
      forall k | |w| <= k < |x.indir|
        ensures y.indir[k] in h && forall u | u in h[y.indir[k]].Slots() :: Known(y.indir, u)
      {
        assert y.indir[k] == x.indir[k];
      }
    }
  }

  /** Exactly when an image can be written: what the root reaches has no NULL in it and is no more
      than MAX_OBJECTS objects. */
  lemma WritesIffWithinLimit(h: Heap, v: Value)
    requires GoodHeap(h) && GoodValue(h, v)
    ensures Write(h, v, []).Wrote? <==> exists S :: Closed(h, S) && Inside(S, v) && |S| <= MAX_OBJECTS
  {
    if Write(h, v, []).Wrote? {
      var w := Write(h, v, []).indir;
      WrittenComplete(h, v, []);
      ElemsSize(w);
      forall id, u | id in Elems(w) && u in h[id].Slots()
        ensures Inside(Elems(w), u)
      {
        var k :| 0 <= k < |w| && w[k] == id;
      }
      assert Closed(h, Elems(w));
    }
    forall S | Closed(h, S) && Inside(S, v) && |S| <= MAX_OBJECTS
      ensures Write(h, v, []).Wrote?
    {
      WriteSucceeds(h, v, [], S);
    }
  }
}
