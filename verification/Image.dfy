/** image.c: the writer and the reader, step by step.  `error()` ends the program; here it is a false
    result, after which nothing is claimed about the state. */
module Image {
  import opened Bytes
  import opened ImageFormat

  lemma NoBytes(val: nat)
    ensures LowBytes(val, 0) == []
  {}

  /** What is written in all, when `done` has been written and r remains. */
  function Resume(done: seq<byte>, r: Written): Written {
    if r.Wrote? then Wrote(done + r.bytes, r.indir) else WriteError
  }

  lemma ResumeTwice(a: seq<byte>, b: seq<byte>, r: Written)
    ensures Resume([], r) == r && Resume(a, Resume(b, r)) == Resume(a + b, r)
    ensures Resume(a, WriteError) == WriteError
  {}

  lemma WriteNothing(h: Heap, w: seq<nat>)
    requires GoodHeap(h)
    ensures WriteAll(h, [], w) == Wrote([], w)
    ensures forall done :: Resume(done, WriteAll(h, [], w)) == Wrote(done, w)
  {}

  lemma WriteUnmet(h: Heap, id: nat, w: seq<nat>)
    requires GoodHeap(h) && id in h && id !in w && |w| <= MAX_OBJECTS
    ensures var r := WriteAll(h, h[id].Slots(), w + [id]);
            Write(h, Ref(id), w) == if r.Wrote? then Wrote(HeaderBytes(h[id]) + r.bytes, r.indir) else WriteError
  {
    hide WriteAll;
  }

  lemma WriteAllFirst(h: Heap, vs: seq<Value>, w: seq<nat>)
    requires GoodHeap(h) && (forall v | v in vs :: GoodValue(h, v)) && vs != []
    ensures Write(h, vs[0], w).WriteError? ==> WriteAll(h, vs, w).WriteError?
    ensures var r := Write(h, vs[0], w); r.Wrote? ==>
              WriteAll(h, vs, w) == Resume(r.bytes, WriteAll(h, vs[1..], r.indir))
  {
    hide Write;
  }

  class ImageWriter {
    const heap: Heap
    var indirArray: seq<nat>
    var out: seq<byte>

    constructor (h: Heap)
      ensures heap == h && indirArray == [] && out == []
    {
      heap, indirArray, out := h, [], [];
    }

    method WriteTag(t: int, val: nat)
      requires IsType(t) && val <= MAX_TAG_VALUE
      modifies this`out
      ensures out == old(out) + TagBytes(t, val)
    {
      hide LowBytes;
      var tempSize := IntSize(val);
      if tempSize > 0 {
        out := out + [t + LARGE_TAG_FLAG + tempSize];
        ghost var out1 := out;
        var i := 0;
        while i < tempSize
          invariant 0 <= i <= tempSize
          invariant out + LowBytes(ShiftRight(val, i), tempSize - i) == out1 + LowBytes(val, tempSize)
        {
          LowBytesStep(ShiftRight(val, i), tempSize - i);
          out := out + [ShiftRight(val, i) % 256];
          i := i + 1;
        }
        NoBytes(ShiftRight(val, i));
        assert out == out1 + LowBytes(val, tempSize);
        assert old(out) + ([t + LARGE_TAG_FLAG + tempSize] + LowBytes(val, tempSize)) == out;
      } else {
        out := out + [t + val];
      }
    }

    /** The place of id in the table, if it has been written. */
    method Find(id: nat) returns (found: bool, i: nat)
      ensures found <==> id in indirArray
      ensures found ==> i == IndexOf(indirArray, id)
    {
      i := 0;
      while i < |indirArray|
        invariant 0 <= i <= |indirArray| && id !in indirArray[..i]
        invariant id in indirArray ==> id in indirArray[i..] && IndexOf(indirArray, id) == i + IndexOf(indirArray[i..], id)
      {
        if id == indirArray[i] {
          return true, i;
        }
        assert indirArray[i..][1..] == indirArray[i + 1..];
        i := i + 1;
      }
      found := false;
    }

    method ObjectWrite(v: Value) returns (ok: bool)
      requires GoodHeap(heap) && GoodValue(heap, v)
      modifies this
      ensures ok == Write(heap, v, old(indirArray)).Wrote?
      ensures ok ==> var r := Write(heap, v, old(indirArray)); out == old(out) + r.bytes && indirArray == r.indir
      decreases |heap.Keys - Elems(indirArray)|, 1
    {
      if |indirArray| > MAX_OBJECTS || v.Null? {
        return false;
      }
      if v.SmallInt? {
        if v.i < 0 {
          WriteTag(NINT_TYPE, -v.i);
        } else {
          WriteTag(PINT_TYPE, v.i);
        }
        return true;
      }
      var found, i := Find(v.id);
      if found {
        if i == 0 {
          WriteTag(NIL_TYPE, 0);
        } else {
          WriteTag(POBJ_TYPE, i);
        }
        return true;
      }
      hide Write, WriteAll;
      WriteUnmet(heap, v.id, indirArray);
      ok := WriteNew(v.id);
    }

    /** An object not met before: header and bytes, then its slots, with the table entry made first. */
    method WriteNew(id: nat) returns (ok: bool)
      requires GoodHeap(heap) && id in heap && id !in indirArray
      modifies this
      ensures ok == WriteAll(heap, heap[id].Slots(), old(indirArray) + [id]).Wrote?
      ensures ok ==> var r := WriteAll(heap, heap[id].Slots(), old(indirArray) + [id]);
                     out == old(out) + (HeaderBytes(heap[id]) + r.bytes) && indirArray == r.indir
      decreases |heap.Keys - Elems(indirArray)|, 0
    {
      hide Write, WriteAll;
      var o := heap[id];
      Fewer(heap, indirArray, id);
      indirArray := indirArray + [id];
      WriteHeader(o);
      ok := WriteSlots(o.Slots());
    }

    method WriteHeader(o: Object)
      requires o.Size() <= MAX_TAG_VALUE
      modifies this`out
      ensures out == old(out) + HeaderBytes(o)
    {
      if o.Bytes? {
        WriteTag(BARRAY_TYPE, |o.bytes|);
        ghost var out1 := out;
        var k := 0;
        while k < |o.bytes|
          invariant 0 <= k <= |o.bytes|
          invariant out == out1 + o.bytes[..k]
        {
          out := out + [o.bytes[k]];
          k := k + 1;
        }
        assert o.bytes[..k] == o.bytes;
      } else {
        WriteTag(OBJ_TYPE, |o.fields|);
      }
    }

    /** The class, then the fields in order. */
    method WriteSlots(slots: seq<Value>) returns (ok: bool)
      requires GoodHeap(heap) && forall v | v in slots :: GoodValue(heap, v)
      modifies this
      ensures ok == WriteAll(heap, slots, old(indirArray)).Wrote?
      ensures ok ==> var r := WriteAll(heap, slots, old(indirArray)); out == old(out) + r.bytes && indirArray == r.indir
      decreases |heap.Keys - Elems(indirArray)|, 3
    {
      hide Write, WriteAll, Resume;
      ghost var w0, out0, done := indirArray, out, [];
      ResumeTwice([], [], WriteAll(heap, slots, w0));
      assert slots[0..] == slots;
      var i := 0;
      while i < |slots|
        invariant 0 <= i <= |slots| && w0 <= indirArray && out == out0 + done
        invariant WriteAll(heap, slots, w0) == Resume(done, WriteAll(heap, slots[i..], indirArray))
      {
        NoMore(heap, w0, indirArray);
        ok, done := WriteSlot(slots, i, w0, out0, done);
        if !ok {
          return;
        }
        i := i + 1;
      }
      assert slots[i..] == [];
      WriteNothing(heap, indirArray);
      ok := true;
    }

    method WriteSlot(slots: seq<Value>, i: nat, ghost w0: seq<nat>, ghost out0: seq<byte>, ghost done: seq<byte>)
      returns (ok: bool, ghost done': seq<byte>)
      requires GoodHeap(heap) && (forall v | v in slots :: GoodValue(heap, v)) && i < |slots|
      requires w0 <= indirArray && out == out0 + done
      requires WriteAll(heap, slots, w0) == Resume(done, WriteAll(heap, slots[i..], indirArray))
      modifies this
      ensures !ok ==> WriteAll(heap, slots, w0).WriteError?
      ensures ok ==> w0 <= indirArray && out == out0 + done'
      ensures ok ==> WriteAll(heap, slots, w0) == Resume(done', WriteAll(heap, slots[i + 1..], indirArray))
      decreases |heap.Keys - Elems(indirArray)|, 2
    {
      hide Write, WriteAll, Resume;
      ghost var w1, rest := indirArray, slots[i..];
      assert rest[0] == slots[i] && rest[1..] == slots[i + 1..];
      WriteAllFirst(heap, rest, w1);
      ok := ObjectWrite(slots[i]);
      done' := if ok then done + Write(heap, slots[i], w1).bytes else done;
      ResumeTwice(done, if ok then Write(heap, slots[i], w1).bytes else [], WriteAll(heap, slots[i + 1..], indirArray));
    }
  }

  class ImageReader {
    const input: seq<byte>
    var pos: nat
    var indirArray: seq<nat>
    var store: seq<Object>

    ghost predicate Valid()
      reads this`pos
    {
      pos <= |input|
    }

    ghost function State(): Reader
      reads this`indirArray, this`store
    {
      Reader(indirArray, store)
    }

    constructor (bytes: seq<byte>, memory: seq<Object>)
      ensures Valid() && input == bytes && pos == 0 && State() == Reader([], memory)
    {
      input, pos, indirArray, store := bytes, 0, [], memory;
    }

    /** The tag's value is put together from the low byte up, in 32 bits, and taken as an int. */
    method ReadTagValue() returns (ok: bool, t: int, val: int)
      requires Valid()
      modifies this`pos
      ensures Valid()
      ensures ok <==> ReadTag(input, old(pos)).Tag?
      ensures ok ==> ReadTag(input, old(pos)) == Tag(t, val, pos) && old(pos) < pos
    {
      ok, t, val := false, 0, 0;
      if pos >= |input| {
        return;
      }
      var tempSize := input[pos] % 32;
      t := input[pos] - input[pos] % 32;
      pos := pos + 1;
      if tempSize >= LARGE_TAG_FLAG {
        tempSize := tempSize - LARGE_TAG_FLAG;
        if tempSize > 4 {
          return;
        }
        var tmp, i := 0, 0;
        while i < tempSize
          invariant 0 <= i <= tempSize && pos == old(pos) + 1 + i <= |input|
          invariant tmp == FromLowBytes(input[old(pos) + 1..pos])
        {
          if pos >= |input| {
            return;
          }
          FromLowBytesAppend(input[old(pos) + 1..pos], input[pos]);
          assert input[old(pos) + 1..pos + 1] == input[old(pos) + 1..pos] + [input[pos]];
          tmp := tmp + ShiftLeft(input[pos], i);
          pos := pos + 1;
          i := i + 1;
        }
        val := if tmp > MAX_TAG_VALUE then tmp - 0x1_0000_0000 else tmp;
      } else {
        val := tempSize;
      }
      ok := true;
    }

    method ObjectRead() returns (ok: bool, v: Value)
      requires Valid()
      modifies this`pos, this`indirArray, this`store
      ensures Valid()
      ensures ok <==> ReadObject(input, old(pos), old(State())).Read?
      ensures ok ==> ReadObject(input, old(pos), old(State())) == Read(v, pos, State())
      decreases |input| - pos, 1
    {
      hide ReadTag, ReadSlots;
      ok, v := false, Null;
      var tagged, t, val := ReadTagValue();
      if !tagged {
        return;
      }
      if t == PINT_TYPE {
        return true, SmallInt(val);
      }
      if t == NINT_TYPE {
        return true, SmallInt(-val);
      }
      if t == POBJ_TYPE {
        if 0 <= val < |indirArray| {
          return true, Ref(indirArray[val]);
        }
        return;
      }
      if t == NIL_TYPE {
        if 0 < |indirArray| {
          return true, Ref(indirArray[0]);
        }
        return;
      }
      if t == OBJ_TYPE && val >= 0 {
        ok, v := NewObject(Blank(t, val, []), 1 + val);
      } else if t == BARRAY_TYPE && val >= 0 && pos + val <= |input| {
        var bytes := input[pos..pos + val];
        pos := pos + val;
        ok, v := NewObject(Blank(t, val, bytes), 1);
      }
    }

    /** The new object goes into the table first; then its class and fields are read into it. */
    method NewObject(o: Object, n: nat) returns (ok: bool, v: Value)
      requires Valid() && n == |o.Slots()|
      modifies this`pos, this`indirArray, this`store
      ensures Valid()
      ensures ok <==> ReadSlots(input, old(pos), old(Started(State(), o)), old(|store|), 0, n).Read?
      ensures ok ==> ReadSlots(input, old(pos), old(Started(State(), o)), old(|store|), 0, n) == Read(v, pos, State())
      decreases |input| - pos, 2
    {
      hide ReadObject, ReadSlots;
      var a := |store|;
      indirArray := indirArray + [a];
      store := store + [o];
      ghost var p0, st0 := pos, State();
      var i := 0;
      while i < n
        invariant 0 <= i <= n && p0 <= pos <= |input|
        invariant ReadSlots(input, p0, st0, a, 0, n) == ReadSlots(input, pos, State(), a, i, n)
      {
        ghost var p1, st1 := pos, State();
        NextSlot(input, pos, State(), a, i, n);
        var w;
        ok, w := ObjectRead();
        if !ok {
          return false, Null;
        }
        store := Put(store, a, i, w);
        i := i + 1;
      }
      NoSlots(input, pos, State(), a, n);
      return true, Ref(a);
    }
  }

  lemma NextSlot(input: seq<byte>, pos: nat, st: Reader, a: nat, i: nat, n: nat)
    requires pos <= |input| && i < n
    ensures var r := ReadObject(input, pos, st);
            ReadSlots(input, pos, st, a, i, n) ==
            if r.ReadError? then ReadError
            else ReadSlots(input, r.pos, r.st.(store := Put(r.st.store, a, i, r.v)), a, i + 1, n)
  {
    hide ReadObject;
  }

  lemma NoSlots(input: seq<byte>, pos: nat, st: Reader, a: nat, n: nat)
    requires pos <= |input|
    ensures ReadSlots(input, pos, st, a, n, n) == Read(Ref(a), pos, st)
  {}
}
