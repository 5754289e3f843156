/** The object stream of image.c: variable-length tags, and depth-first writing and reading of a
    graph of objects with back-references, as functions on values. */
module ImageFormat {
  import opened Bytes

  const OBJ_TYPE := 32
  const PINT_TYPE := 64
  const NINT_TYPE := 96
  const BARRAY_TYPE := 128
  const POBJ_TYPE := 160
  const NIL_TYPE := 192

  const SMALL_TAG_LIMIT := 0x0F
  const LARGE_TAG_FLAG := 0x10
  const MAX_TAG_VALUE := 0x7FFF_FFFF
  const MAX_OBJECTS := 10000

  // ---- Tags -----------------------------------------------------------------------------------

  /** Bytes needed after the tag byte; 0 when the value fits in the tag itself. */
  function IntSize(val: nat): nat
    requires val <= MAX_TAG_VALUE
  {
    if val <= SMALL_TAG_LIMIT then 0
    else if val <= 127 then 1
    else if val <= 32767 then 2
    else if val <= 8388608 then 3
    else 4
  }

  function LowBytes(val: nat, n: nat): seq<byte> {
    if n == 0 then [] else [val % 256] + LowBytes(val / 256, n - 1)
  }

  /** The number a run of bytes stands for, least significant first. */
  function FromLowBytes(bs: seq<byte>): nat {
    if bs == [] then 0 else bs[0] + 256 * FromLowBytes(bs[1..])
  }

  /** val >> (8 * i) */
  function ShiftRight(val: nat, i: nat): nat {
    if i == 0 then val else ShiftRight(val, i - 1) / 256
  }

  /** b << (8 * i) */
  function ShiftLeft(b: nat, i: nat): nat {
    if i == 0 then b else 256 * ShiftLeft(b, i - 1)
  }

  lemma LowBytesStep(val: nat, n: nat)
    requires n > 0
    ensures LowBytes(val, n) == [val % 256] + LowBytes(val / 256, n - 1)
  {}

  /** The next byte of a number counts for a further power of 256. */
  lemma {:induction false} FromLowBytesAppend(bs: seq<byte>, b: byte)
    ensures FromLowBytes(bs + [b]) == FromLowBytes(bs) + ShiftLeft(b, |bs|)
  {
    if bs != [] {
      assert (bs + [b])[1..] == bs[1..] + [b];
      FromLowBytesAppend(bs[1..], b);
    }
  }

  ghost predicate IsType(t: int) {
    0 <= t <= 192 && t % 32 == 0
  }

  function TagBytes(t: int, val: nat): seq<byte>
    requires IsType(t) && val <= MAX_TAG_VALUE
  {
    if IntSize(val) == 0 then [t + val]
    else [t + LARGE_TAG_FLAG + IntSize(val)] + LowBytes(val, IntSize(val))
  }

  datatype Tag = Tag(t: int, val: int, pos: nat) | NoTag

  /** The value is a 32-bit int.  Reading stops with an error at the end of the stream; sizes above 4,
      which are never written, are not modelled. */
  function ReadTag(input: seq<byte>, pos: nat): Tag {
    if pos >= |input| then NoTag
    else
      var size, t := input[pos] % 32, input[pos] - input[pos] % 32;
      if size >= LARGE_TAG_FLAG then
        var n := size - LARGE_TAG_FLAG;
        if n > 4 || pos + 1 + n > |input| then NoTag
        else
          var v := FromLowBytes(input[pos + 1..pos + 1 + n]);
          Tag(t, if v > MAX_TAG_VALUE then v - 0x1_0000_0000 else v, pos + 1 + n)
      else Tag(t, size, pos + 1)
  }

  lemma {:induction false} LowBytesRoundTrip(val: nat, n: nat)
    requires n <= 4 && (n == 0 ==> val == 0) && (n == 1 ==> val < 256) && (n == 2 ==> val < 65536)
    requires (n == 3 ==> val < 0x100_0000) && (n == 4 ==> val < 0x1_0000_0000)
    ensures |LowBytes(val, n)| == n && FromLowBytes(LowBytes(val, n)) == val
  {
    if n > 0 {
      LowBytesRoundTrip(val / 256, n - 1);
    }
  }

  /** The tag codec is exact on 0 .. 2^31 - 1, wherever the tag stands in the stream. */
  lemma TagRoundTrip(t: int, val: nat, input: seq<byte>, pos: nat)
    requires IsType(t) && val <= MAX_TAG_VALUE
    requires pos + |TagBytes(t, val)| <= |input| && input[pos..pos + |TagBytes(t, val)|] == TagBytes(t, val)
    ensures ReadTag(input, pos) == Tag(t, val, pos + |TagBytes(t, val)|)
  {
    var bs, n := TagBytes(t, val), IntSize(val);
    LowBytesRoundTrip(val, if n == 0 then 4 else n);
    assert input[pos] == bs[0];
    if n > 0 {
      assert input[pos + 1..pos + 1 + n] == bs[1..] == LowBytes(val, n);
    }
  }

  // ---- Graphs ---------------------------------------------------------------------------------

  datatype Value = Null | SmallInt(i: int) | Ref(id: nat)

  datatype Object =
    | Bytes(cls: Value, bytes: seq<byte>)
    | Fields(cls: Value, fields: seq<Value>)
  {
    /** The class and, for objects with fields, the fields. */
    function Slots(): seq<Value> {
      if Bytes? then [cls] else [cls] + fields
    }

    function SetSlot(i: nat, v: Value): Object
      requires i < |Slots()|
    {
      if i == 0 then this.(cls := v) else this.(fields := fields[i - 1 := v])
    }

    /** The tag and bytes that come before the slots. */
    function Size(): nat {
      if Bytes? then |bytes| else |fields|
    }

    /** Same kind, size and bytes. */
    ghost predicate SameShape(o: Object) {
      if Bytes? then o.Bytes? && o.bytes == bytes else o.Fields? && |o.fields| == |fields|
    }
  }

  type Heap = map<nat, Object>

  predicate IsSmallInt(i: int) { -0x4000_0000 <= i < 0x4000_0000 }

  ghost predicate GoodValue(h: Heap, v: Value) {
    match v
    case Null => true
    case SmallInt(i) => IsSmallInt(i)
    case Ref(id) => id in h
  }

  /** No dangling references; sizes and integers in the ranges headers and tagged words give. */
  ghost predicate GoodHeap(h: Heap) {
    forall id | id in h :: h[id].Size() < 0x4000_0000 && forall v | v in h[id].Slots() :: GoodValue(h, v)
  }

  function Elems(s: seq<nat>): set<nat> {
    set x | x in s
  }

  function IndexOf(s: seq<nat>, x: nat): nat
    requires x in s
    ensures IndexOf(s, x) < |s| && s[IndexOf(s, x)] == x
  {
    if s[0] == x then 0 else 1 + IndexOf(s[1..], x)
  }

  // ---- Writing --------------------------------------------------------------------------------

  datatype Written = Wrote(bytes: seq<byte>, indir: seq<nat>) | WriteError

  function HeaderBytes(o: Object): seq<byte>
    requires o.Size() <= MAX_TAG_VALUE
  {
    if o.Bytes? then TagBytes(BARRAY_TYPE, |o.bytes|) + o.bytes else TagBytes(OBJ_TYPE, |o.fields|)
  }

  /** objectWrite: `indir` is the table of objects already met. */
  function Write(h: Heap, v: Value, indir: seq<nat>): (r: Written)
    requires GoodHeap(h) && GoodValue(h, v)
    ensures r.Wrote? ==> indir <= r.indir
    decreases |h.Keys - Elems(indir)|, 0
  {
    if |indir| > MAX_OBJECTS || v.Null? then WriteError
    else if v.SmallInt? then
      Wrote(if v.i < 0 then TagBytes(NINT_TYPE, -v.i) else TagBytes(PINT_TYPE, v.i), indir)
    else if v.id in indir then
      var i := IndexOf(indir, v.id);
      Wrote(if i == 0 then TagBytes(NIL_TYPE, 0) else TagBytes(POBJ_TYPE, i), indir)
    else
      Fewer(h, indir, v.id);
      var r := WriteAll(h, h[v.id].Slots(), indir + [v.id]);
      if r.Wrote? then Wrote(HeaderBytes(h[v.id]) + r.bytes, r.indir) else WriteError
  }

  function WriteAll(h: Heap, vs: seq<Value>, indir: seq<nat>): (r: Written)
    requires GoodHeap(h) && forall v | v in vs :: GoodValue(h, v)
    ensures r.Wrote? ==> indir <= r.indir
    decreases |h.Keys - Elems(indir)|, |vs|
  {
    if vs == [] then Wrote([], indir)
    else
      var r := Write(h, vs[0], indir);
      if r.WriteError? then WriteError
      else
        NoMore(h, indir, r.indir);
        var rest := WriteAll(h, vs[1..], r.indir);
        if rest.Wrote? then Wrote(r.bytes + rest.bytes, rest.indir) else WriteError
  }

  lemma Fewer(h: Heap, indir: seq<nat>, id: nat)
    requires id in h && id !in indir
    ensures |h.Keys - Elems(indir + [id])| < |h.Keys - Elems(indir)|
  {
    assert h.Keys - Elems(indir) == (h.Keys - Elems(indir + [id])) + {id};
  }

  lemma NoMore(h: Heap, indir: seq<nat>, indir': seq<nat>)
    requires indir <= indir'
    ensures |h.Keys - Elems(indir')| <= |h.Keys - Elems(indir)|
  {
    assert h.Keys - Elems(indir) == (h.Keys - Elems(indir')) + ((h.Keys - Elems(indir)) * Elems(indir'));
  }

  // ---- Reading --------------------------------------------------------------------------------

  /** The reader's table and the objects made so far; an address is an index into the store. */
  datatype Reader = Reader(indir: seq<nat>, store: seq<Object>)

  datatype ReadResult = Read(v: Value, pos: nat, st: Reader) | ReadError

  function Blank(t: int, size: nat, bs: seq<byte>): Object {
    if t == BARRAY_TYPE then Bytes(Null, bs) else Fields(Null, seq(size, _ => Null))
  }

  /** Stores v in slot i of the object at a. */
  function Put(store: seq<Object>, a: nat, i: nat, v: Value): seq<Object> {
    if a < |store| && i < |store[a].Slots()| then store[a := store[a].SetSlot(i, v)] else store
  }

  /** objectRead.  A back-reference past the table is an error here; image.c lets the first such index through. */
  function ReadObject(input: seq<byte>, pos: nat, st: Reader): (r: ReadResult)
    ensures r.Read? ==> pos < r.pos <= |input|
    decreases |input| - pos, 0
  {
    match ReadTag(input, pos)
    case NoTag => ReadError
    case Tag(t, val, p) =>
      if t == PINT_TYPE then Read(SmallInt(val), p, st)
      else if t == NINT_TYPE then Read(SmallInt(-val), p, st)
      else if t == POBJ_TYPE then (if 0 <= val < |st.indir| then Read(Ref(st.indir[val]), p, st) else ReadError)
      else if t == NIL_TYPE then (if 0 < |st.indir| then Read(Ref(st.indir[0]), p, st) else ReadError)
      else if t == OBJ_TYPE && val >= 0 then
        ReadSlots(input, p, Started(st, Blank(t, val, [])), |st.store|, 0, 1 + val)
      else if t == BARRAY_TYPE && val >= 0 && p + val <= |input| then
        ReadSlots(input, p + val, Started(st, Blank(t, val, input[p..p + val])), |st.store|, 0, 1)
      else ReadError
  }

  /** A new object is entered in the table before anything in it is read. */
  function Started(st: Reader, o: Object): Reader {
    Reader(st.indir + [|st.store|], st.store + [o])
  }

  /** Fills slots i to n - 1 of the object at a. */
  function ReadSlots(input: seq<byte>, pos: nat, st: Reader, a: nat, i: nat, n: nat): (r: ReadResult)
    requires pos <= |input| && i <= n
    ensures r.Read? ==> pos <= r.pos <= |input| && r.v == Ref(a)
    decreases |input| - pos, n - i
  {
    if i == n then Read(Ref(a), pos, st)
    else
      var r := ReadObject(input, pos, st);
      if r.ReadError? then ReadError
      else ReadSlots(input, r.pos, r.st.(store := Put(r.st.store, a, i, r.v)), a, i + 1, n)
  }
}
