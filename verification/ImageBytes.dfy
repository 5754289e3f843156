/** The bytes of an image, written out: what each value is put down as, and what each run of bytes is taken for. */
module ImageBytes {
  import opened Bytes
  import opened ImageFormat
  import opened ImageRoundTrip

  /** A kind, in the upper three bits of a byte, with a number: in the lower bits up to 15, and else in as many bytes
      after it as the lower bits say, low byte first. */
  function Counted(kind: int, n: nat): seq<byte>
    requires IsType(kind) && n < 0x8000_0000
  {
    if n <= 15 then [kind + n]
    else if n <= 127 then [kind + 0x11, n]
    else if n <= 32767 then [kind + 0x12, n % 256, n / 256]
    else if n <= 8388608 then [kind + 0x13, n % 256, n / 256 % 256, n / 65536]
    else [kind + 0x14, n % 256, n / 256 % 256, n / 65536 % 256, n / 16777216]
  }

  lemma {:induction false} TagIs(kind: int, n: nat)
    requires IsType(kind) && n < 0x8000_0000
    ensures TagBytes(kind, n) == Counted(kind, n)
  {
    LowFour(n);
  }

  lemma {:induction false} LowTwo(n: nat)
    ensures LowBytes(n, 1) == [n % 256] && LowBytes(n, 2) == [n % 256, n / 256 % 256]
  {
    LowBytesStep(n, 1);
    LowBytesStep(n, 2);
    LowBytesStep(n / 256, 1);
  }

  lemma {:induction false} LowFour(n: nat)
    ensures LowBytes(n, 1) == [n % 256] && LowBytes(n, 2) == [n % 256, n / 256 % 256]
    ensures LowBytes(n, 3) == [n % 256, n / 256 % 256, n / 65536 % 256]
    ensures LowBytes(n, 4) == [n % 256, n / 256 % 256, n / 65536 % 256, n / 16777216 % 256]
  {
    assert n / 256 / 256 == n / 65536 && n / 65536 / 256 == n / 16777216;
    LowTwo(n);
    LowTwo(n / 256);
    LowTwo(n / 65536);
    LowBytesStep(n, 3);
    LowBytesStep(n, 4);
    LowBytesStep(n / 256, 3);
  }

  // ---- What is written, and where ----------------------------------------------------------------------

  /** A value of a heap: a NULL, an integer of 31 bits, or an object of the heap. */
  ghost predicate ValueOf(h: Heap, v: Value) {
    match v
    case Null => true
    case SmallInt(i) => -1073741824 <= i <= 1073741823
    case Ref(id) => id in h.Keys
  }

  /** All heaps of such values whose sizes have 30 bits. */
  lemma {:induction false} HeapsAre(h: Heap)
    ensures forall v :: GoodValue(h, v) <==> ValueOf(h, v)
    ensures GoodHeap(h) <==> forall id | id in h ::
              ValueOf(h, h[id].cls) &&
              match h[id]
              case Bytes(_, bytes) => |bytes| < 1073741824
              case Fields(_, fields) => |fields| < 1073741824 && forall v | v in fields :: ValueOf(h, v)
  {
    assert forall v :: GoodValue(h, v) <==> ValueOf(h, v);
    hide GoodValue, ValueOf;
    forall id | id in h
      ensures (forall v | v in h[id].Slots() :: GoodValue(h, v)) <==>
                GoodValue(h, h[id].cls) && (h[id].Fields? ==> forall v | v in h[id].fields :: GoodValue(h, v))
    {
      SlotsAre(h[id]);
    }
  }

  lemma {:induction false} SlotsAre(o: Object)
    ensures forall v :: v in o.Slots() <==> v == o.cls || (o.Fields? && v in o.fields)
  {}

  /** A stretch of the stream, the last one included. */
  lemma {:induction false} AtAnywhere(before: seq<byte>, bs: seq<byte>, after: seq<byte>)
    ensures At(before + bs + after, |before|, bs)
  {}

  // ---- Writing ---------------------------------------------------------------------------------------

  lemma {:induction false} IntegerWritten(h: Heap, i: int, indir: seq<nat>)
    requires GoodHeap(h) && -0x4000_0000 <= i < 0x4000_0000 && |indir| <= 10000
    ensures Write(h, SmallInt(i), indir) == Wrote(if i < 0 then Counted(0x60, -i) else Counted(0x40, i), indir)
  {
    TagIs(0x60, if i < 0 then -i else i);
    TagIs(0x40, if i < 0 then -i else i);
  }

  /** An object met before: the first one has a kind of its own. */
  lemma {:induction false} KnownWritten(h: Heap, indir: seq<nat>, k: nat)
    requires GoodHeap(h) && |indir| <= 10000 && k < |indir| && indir[k] in h && forall j | 0 <= j < k :: indir[j] != indir[k]
    ensures Write(h, Ref(indir[k]), indir) == Wrote(if k == 0 then [0xC0] else Counted(0xA0, k), indir)
  {
    FirstIndex(indir, k);
    TagIs(0xA0, k);
    TagIs(0xC0, 0);
  }

  lemma {:induction false} FirstIndex(s: seq<nat>, k: nat)
    requires k < |s| && forall j | 0 <= j < k :: s[j] != s[k]
    ensures s[k] in s && IndexOf(s, s[k]) == k
    decreases k
  {
    if k > 0 {
      FirstIndex(s[1..], k - 1);
    }
  }

  lemma {:induction false} Joined(a: seq<byte>, b: seq<byte>, c: seq<byte>)
    ensures a + (b + c) == a + b + c
  {}

  lemma {:induction false} NothingWritten(h: Heap, indir: seq<nat>)
    requires GoodHeap(h)
    ensures WriteAll(h, [], indir) == Wrote([], indir)
  {}

  /** In order. */
  lemma {:induction false} EachWritten(h: Heap, v: Value, rest: seq<Value>, indir: seq<nat>)
    requires GoodHeap(h) && GoodValue(h, v) && forall u | u in rest :: GoodValue(h, u)
    ensures forall u | u in [v] + rest :: GoodValue(h, u)
    ensures WriteAll(h, [v] + rest, indir) ==
            var x := Write(h, v, indir);
            if x.WriteError? then WriteError
            else
              var y := WriteAll(h, rest, x.indir);
              if y.WriteError? then WriteError else Wrote(x.bytes + y.bytes, y.indir)
  {
    assert ([v] + rest)[1..] == rest;
    hide Write;
  }

  lemma {:induction false} UnmetWritten(h: Heap, id: nat, indir: seq<nat>)
    requires GoodHeap(h) && id in h && |indir| <= 10000 && id !in indir
    ensures Write(h, Ref(id), indir) ==
            var r := WriteAll(h, h[id].Slots(), indir + [id]);
            if r.Wrote? then Wrote(HeaderBytes(h[id]) + r.bytes, r.indir) else WriteError
  {
    hide WriteAll;
  }

  /** An object with fields: their number, the class, and the fields in order. */
  lemma {:induction false} FieldsWritten(h: Heap, id: nat, indir: seq<nat>)
    requires GoodHeap(h) && id in h && h[id].Fields? && |indir| <= 10000 && id !in indir
    ensures |h[id].fields| < 0x8000_0000 && GoodValue(h, h[id].cls) && forall u | u in h[id].fields :: GoodValue(h, u)
    ensures Write(h, Ref(id), indir) ==
            var x := Write(h, h[id].cls, indir + [id]);
            if x.WriteError? then WriteError
            else
              var y := WriteAll(h, h[id].fields, x.indir);
              if y.WriteError? then WriteError else Wrote(Counted(0x20, |h[id].fields|) + x.bytes + y.bytes, y.indir)
  {
    var o := h[id];
    SlotsGood(h, id);
    UnmetWritten(h, id, indir);
    EachWritten(h, o.cls, o.fields, indir + [id]);
    TagIs(0x20, |o.fields|);
    hide Write, WriteAll, TagBytes, Counted;
    var x := Write(h, o.cls, indir + [id]);
    if x.Wrote? {
      var y := WriteAll(h, o.fields, x.indir);
      if y.Wrote? { Joined(Counted(0x20, |o.fields|), x.bytes, y.bytes); }
    }
  }

  lemma {:induction false} SlotsGood(h: Heap, id: nat)
    requires GoodHeap(h) && id in h
    ensures h[id].Size() < 0x8000_0000 && GoodValue(h, h[id].cls) && (h[id].Fields? ==> forall u | u in h[id].fields :: GoodValue(h, u))
  {
    assert h[id].cls in h[id].Slots();
    if h[id].Fields? {
      forall u | u in h[id].fields ensures GoodValue(h, u) { assert u in h[id].Slots(); }
    }
  }

  /** A binary object: the number of its bytes, the bytes, and the class. */
  lemma {:induction false} BytesWritten(h: Heap, id: nat, indir: seq<nat>)
    requires GoodHeap(h) && id in h && h[id].Bytes? && |indir| <= 10000 && id !in indir
    ensures |h[id].bytes| < 0x8000_0000 && GoodValue(h, h[id].cls)
    ensures Write(h, Ref(id), indir) ==
            var x := Write(h, h[id].cls, indir + [id]);
            if x.WriteError? then WriteError else Wrote(Counted(0x80, |h[id].bytes|) + h[id].bytes + x.bytes, x.indir)
  {
    var o := h[id];
    SlotsGood(h, id);
    UnmetWritten(h, id, indir);
    EachWritten(h, o.cls, [], indir + [id]);
    TagIs(0x80, |o.bytes|);
    assert [o.cls] + [] == [o.cls];
    var x := Write(h, o.cls, indir + [id]);
    if x.Wrote? {
      NothingWritten(h, x.indir);
      assert x.bytes + [] == x.bytes;
    }
    hide Write, WriteAll, TagBytes, Counted;
  }

  /** A NULL is not written, nor anything once more than 10000 objects have been met. */
  lemma {:induction false} NotWritten(h: Heap, v: Value, indir: seq<nat>)
    requires GoodHeap(h) && GoodValue(h, v) && (v.Null? || |indir| > 10000)
    ensures Write(h, v, indir).WriteError?
  {}

  // ---- Reading ---------------------------------------------------------------------------------------

  lemma {:induction false} CountedRead(kind: int, n: nat, input: seq<byte>, pos: nat)
    requires IsType(kind) && n < 0x8000_0000 && At(input, pos, Counted(kind, n))
    ensures ReadTag(input, pos) == Tag(kind, n, pos + |Counted(kind, n)|)
  {
    TagIs(kind, n);
    TagRoundTrip(kind, n, input, pos);
  }

  /** Four bytes make a 32-bit int: from 2 to the 31 on, a negative one. */
  lemma {:induction false} FourRead(kind: int, a: byte, b: byte, c: byte, d: byte, input: seq<byte>, pos: nat)
    requires IsType(kind) && At(input, pos, [kind + 0x14, a, b, c, d])
    ensures var v := a + 256 * b + 65536 * c + 16777216 * d;
            ReadTag(input, pos) == Tag(kind, if v < 0x8000_0000 then v else v - 0x1_0000_0000, pos + 5)
  {
    var bs := [kind + 0x14, a, b, c, d];
    assert input[pos] == bs[0] && input[pos + 1..pos + 5] == bs[1..] == [a, b, c, d];
    FourBytes(a, b, c, d);
  }

  lemma {:induction false} FourBytes(a: byte, b: byte, c: byte, d: byte)
    ensures FromLowBytes([a, b, c, d]) == a + 256 * b + 65536 * c + 16777216 * d
  {
    assert [a, b, c, d][1..] == [b, c, d] && [b, c, d][1..] == [c, d] && [c, d][1..] == [d] && [d][1..] == [];
    assert FromLowBytes([d]) == d;
    assert FromLowBytes([c, d]) == c + 256 * d;
    assert FromLowBytes([b, c, d]) == b + 256 * c + 65536 * d;
  }

  lemma {:induction false} IntegerRead(i: int, input: seq<byte>, pos: nat, st: Reader)
    requires -0x8000_0000 < i < 0x8000_0000
    ensures i >= 0 && At(input, pos, Counted(0x40, i)) ==> ReadObject(input, pos, st) == Read(SmallInt(i), pos + |Counted(0x40, i)|, st)
    ensures i <= 0 && At(input, pos, Counted(0x60, -i)) ==> ReadObject(input, pos, st) == Read(SmallInt(i), pos + |Counted(0x60, -i)|, st)
  {
    if i >= 0 && At(input, pos, Counted(0x40, i)) { CountedRead(0x40, i, input, pos); }
    if i <= 0 && At(input, pos, Counted(0x60, -i)) { CountedRead(0x60, -i, input, pos); }
    hide Counted, At, ReadTag;
  }

  lemma {:induction false} KnownRead(k: nat, input: seq<byte>, pos: nat, st: Reader)
    requires k < |st.indir| && k < 0x8000_0000
    ensures At(input, pos, Counted(0xA0, k)) ==> ReadObject(input, pos, st) == Read(Ref(st.indir[k]), pos + |Counted(0xA0, k)|, st)
    ensures At(input, pos, [0xC0]) ==> ReadObject(input, pos, st) == Read(Ref(st.indir[0]), pos + 1, st)
  {
    if At(input, pos, Counted(0xA0, k)) { CountedRead(0xA0, k, input, pos); }
    assert Counted(0xC0, 0) == [0xC0];
    if At(input, pos, [0xC0]) { CountedRead(0xC0, 0, input, pos); }
    hide Counted, At, ReadTag;
  }

  /** A new object with n fields is made and entered in the table; the class, and then the fields, are read into it. */
  lemma {:induction false} FieldsRead(n: nat, input: seq<byte>, pos: nat, st: Reader)
    requires n < 0x8000_0000 && At(input, pos, Counted(0x20, n))
    ensures exists o: Object :: o.Fields? && o.cls == Null && |o.fields| == n && (forall f | f in o.fields :: f == Null) &&
              ReadObject(input, pos, st) ==
              ReadSlots(input, pos + |Counted(0x20, n)|, Reader(st.indir + [|st.store|], st.store + [o]), |st.store|, 0, 1 + n)
  {
    hide Counted, ReadTag, ReadSlots, ReadObject;
    CountedRead(0x20, n, input, pos);
    ReadFieldsHeader(input, pos, st, n, pos + |Counted(0x20, n)|);
    var o := Blank(0x20, n, []);
    assert Started(st, o) == Reader(st.indir + [|st.store|], st.store + [o]);
  }

  /** A new object with these bytes is made and entered in the table; the class is read into it. */
  lemma {:induction false} BytesRead(bs: seq<byte>, input: seq<byte>, pos: nat, st: Reader)
    requires |bs| < 0x8000_0000 && At(input, pos, Counted(0x80, |bs|) + bs)
    ensures ReadObject(input, pos, st) ==
            ReadSlots(input, pos + |Counted(0x80, |bs|)| + |bs|,
                      Reader(st.indir + [|st.store|], st.store + [Bytes(Null, bs)]), |st.store|, 0, 1)
  {
    AtSplit(input, pos, Counted(0x80, |bs|), bs);
    CountedRead(0x80, |bs|, input, pos);
    hide Counted, ReadTag, ReadSlots;
  }

  /** The first value read into an object is its class, and any after it the next of its fields. */
  lemma {:induction false} SlotRead(input: seq<byte>, pos: nat, st: Reader, a: nat, i: nat, n: nat)
    requires pos <= |input| && i <= n
    ensures ReadSlots(input, pos, st, a, i, n) ==
            if i == n then Read(Ref(a), pos, st)
            else
              var r := ReadObject(input, pos, st);
              if r.ReadError? then ReadError else ReadSlots(input, r.pos, r.st.(store := Put(r.st.store, a, i, r.v)), a, i + 1, n)
    ensures forall store: seq<Object>, v: Value | a < |store| ::
              Put(store, a, 0, v) == store[a := if store[a].Bytes? then Bytes(v, store[a].bytes) else Fields(v, store[a].fields)]
    ensures forall store: seq<Object>, v: Value {:trigger Put(store, a, i, v)} | a < |store| && store[a].Fields? && 0 < i <= |store[a].fields| ::
              Put(store, a, i, v) == store[a := Fields(store[a].cls, store[a].fields[i - 1 := v])]
  {
    hide ReadObject;
  }
}
