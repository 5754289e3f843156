/** The encoder object: a growing byte array with an index, literals, and the stack count. */
module Encoding {
  import opened Bytes
  import opened Bytecode
  import opened Values
  import opened CodeGen
  import opened StackTracker
  import opened Streams

  class Encoder {
    var byteCodes: array<byte>
    var index: nat
    var literals: seq<Value>
    var stackSize: int
    var maxStack: int

    ghost predicate Valid()
      reads this
    {
      index < byteCodes.Length
    }

    ghost function Code(): seq<byte>
      requires Valid()
      reads this, byteCodes
    {
      byteCodes[..index]
    }

    function Count(): Tracker
      reads this
    {
      Tracker(stackSize, maxStack)
    }

    constructor ()
      ensures Valid() && fresh(byteCodes) && Code() == [] && literals == []
      ensures byteCodes.Length == 20 && stackSize == 0 && maxStack == 1 && Count() == FRESH
    {
      byteCodes := new byte[20];
      index := 0;
      literals := [];
      stackSize := 0;
      maxStack := 1;
    }

    /** Same array, or one of its own. */
    twostate predicate Kept()
      reads this
    {
      byteCodes == old(byteCodes) || fresh(byteCodes)
    }

    /** Bytes have been added, and nothing else has changed. */
    twostate predicate Added(bytes: seq<byte>)
      reads this, byteCodes
    {
      && old(Valid()) && Valid() && Kept()
      && Code() == old(Code()) + bytes
      && literals == old(literals) && Count() == old(Count())
    }

    method ExpandByteCodes()
      modifies this`byteCodes
      ensures fresh(byteCodes) && byteCodes.Length == old(byteCodes.Length) + 8
      ensures byteCodes[..old(byteCodes.Length)] == old(byteCodes[..])
    {
      var bytes, size := byteCodes, byteCodes.Length;
      var newarray := new byte[size + 8];
      for i := 0 to size
        invariant byteCodes == bytes && bytes[..] == old(byteCodes[..])
        invariant newarray[..i] == bytes[..i]
      {
        newarray[i] := bytes[i];
      }
      byteCodes := newarray;
    }

    method GenCode(b: nat)
      requires Valid()
      modifies this`index, this`byteCodes, byteCodes
      ensures Added([b % 256])
    {
      index := index + 1;
      if index >= byteCodes.Length {
        ExpandByteCodes();
      }
      byteCodes[index - 1] := b % 256;
      assert byteCodes[..index] == byteCodes[..index - 1] + [b % 256];
    }

    method GenHighLow(high: nat, low: nat)
      requires Valid() && high < 16
      modifies this`index, this`byteCodes, byteCodes
      ensures Added(OpBytes(high, low))
    {
      if low >= 16 {
        GenHighLow(0, high);
        GenCode(low);
      } else {
        GenCode(high * 16 + low);
      }
    }

    /** The answer is where the two bytes are, counted from 1. */
    method GenVal(v: nat) returns (loc: nat)
      requires Valid()
      modifies this`index, this`byteCodes, byteCodes
      ensures Added(Location(v)) && loc == old(index) + 1
    {
      GenCode(v % 256);
      GenCode(v / 256);
      loc := index - 1;
    }

    /** A literal has one number, that of its first occurrence. */
    method GenLiteral(v: Value) returns (n: nat)
      requires Valid()
      modifies this`literals
      ensures literals == WithLiteral(old(literals), v) && n == IndexOf(old(literals), v)
      ensures n < |literals| && literals[n] == v
    {
      n := IndexOf(literals, v);
      if n == |literals| {
        literals := literals + [v];
      }
    }

    method BackUp()
      requires Valid() && index > 0
      modifies this`index
      ensures Valid() && Code() == old(Code()[..index - 1])
    {
      index := index - 1;
    }

    /** Two bytes left open are given the location reached now. */
    method Patch(loc: nat)
      requires Valid() && 1 <= loc < index
      modifies byteCodes
      ensures Code() == old(Code()[..loc - 1] + Location(index) + Code()[loc + 1..])
    {
      byteCodes[loc - 1] := index % 256;
      byteCodes[loc] := index / 256 % 256;
    }

    method CountArgs(n: nat)
      modifies this`stackSize, this`maxStack
      ensures Count() == PushArgs(old(Count()), n)
    {
      stackSize := stackSize + n;
      maxStack := if stackSize < maxStack then maxStack else stackSize;
    }

    method DiscountArgs(n: nat)
      modifies this`stackSize
      ensures Count() == PopArgs(old(Count()), n)
    {
      stackSize := stackSize - n;
    }

    ghost function Now(): Stream
      reads this, byteCodes
    {
      Stream(if index <= byteCodes.Length then byteCodes[..index] else [], literals, Count())
    }

    /** The encoder has come to s. */
    twostate predicate Became(s: Stream)
      reads this, byteCodes
    {
      Valid() && Kept() && Now() == s
    }
  }
}
