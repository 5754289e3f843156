/** Object headers as the machine words they are: the size above two flag bits.  The collector's model has
    them as records; here the macros on the words are shown to do what the records say. */
module Headers {
  import opened Memory

  /** The word for a header. */
  function Bits(h: Word): nat
    requires h.Header?
  {
    4 * h.size + (if h.bin then 2 else 0) + (if h.done then 1 else 0)
  }

  /** SIZE: what is left of the low 32 bits when the flags are shifted out. */
  function Size(word: nat): nat {
    word % 0x1_0000_0000 / 4
  }

  /** SET_SIZE: a 32-bit shift, which leaves no flag set. */
  function SetSize(val: nat): nat {
    val * 4 % 0x1_0000_0000
  }

  predicate IsGcDone(word: nat) {
    word % 2 == 1
  }

  predicate IsBinObj(word: nat) {
    word / 2 % 2 == 1
  }

  /** SET_GCDONE and SET_BINOBJ: or with a flag. */
  function SetGcDone(word: nat): nat {
    if IsGcDone(word) then word else word + 1
  }

  function SetBinObj(word: nat): nat {
    if IsBinObj(word) then word else word + 2
  }

  /** Sizes have 30 bits. */
  predicate Representable(h: Word) {
    h.Header? && h.size < 0x4000_0000
  }

  /** The word says what the record says, and no two records have the same word. */
  lemma {:induction false} Reads(h: Word, g: Word)
    requires Representable(h) && Representable(g)
    ensures Size(Bits(h)) == h.size && (IsGcDone(Bits(h)) <==> h.done) && (IsBinObj(Bits(h)) <==> h.bin)
    ensures Bits(h) == Bits(g) ==> h == g
  {
    Flags(h);
    Flags(g);
  }

  lemma {:induction false} Flags(h: Word)
    requires Representable(h)
    ensures Size(Bits(h)) == h.size && (IsGcDone(Bits(h)) <==> h.done) && (IsBinObj(Bits(h)) <==> h.bin)
  {
    var f := (if h.bin then 2 else 0) + (if h.done then 1 else 0);
    assert Bits(h) == 4 * h.size + f && Bits(h) < 0x1_0000_0000;
    assert Bits(h) / 4 == h.size;
    assert Bits(h) / 2 == 2 * h.size + f / 2;
  }

  /** Setting the size clears the flags; setting a flag keeps the size and the other flag. */
  lemma {:induction false} Writes(h: Word, val: nat)
    requires Representable(h) && val < 0x4000_0000
    ensures SetSize(val) == Bits(Header(val, false, false))
    ensures SetGcDone(Bits(h)) == Bits(h.(done := true)) && SetBinObj(Bits(h)) == Bits(h.(bin := true))
  {
    Flags(h);
  }

  /** Every word of 32 bits is that of a header. */
  lemma {:induction false} Covers(word: nat)
    requires word < 0x1_0000_0000
    ensures var h := Header(word / 4, word % 2 == 1, word / 2 % 2 == 1); Representable(h) && Bits(h) == word
  {
    var q, f := word / 4, word % 4;
    assert word == 4 * q + f && word / 2 == 2 * q + f / 2 && word % 2 == f % 2;
    assert word / 2 % 2 == f / 2;
  }

  /** A larger size is cut to 30 bits, and bits above the 32nd are not read. */
  lemma {:induction false} Truncates(word: nat, val: nat, high: nat)
    requires word < 0x1_0000_0000
    ensures Size(word + 0x1_0000_0000 * high) == word / 4
    ensures Size(SetSize(val)) == val % 0x4000_0000 && !IsGcDone(SetSize(val)) && !IsBinObj(SetSize(val))
  {
    assert val * 4 % 0x1_0000_0000 == (val % 0x4000_0000) * 4;
    assert (val % 0x4000_0000) * 4 / 2 == (val % 0x4000_0000) * 2;
  }
}
