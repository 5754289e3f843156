/** Small integers: how they are told from pointers, and the primitives that add, subtract, multiply and
    divide them, in the 32-bit arithmetic of the interpreter. */
module SmallInts {

  const MIN_SMALL := -0x4000_0000
  const MAX_SMALL := 0x3FFF_FFFF

  /** FITS_SMALLINT: INT_MIN/2 to INT_MAX/2, that is 31 bits. */
  predicate Fits(x: int) {
    MIN_SMALL <= x <= MAX_SMALL
  }

  predicate Int32(x: int) {
    -0x8000_0000 <= x < 0x8000_0000
  }

  predicate Int64(x: int) {
    -0x8000_0000_0000_0000 <= x < 0x8000_0000_0000_0000
  }

  /** What a 32-bit int keeps of a result. */
  function Wrap32(x: int): (r: int)
    ensures Int32(r)
  {
    (x + 0x8000_0000) % 0x1_0000_0000 - 0x8000_0000
  }

  lemma {:induction false} WrapExact(x: int)
    ensures Wrap32(x) == x <==> Int32(x)
    ensures exists k :: Wrap32(x) == x - k * 0x1_0000_0000
  {
    var k := (x + 0x8000_0000) / 0x1_0000_0000;
    assert Wrap32(x) == x - k * 0x1_0000_0000;
  }

  // ---- Tags --------------------------------------------------------------------------------------------

  /** newInteger: twice the number, and the low bit set. */
  function NewInteger(x: int): int {
    2 * x + 1
  }

  predicate IsSmallInt(word: int) {
    word % 2 == 1
  }

  /** integerValue: an arithmetic shift, cut to an int. */
  function IntegerValue(word: int): int {
    Wrap32(word / 2)
  }

  /** A tagged int gives the int back, and is never taken for a pointer, which is even. */
  lemma {:induction false} TagRoundTrip(x: int, pointer: int)
    requires Int32(x) && pointer % 2 == 0
    ensures IntegerValue(NewInteger(x)) == x && IsSmallInt(NewInteger(x)) && NewInteger(x) != pointer && Int64(NewInteger(x))
    ensures Fits(x) <==> Int32(NewInteger(x))
  {
    assert NewInteger(x) / 2 == x;
    WrapExact(x);
  }

  // ---- Arithmetic --------------------------------------------------------------------------------------

  /** A result: a small integer, or an object with 64 bits. */
  datatype Number = Small(v: int) | Integer(v: int)

  /** Small exactly when it fits. */
  predicate Boxed(n: Number) {
    n.Small? <==> Fits(n.v)
  }

  function Box(x: int): Number {
    if Fits(x) then Small(x) else Integer(x)
  }

  /** Primitive 10 */
  method Plus(high: int, low: int) returns (r: Number)
    requires Fits(high) && Fits(low)
    ensures r.v == high + low && Boxed(r) && Int64(r.v)
  {
    var x := Wrap32(high + low);
    WrapExact(high + low);
    if (high > 0 && low > 0 && x < high) || (high < 0 && low < 0 && x > high) {
      r := Integer(high + low);
    } else {
      r := Box(x);
    }
  }

  /** Primitive 16 */
  method Minus(high: int, low: int) returns (r: Number)
    requires Fits(high) && Fits(low)
    ensures r.v == high - low && Boxed(r) && Int64(r.v)
  {
    var x := Wrap32(high - low);
    WrapExact(high - low);
    if low > 0 && high < 0 && x > high {
      r := Integer(high - low);
    } else {
      r := Box(x);
    }
  }

  /** Division of C, toward zero. */
  function Quotient(a: int, b: int): int
    requires b != 0
  {
    if (a >= 0) == (b > 0) then Abs(a) / Abs(b) else -(Abs(a) / Abs(b))
  }

  function Remainder(a: int, b: int): int
    requires b != 0
  {
    a - Quotient(a, b) * b
  }

  function Abs(a: int): nat {
    if a < 0 then -a else a
  }

  /** The remainder is smaller than the divisor, and has the sign of the dividend. */
  lemma {:induction false} QuotientMeans(a: int, b: int)
    requires b != 0
    ensures Abs(Remainder(a, b)) < Abs(b) && (a >= 0 ==> Remainder(a, b) >= 0) && (a <= 0 ==> Remainder(a, b) <= 0)
  {
    var q, d := Abs(a) / Abs(b), Abs(b);
    assert Abs(a) == q * d + Abs(a) % d;
    Signs(q, d);
    assert b == d || b == -d;
  }

  lemma {:induction false} Signs(q: int, d: int)
    ensures -q * -d == q * d && -q * d == -(q * d) && q * -d == -(q * d)
  {}

  /** A product that divides exactly by its factor comes back as the other. */
  lemma {:induction false} QuotientExact(h: int, l: int)
    requires l != 0
    ensures Quotient(h * l, l) == h
  {
    QuotientMeans(h * l, l);
    var q := Quotient(h * l, l);
    assert Remainder(h * l, l) == (h - q) * l;
    if h != q {
      Multiple(h - q, l);
    }
  }

  lemma {:induction false} Multiple(k: int, l: int)
    requires k != 0
    ensures Abs(k * l) >= Abs(l)
  {
    if k > 0 {
      if l >= 0 { assert k * l >= l; } else { assert k * l <= l; }
    } else {
      if l >= 0 { assert k * l <= -l; } else { assert k * l >= -l; }
    }
  }

  /** The test on the wrapped product finds overflow exactly. */
  lemma {:induction false} ProductTest(high: int, low: int)
    requires Fits(high) && Fits(low) && low != 0
    ensures Quotient(Wrap32(high * low), low) == high <==> Int32(high * low)
  {
    var p := high * low;
    WrapExact(p);
    if Quotient(Wrap32(p), low) == high {
      QuotientMeans(Wrap32(p), low);
      assert Remainder(Wrap32(p), low) == Wrap32(p) - p;
      Near(Wrap32(p), p);
    }
    if Int32(p) {
      QuotientExact(high, low);
    }
  }

  lemma {:induction false} Near(x: int, p: int)
    requires x == Wrap32(p) && Abs(x - p) < 0x4000_0001
    ensures x == p
  {
    WrapExact(p);
    var k :| Wrap32(p) == p - k * 0x1_0000_0000;
    assert -1 < k < 1;
  }

  lemma {:induction false} ProductBound(high: int, low: int)
    requires Fits(high) && Fits(low)
    ensures Int64(high * low)
  {
    Magnitude(high, low);
    Below(Abs(high), Abs(low), 0x4000_0000);
  }

  lemma {:induction false} Magnitude(x: int, y: int)
    ensures Abs(x * y) == Abs(x) * Abs(y)
  {
    Signs(x, y);
    if x >= 0 && y >= 0 { assert x * y >= 0; }
    if x < 0 && y < 0 { assert x * y >= 0; }
    if x >= 0 && y < 0 { assert x * y <= 0; }
    if x < 0 && y >= 0 { assert x * y <= 0; }
  }

  lemma {:induction false} Below(x: nat, y: nat, b: nat)
    requires x <= b && y <= b
    ensures x * y <= b * b
  {
    assert x * y <= x * b;
    assert x * b <= b * b;
  }

  /** Primitive 15 */
  method Times(high: int, low: int) returns (r: Number)
    requires Fits(high) && Fits(low)
    ensures r.v == high * low && Boxed(r) && Int64(r.v)
  {
    var x := Wrap32(high * low);
    WrapExact(high * low);
    ProductBound(high, low);
    if low != 0 { ProductTest(high, low); }
    if low == 0 || Quotient(x, low) == high {
      r := Box(x);
    } else {
      r := Integer(high * low);
    }
  }

  /** Primitive 11 makes a small integer of the quotient without a test; it is one for every division but
      that of the least by -1. */
  lemma {:induction false} QuotientFits(high: int, low: int)
    requires Fits(high) && Fits(low) && low != 0
    ensures Fits(Quotient(high, low)) <==> !(high == MIN_SMALL && low == -1)
  {
    Divided(Abs(high), Abs(low));
  }

  lemma {:induction false} Divided(a: nat, d: nat)
    requires d > 0
    ensures 0 <= a / d <= a && (d > 1 ==> 2 * (a / d) <= a) && (d == 1 ==> a / d == a)
  {
    var e := a / d;
    assert a == e * d + a % d;
    if d > 1 {
      assert e * 2 <= e * d;
    }
  }
}
