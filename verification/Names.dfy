/** The order of symbols and strings, and the comparisons of the virtual machine, the bootstrap and the
    image, which all come to it. */
module Names {
  import opened Bytes

  type Name = seq<byte>

  /** Bytes first, then length. */
  predicate Less(a: Name, b: Name) {
    if b == [] then false
    else if a == [] then true
    else if a[0] != b[0] then a[0] < b[0]
    else Less(a[1..], b[1..])
  }

  /** Less puts any two different names in one order, consistently. */
  lemma {:induction false} Trichotomy(a: Name, b: Name)
    ensures (Less(a, b) || Less(b, a)) <==> a != b
    ensures !(Less(a, b) && Less(b, a))
    decreases a
  {
    if a != [] && b != [] {
      if a[0] == b[0] {
        Trichotomy(a[1..], b[1..]);
        assert a == [a[0]] + a[1..] && b == [b[0]] + b[1..];
      }
    }
  }

  lemma {:induction false} Transitive(a: Name, b: Name, c: Name)
    requires Less(a, b) && Less(b, c)
    ensures Less(a, c)
    decreases a
  {
    if a != [] && a[0] == b[0] && b[0] == c[0] {
      Transitive(a[1..], b[1..], c[1..]);
    }
  }

  /** The sign of a comparison says how two names are ordered. */
  ghost predicate Orders(r: int, a: Name, b: Name) {
    (r < 0 <==> Less(a, b)) && (r == 0 <==> a == b) && (r > 0 <==> Less(b, a))
  }

  /** Names that agree up to k are ordered as what follows. */
  lemma {:induction false} AfterCommon(a: Name, b: Name, k: nat)
    requires k <= |a| && k <= |b| && a[..k] == b[..k]
    ensures Less(a, b) <==> Less(a[k..], b[k..])
    ensures a == b <==> a[k..] == b[k..]
    decreases k
  {
    if k > 0 {
      assert a[0] == a[..k][0] == b[..k][0] == b[0];
      assert a[1..][..k - 1] == a[..k][1..] && b[1..][..k - 1] == b[..k][1..];
      AfterCommon(a[1..], b[1..], k - 1);
      assert a[1..][k - 1..] == a[k..] && b[1..][k - 1..] == b[k..];
    }
    assert a == a[..k] + a[k..] && b == b[..k] + b[k..];
  }

  /** Names that first differ at k, or of which one ends there. */
  lemma {:induction false} DecidedAt(a: Name, b: Name, k: nat, r: int)
    requires k <= |a| && k <= |b| && a[..k] == b[..k]
    requires if k < |a| && k < |b| then a[k] != b[k] && (r < 0 <==> a[k] < b[k]) && r != 0
             else (k == |a| || k == |b|) && (r < 0 <==> |a| < |b|) && (r == 0 <==> |a| == |b|)
    ensures Orders(r, a, b)
  {
    AfterCommon(a, b, k);
    AfterCommon(b, a, k);
    Trichotomy(a, b);
  }

  /** symbolcomp and symstrcomp: the difference of the first bytes that differ, or of the lengths. */
  method SymbolComp(left: Name, right: Name) returns (r: int)
    ensures Orders(r, left, right)
  {
    var minsize := if |right| < |left| then |right| else |left|;
    for i := 0 to minsize
      invariant left[..i] == right[..i]
    {
      if left[i] != right[i] {
        var l: int, m: int := left[i], right[i];
        DecidedAt(left, right, i, l - m);
        return l - m;
      }
    }
    DecidedAt(left, right, minsize, |left| - |right|);
    return |left| - |right|;
  }

  /** strsymcomp: symstrcomp the other way round. */
  method StrSymComp(left: Name, right: Name) returns (r: int)
    ensures Orders(r, left, right)
  {
    r := SymbolComp(right, left);
    r := -1 * r;
  }

  /** symbolBareCmp */
  method SymbolBareCmp(left: Name, right: Name) returns (r: int)
    ensures Orders(r, left, right)
  {
    var minsize := if |right| < |left| then |right| else |left|;
    for i := 0 to minsize
      invariant left[..i] == right[..i]
    {
      if left[i] != right[i] {
        r := if left[i] < right[i] then -1 else 1;
        DecidedAt(left, right, i, r);
        return;
      }
    }
    DecidedAt(left, right, minsize, |left| - |right|);
    return |left| - |right|;
  }

  /** Array <, which strings and symbols use. */
  method LessThan(self: Name, arg: Name) returns (r: bool)
    ensures r <==> Less(self, arg)
  {
    var minsize := if |self| < |arg| then |self| else |arg|;
    for i := 0 to minsize
      invariant self[..i] == arg[..i]
    {
      if self[i] != arg[i] {
        var l: int, m: int := self[i], arg[i];
        DecidedAt(self, arg, i, l - m);
        return l < m;
      }
    }
    DecidedAt(self, arg, minsize, |self| - |arg|);
    return |self| < |arg|;
  }

  /** Array = */
  method Equals(self: Name, arg: Name) returns (r: bool)
    ensures r <==> self == arg
  {
    if |self| != |arg| { return false; }
    for i := 0 to |self|
      invariant self[..i] == arg[..i]
    {
      if self[i] != arg[i] { return false; }
    }
    assert self == self[..|self|] && arg == arg[..|arg|];
    return true;
  }
}
