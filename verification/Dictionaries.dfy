/** Dictionaries as two arrays in parallel, the keys in order: looked up by binary search, filled by the
    bootstrap and by the image, and agreeing with a map. */
module Dictionaries {
  import opened Names
  import opened Options

  /** Each key is less than every later one. */
  ghost predicate Sorted(keys: seq<Name>) {
    forall i, j | 0 <= i < j < |keys| :: Less(keys[i], keys[j])
  }

  /** The arrays say what the map says. */
  ghost predicate Represents<V>(keys: seq<Name>, values: seq<V>, m: map<Name, V>) {
    && |keys| == |values| && Sorted(keys)
    && (forall k :: k in m <==> k in keys)
    && (forall i | 0 <= i < |keys| :: keys[i] in m && m[keys[i]] == values[i])
  }

  lemma {:induction false} Distinct(keys: seq<Name>, i: nat, j: nat)
    requires Sorted(keys) && i < |keys| && j < |keys| && keys[i] == keys[j]
    ensures i == j
  {
    Trichotomy(keys[i], keys[j]);
  }

  /** Where a key is, or would go: what comes before is less, what comes after is not. */
  ghost predicate Place(keys: seq<Name>, k: Name, p: nat) {
    && p <= |keys|
    && (forall i | 0 <= i < p :: Less(keys[i], k))
    && (forall i | p <= i < |keys| :: !Less(keys[i], k))
  }

  /** A key in order is found at its place. */
  lemma {:induction false} PlaceFinds(keys: seq<Name>, k: Name, p: nat)
    requires Sorted(keys) && Place(keys, k, p)
    ensures k in keys <==> p < |keys| && keys[p] == k
  {
    if i :| 0 <= i < |keys| && keys[i] == k {
      Trichotomy(k, k);
      if p < i {
        Trichotomy(keys[p], k);
      }
    }
  }

  lemma {:induction false} InsertKeeps<V>(keys: seq<Name>, values: seq<V>, m: map<Name, V>, p: nat, k: Name, v: V)
    requires Represents(keys, values, m) && Place(keys, k, p) && k !in keys
    ensures Represents(keys[..p] + [k] + keys[p..], values[..p] + [v] + values[p..], m[k := v])
  {
    var ks := keys[..p] + [k] + keys[p..];
    forall i | p <= i < |keys| ensures Less(k, keys[i]) {
      Trichotomy(keys[i], k);
    }
    forall i, j | 0 <= i < j < |ks| ensures Less(ks[i], ks[j]) {
      if i < p && j > p {
        assert ks[j] == keys[j - 1];
      }
    }
    forall x ensures x in ks <==> x in m[k := v] {
      assert x in ks <==> x in keys[..p] || x == k || x in keys[p..];
      assert keys == keys[..p] + keys[p..];
    }
  }

  lemma {:induction false} UpdateKeeps<V>(keys: seq<Name>, values: seq<V>, m: map<Name, V>, p: nat, v: V)
    requires Represents(keys, values, m) && p < |keys|
    ensures Represents(keys, values[p := v], m[keys[p] := v])
  {
    forall i | 0 <= i < |keys| ensures m[keys[p] := v][keys[i]] == values[p := v][i] {
      if keys[i] == keys[p] { Distinct(keys, i, p); }
    }
  }

  /** The keys that are left are all but the one taken out. */
  lemma {:induction false} KeysLeft(keys: seq<Name>, p: nat, x: Name)
    requires Sorted(keys) && p < |keys|
    ensures x in keys[..p] + keys[p + 1..] <==> x in keys && x != keys[p]
  {
    hide Less;
    var ks := keys[..p] + keys[p + 1..];
    forall i | 0 <= i < |ks| ensures ks[i] != keys[p] {
      Trichotomy(keys[if i < p then i else i + 1], keys[p]);
    }
    assert keys == keys[..p] + [keys[p]] + keys[p + 1..];
    assert x in ks <==> x in keys[..p] || x in keys[p + 1..];
  }

  lemma {:induction false} RemoveKeeps<V>(keys: seq<Name>, values: seq<V>, m: map<Name, V>, p: nat)
    requires Represents(keys, values, m) && p < |keys|
    ensures Represents(keys[..p] + keys[p + 1..], values[..p] + values[p + 1..], m - {keys[p]})
  {
    hide Less;
    var ks, vs := keys[..p] + keys[p + 1..], values[..p] + values[p + 1..];
    forall x ensures x in ks <==> x in m - {keys[p]} {
      KeysLeft(keys, p, x);
    }
    forall i | 0 <= i < |ks| ensures ks[i] in m - {keys[p]} && (m - {keys[p]})[ks[i]] == vs[i] {
      assert ks[i] in ks;
      var j := if i < p then i else i + 1;
      assert ks[i] == keys[j] && vs[i] == values[j];
    }
  }

  /** Array insert:at: and insert() -- a longer copy. */
  method Insert<T>(a: array<T>, index: nat, v: T) returns (o: array<T>)
    requires index <= a.Length
    ensures fresh(o) && o[..] == a[..index] + [v] + a[index..]
  {
    o := new T[a.Length + 1](_ => v);
    var i: nat := 0;
    while i < index
      invariant i <= index && o[..i] == a[..i]
    {
      o[i] := a[i];
      i := i + 1;
    }
    var j := i;
    o[i] := v;
    i := i + 1;
    while j < a.Length
      invariant index <= j <= a.Length && i == j + 1
      invariant o[..i] == a[..index] + [v] + a[index..j]
    {
      o[i] := a[j];
      assert a[index..j + 1] == a[index..j] + [a[j]];
      i, j := i + 1, j + 1;
    }
    assert o[..] == o[..i] && a[index..] == a[index..j];
  }

  /** Array removeIndex: */
  method RemoveIndex<T>(a: array<T>, index: nat) returns (o: array<T>)
    requires index < a.Length
    ensures fresh(o) && o[..] == a[..index] + a[index + 1..]
  {
    o := new T[a.Length - 1](i requires 0 <= i < a.Length - 1 reads a => if i < index then a[i] else a[i + 1]);
  }

  lemma {:induction false} SameSize<V>(keys: seq<Name>, values: seq<V>, m: map<Name, V>, k: Name, p: nat)
    requires Represents(keys, values, m) && Place(keys, k, p)
    ensures p <= |keys| == |values|
  {}

  class Dictionary<V> {
    var keys: array<Name>
    var values: array<V>
    ghost var contents: map<Name, V>

    ghost predicate Valid()
      reads this, keys, values
    {
      (keys as object) != (values as object) && Represents(keys[..], values[..], contents)
    }

    /** dictLookup */
    method DictLookup(name: Name) returns (r: Option<V>)
      requires Valid()
      ensures r == if name in contents then Some(contents[name]) else None
    {
      var low: nat, high: nat := 0, keys.Length;
      while low < high
        invariant low <= high <= keys.Length
        invariant forall i | 0 <= i < low :: Less(keys[i], name)
        invariant forall i | high <= i < keys.Length :: Less(name, keys[i])
      {
        var mid := (low + high) / 2;
        var result := StrSymComp(name, keys[mid]);
        if result == 0 {
          assert keys[..][mid] in contents;
          return Some(values[mid]);
        }
        forall i | mid < i < keys.Length && result < 0 ensures Less(name, keys[i]) {
          Transitive(name, keys[..][mid], keys[..][i]);
        }
        forall i | 0 <= i < mid && result > 0 ensures Less(keys[i], name) {
          Transitive(keys[..][i], keys[..][mid], name);
        }
        if result < 0 { high := mid; } else { low := mid + 1; }
      }
      forall i | 0 <= i < keys.Length ensures keys[..][i] != name {
        Trichotomy(keys[i], name);
      }
      assert name !in keys[..];
      return None;
    }

    /** dictionaryInsert: false is its complaint about a duplicate. */
    method DictionaryInsert(index: Name, value: V) returns (ok: bool)
      requires Valid()
      modifies this
      ensures Valid() && ok == (index !in old(contents))
      ensures contents == if ok then old(contents)[index := value] else old(contents)
    {
      var i: nat := 0;
      while i < keys.Length
        invariant keys == old(keys) && values == old(values) && contents == old(contents)
        invariant i <= keys.Length && forall j | 0 <= j < i :: Less(keys[j], index)
      {
        var res := SymbolBareCmp(index, keys[i]);
        if res == 0 {
          assert keys[..][i] == index;
          return false;
        }
        if res < 0 {
          break;
        }
        assert Less(keys[i], index);
        i := i + 1;
      }
      forall j | i <= j < keys.Length ensures !Less(keys[j], index) && keys[j] != index {
        if i < j { Transitive(index, keys[..][i], keys[..][j]); }
        Trichotomy(index, keys[j]);
      }
      forall j | 0 <= j < i ensures keys[j] != index {
        Trichotomy(index, keys[j]);
      }
      assert index !in keys[..];
      PutIn(i, index, value);
      return true;
    }

    /** A new key and its value are inserted in both arrays. */
    method PutIn(i: nat, index: Name, value: V)
      requires Valid() && Place(keys[..], index, i) && index !in keys[..]
      modifies this
      ensures Valid() && fresh(keys) && fresh(values) && contents == old(contents)[index := value]
    {
      hide Place, Represents;
      InsertKeeps(keys[..], values[..], contents, i, index, value);
      ghost var ks, vs := keys[..], values[..];
      assert i <= |ks| == |vs| by { SameSize(ks, vs, contents, index, i); }
      assert keys[..i] == ks[..i] && keys[i..] == ks[i..] && values[..i] == vs[..i] && values[i..] == vs[i..];
      keys := Insert(keys, i, index);
      values := Insert(values, i, value);
      contents := contents[index := value];
    }

    /** OrderedArray location:, counted from 0. */
    method Location(k: Name) returns (low: nat)
      requires Valid()
      ensures Place(keys[..], k, low)
    {
      low := 0;
      var high: nat := keys.Length;
      while low < high
        invariant low <= high <= keys.Length
        invariant forall i | 0 <= i < low :: Less(keys[i], k)
        invariant forall i | high <= i < keys.Length :: !Less(keys[i], k)
      {
        var mid := (low + high) / 2;
        var less := LessThan(keys[mid], k);
        forall i | 0 <= i < mid && less ensures Less(keys[i], k) {
          Transitive(keys[..][i], keys[..][mid], k);
        }
        forall i | mid < i < keys.Length && !less ensures !Less(keys[i], k) {
          if Less(keys[i], k) { Transitive(keys[..][mid], keys[..][i], k); }
        }
        if less { low := mid + 1; } else { high := mid; }
      }
    }

    /** at:ifAbsent: */
    method AtIfAbsent(key: Name) returns (r: Option<V>)
      requires Valid()
      ensures r == if key in contents then Some(contents[key]) else None
    {
      var position := Location(key);
      PlaceFinds(keys[..], key, position);
      if position < keys.Length {
        var found := Equals(key, keys[position]);
        if found { return Some(values[position]); }
      }
      return None;
    }

    method Replace(position: nat, value: V)
      requires Valid() && position < keys.Length
      modifies this`contents, values
      ensures Valid() && contents == old(contents)[keys[position] := value]
    {
      UpdateKeeps(keys[..], values[..], contents, position, value);
      ghost var ks, vs := keys[..], values[..];
      contents := contents[keys[position] := value];
      hide Represents;
      assert |ks| == |vs|;
      values[position] := value;
      assert keys[..] == ks && values[..] == vs[position := value];
    }

    /** at:put: -- the value is changed in place, or both arrays are replaced by longer ones. */
    method AtPut(key: Name, value: V)
      requires Valid()
      modifies this, values
      ensures Valid() && contents == old(contents)[key := value]
    {
      var position := Location(key);
      PlaceFinds(keys[..], key, position);
      if position < keys.Length {
        var found := Equals(key, keys[position]);
        if found {
          Replace(position, value);
          return;
        }
      }
      PutIn(position, key, value);
    }

    /** removeKey:ifAbsent: */
    method RemoveKey(key: Name) returns (found: bool)
      requires Valid()
      modifies this
      ensures Valid() && found == (key in old(contents)) && contents == old(contents) - {key}
    {
      var position := Location(key);
      PlaceFinds(keys[..], key, position);
      if position < keys.Length {
        found := Equals(key, keys[position]);
        if found {
          RemoveKeeps(keys[..], values[..], contents, position);
          keys := RemoveIndex(keys, position);
          values := RemoveIndex(values, position);
          contents := contents - {key};
          return;
        }
      }
      return false;
    }
  }
}
