/** Method lookup up the superclass chain, by binary search in each class, and the cache in front of it. */
module MethodLookup {
  import opened Names
  import opened Options

  /** A class: its superclass, and its methods by selector, the selectors being symbol objects. */
  datatype Class = Class(parent: Option<nat>, keys: seq<nat>, methods: seq<nat>)

  /** Classes and the bytes of symbols, by object. */
  datatype Image = Image(classes: map<nat, Class>, symbols: map<nat, Name>)

  /** Selectors are interned and in order, and superclass chains end (`rank` counts the classes left). */
  ghost predicate WellFormed(m: Image, rank: map<nat, nat>) {
    && (forall s, t | s in m.symbols && t in m.symbols && m.symbols[s] == m.symbols[t] :: s == t)
    && (forall c | c in m.classes :: Orderly(m, m.classes[c]) && c in rank)
    && (forall c | c in m.classes && m.classes[c].parent.Some? ::
          m.classes[c].parent.value in m.classes && rank[m.classes[c].parent.value] < rank[c])
  }

  ghost predicate Orderly(m: Image, c: Class) {
    && |c.keys| == |c.methods|
    && (forall k | k in c.keys :: k in m.symbols)
    && (forall i, j | 0 <= i < j < |c.keys| :: Less(m.symbols[c.keys[i]], m.symbols[c.keys[j]]))
  }

  /** Symbols alone, no two of the same bytes, are an image. */
  lemma {:induction false} NoClasses(symbols: map<nat, Name>)
    requires forall s, t | s in symbols && t in symbols && s != t :: symbols[s] != symbols[t]
    ensures WellFormed(Image(map[], symbols), map[])
  {}

  /** A class may be added below any other, or on its own, with any methods in the order of their selectors. */
  lemma {:induction false} ClassAdded(m: Image, rank: map<nat, nat>, c: nat, parent: Option<nat>, keys: seq<nat>, methods: seq<nat>)
    requires WellFormed(m, rank) && c !in m.classes && (parent.Some? ==> parent.value in m.classes)
    requires |keys| == |methods| && (forall k | k in keys :: k in m.symbols)
    requires forall i, j | 0 <= i < j < |keys| :: Less(m.symbols[keys[i]], m.symbols[keys[j]])
    ensures WellFormed(m.(classes := m.classes[c := Class(parent, keys, methods)]),
                       rank[c := if parent.Some? then rank[parent.value] + 1 else 0])
  {
    var m' := m.(classes := m.classes[c := Class(parent, keys, methods)]);
    forall d | d in m.classes ensures Orderly(m', m'.classes[d]) { assert Orderly(m, m.classes[d]); }
  }

  /** The method a class itself has for a selector: the first one, looking at each. */
  function Own(keys: seq<nat>, methods: seq<nat>, sel: nat): Option<nat>
    requires |keys| == |methods|
  {
    if keys == [] then None
    else if keys[0] == sel then Some(methods[0])
    else Own(keys[1..], methods[1..], sel)
  }

  /** The method of the nearest class that has one. */
  ghost function Nearest(m: Image, rank: map<nat, nat>, c: Option<nat>, sel: nat): Option<nat>
    requires WellFormed(m, rank) && (c.Some? ==> c.value in m.classes)
    decreases if c.Some? then rank[c.value] + 1 else 0
  {
    if c.None? then None
    else
      var k := m.classes[c.value];
      var own := Own(k.keys, k.methods, sel);
      if own.Some? then own else Nearest(m, rank, k.parent, sel)
  }

  lemma {:induction false} OwnAt(keys: seq<nat>, methods: seq<nat>, sel: nat, i: nat)
    requires |keys| == |methods| && i < |keys| && keys[i] == sel && forall j | 0 <= j < i :: keys[j] != sel
    ensures Own(keys, methods, sel) == Some(methods[i])
    decreases i
  {
    if i > 0 {
      OwnAt(keys[1..], methods[1..], sel, i - 1);
    }
  }

  lemma {:induction false} OwnNone(keys: seq<nat>, methods: seq<nat>, sel: nat)
    requires |keys| == |methods| && sel !in keys
    ensures Own(keys, methods, sel) == None
    decreases keys
  {
    if keys != [] {
      OwnNone(keys[1..], methods[1..], sel);
    }
  }

  lemma {:induction false} Different(m: Image, c: Class, i: nat, j: nat)
    requires Orderly(m, c) && i < |c.keys| && j < |c.keys| && i != j
    ensures c.keys[i] != c.keys[j]
  {
    var a, b := m.symbols[c.keys[if i < j then i else j]], m.symbols[c.keys[if i < j then j else i]];
    Trichotomy(a, b);
  }

  /** The binary search of one dictionary. */
  method SearchClass(m: Image, c: Class, sel: nat, ghost rank: map<nat, nat>) returns (r: Option<nat>)
    requires WellFormed(m, rank) && Orderly(m, c) && sel in m.symbols
    ensures r == Own(c.keys, c.methods, sel)
  {
    var low: nat, high: nat := 0, |c.keys|;
    while low < high
      invariant low <= high <= |c.keys|
      invariant forall i | 0 <= i < low :: Less(m.symbols[c.keys[i]], m.symbols[sel])
      invariant forall i | high <= i < |c.keys| :: Less(m.symbols[sel], m.symbols[c.keys[i]])
    {
      var mid := (low + high) / 2;
      var val := c.keys[mid];
      if val == sel {
        forall j | 0 <= j < mid ensures c.keys[j] != sel { Different(m, c, j, mid); }
        OwnAt(c.keys, c.methods, sel, mid);
        return Some(c.methods[mid]);
      }
      var order := SymbolComp(m.symbols[sel], m.symbols[val]);
      assert m.symbols[val] != m.symbols[sel];
      forall i | mid < i < |c.keys| && order < 0 ensures Less(m.symbols[sel], m.symbols[c.keys[i]]) {
        Transitive(m.symbols[sel], m.symbols[val], m.symbols[c.keys[i]]);
      }
      forall i | 0 <= i < mid && order > 0 ensures Less(m.symbols[c.keys[i]], m.symbols[sel]) {
        Transitive(m.symbols[c.keys[i]], m.symbols[val], m.symbols[sel]);
      }
      if order < 0 { high := mid; } else { low := mid + 1; }
    }
    forall i | 0 <= i < |c.keys| ensures c.keys[i] != sel {
      Trichotomy(m.symbols[c.keys[i]], m.symbols[sel]);
    }
    OwnNone(c.keys, c.methods, sel);
    return None;
  }

  /** lookupMethod */
  method LookupMethod(m: Image, selector: Option<nat>, class_: Option<nat>, ghost rank: map<nat, nat>) returns (r: Option<nat>)
    requires WellFormed(m, rank) && (class_.Some? ==> class_.value in m.classes) && (selector.Some? ==> selector.value in m.symbols)
    ensures r == if selector.None? then None else Nearest(m, rank, class_, selector.value)
  {
    if selector.None? || class_.None? { return None; }
    var c := class_;
    while c.Some?
      invariant c.Some? ==> c.value in m.classes
      invariant Nearest(m, rank, c, selector.value) == Nearest(m, rank, class_, selector.value)
      decreases if c.Some? then rank[c.value] + 1 else 0
    {
      var k := m.classes[c.value];
      r := SearchClass(m, k, selector.value, rank);
      if r.Some? { return; }
      c := k.parent;
    }
    return None;
  }

  /** The superclass chain, nearest first. */
  ghost function Chain(m: Image, rank: map<nat, nat>, c: Option<nat>): seq<nat>
    requires WellFormed(m, rank) && (c.Some? ==> c.value in m.classes)
    ensures forall d | d in Chain(m, rank, c) :: d in m.classes
    decreases if c.Some? then rank[c.value] + 1 else 0
  {
    if c.None? then [] else [c.value] + Chain(m, rank, m.classes[c.value].parent)
  }

  lemma {:induction false} OwnIff(keys: seq<nat>, methods: seq<nat>, sel: nat)
    requires |keys| == |methods|
    ensures Own(keys, methods, sel).Some? <==> sel in keys
    decreases keys
  {
    if keys != [] {
      OwnIff(keys[1..], methods[1..], sel);
      assert keys == [keys[0]] + keys[1..];
    }
  }

  /** What is found is the method of the first class in the chain that has the selector; nothing is
      found exactly when none has. */
  lemma {:induction false} NearestMeans(m: Image, rank: map<nat, nat>, c: Option<nat>, sel: nat)
    requires WellFormed(m, rank) && (c.Some? ==> c.value in m.classes)
    ensures var chain := Chain(m, rank, c);
            match Nearest(m, rank, c, sel)
            case None => forall k | 0 <= k < |chain| :: sel !in m.classes[chain[k]].keys
            case Some(f) =>
              exists k :: 0 <= k < |chain| && (forall j | 0 <= j < k :: sel !in m.classes[chain[j]].keys)
                          && sel in m.classes[chain[k]].keys
                          && Own(m.classes[chain[k]].keys, m.classes[chain[k]].methods, sel) == Some(f)
    decreases if c.Some? then rank[c.value] + 1 else 0
  {
    if c.Some? {
      var k := m.classes[c.value];
      var chain := Chain(m, rank, c);
      OwnIff(k.keys, k.methods, sel);
      if Own(k.keys, k.methods, sel).Some? {
        assert chain[0] == c.value;
      } else {
        NearestMeans(m, rank, k.parent, sel);
        var rest := Chain(m, rank, k.parent);
        assert forall j | 0 < j < |chain| :: chain[j] == rest[j - 1];
        if Nearest(m, rank, k.parent, sel).Some? {
          var i :| 0 <= i < |rest| && (forall j | 0 <= j < i :: sel !in m.classes[rest[j]].keys) && sel in m.classes[rest[i]].keys
                   && Own(m.classes[rest[i]].keys, m.classes[rest[i]].methods, sel) == Nearest(m, rank, k.parent, sel);
          assert chain[i + 1] == rest[i];
        }
      }
    }
  }
}
