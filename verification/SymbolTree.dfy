/** Symbols: the bootstrap's list, the tree made from it, and interning in the image. */
module SymbolTree {
  import opened Names
  import opened Options

  /** A symbol object and its bytes. */
  datatype Symbol = Symbol(oop: nat, bytes: Name)

  /** Two symbols with the same bytes are the same object. */
  ghost predicate Interned(s: set<Symbol>) {
    forall a, b | a in s && b in s && a.bytes == b.bytes :: a == b
  }

  // ---- Search trees as values ------------------------------------------------------------------------

  datatype Tree = Empty | Branch(left: Tree, value: Symbol, right: Tree)

  function Elements(t: Tree): set<Symbol> {
    if t.Empty? then {} else Elements(t.left) + {t.value} + Elements(t.right)
  }

  /** A strict search tree. */
  ghost predicate Ordered(t: Tree) {
    t.Branch? ==>
      && Ordered(t.left) && Ordered(t.right)
      && (forall e | e in Elements(t.left) :: Less(e.bytes, t.value.bytes))
      && (forall e | e in Elements(t.right) :: Less(t.value.bytes, e.bytes))
  }

  ghost predicate Absent(t: Tree, key: Name) {
    forall e | e in Elements(t) :: e.bytes != key
  }

  /** To the right of what is less. */
  function Grown(t: Tree, e: Symbol): Tree {
    if t.Empty? then Branch(Empty, e, Empty)
    else if Less(t.value.bytes, e.bytes) then Branch(t.left, t.value, Grown(t.right, e))
    else Branch(Grown(t.left, e), t.value, t.right)
  }

  function Search(t: Tree, key: Name): Option<Symbol> {
    if t.Empty? then None
    else if t.value.bytes == key then Some(t.value)
    else Search(if Less(t.value.bytes, key) then t.right else t.left, key)
  }

  lemma {:induction false} GrownKeeps(t: Tree, e: Symbol)
    requires Ordered(t) && Absent(t, e.bytes)
    ensures Ordered(Grown(t, e)) && Elements(Grown(t, e)) == Elements(t) + {e}
    decreases t
  {
    if t.Branch? {
      assert t.value in Elements(t);
      Trichotomy(t.value.bytes, e.bytes);
      hide Less;
      if Less(t.value.bytes, e.bytes) { GrownKeeps(t.right, e); } else { GrownKeeps(t.left, e); }
    }
  }

  /** In a search tree the search finds the one symbol with the bytes, if there is one. */
  lemma {:induction false} SearchFinds(t: Tree, key: Name)
    requires Ordered(t)
    ensures match Search(t, key)
            case None => Absent(t, key)
            case Some(s) => s in Elements(t) && s.bytes == key
    decreases t
  {
    if t.Branch? {
      SearchFinds(t.left, key);
      SearchFinds(t.right, key);
      forall e | e in Elements(t) && e.bytes == key ensures Search(t, key).Some? {
        Trichotomy(e.bytes, t.value.bytes);
      }
    }
  }

  /** No two symbols of a search tree have the same bytes. */
  lemma {:induction false} TreeInterned(t: Tree)
    requires Ordered(t)
    ensures Interned(Elements(t))
    decreases t
  {
    if t.Branch? {
      TreeInterned(t.left);
      TreeInterned(t.right);
      forall a, b | a in Elements(t) && b in Elements(t) && a.bytes == b.bytes ensures a == b {
        Trichotomy(a.bytes, t.value.bytes);
      }
    }
  }

  // ---- Search trees as objects -----------------------------------------------------------------------

  class Node {
    var value: Symbol
    var left: Node?
    var right: Node?
    ghost var Repr: set<object>
    ghost var Model: Tree

    ghost predicate Valid()
      reads this, Repr
      decreases Repr
    {
      && this in Repr
      && (left != null ==> left in Repr && left.Repr <= Repr - {this} && left.Valid())
      && (right != null ==> right in Repr && right.Repr <= Repr - {this} && right.Valid())
      && (left != null && right != null ==> left.Repr !! right.Repr)
      && Model == Branch(if left == null then Empty else left.Model, value, if right == null then Empty else right.Model)
    }

    constructor (v: Symbol)
      ensures Valid() && fresh(Repr) && Model == Branch(Empty, v, Empty) && left == null && right == null && value == v
    {
      value := v;
      left, right := null, null;
      Repr := {this};
      Model := Branch(Empty, v, Empty);
    }

    /** Node add: */
    method Add(e: Symbol)
      requires Valid()
      modifies Repr
      ensures Valid() && fresh(Repr - old(Repr)) && Model == Grown(old(Model), e)
      decreases Repr
    {
      var less := LessThan(value.bytes, e.bytes);
      if less {
        if right == null { right := new Node(e); } else { right.Add(e); }
        Repr := Repr + right.Repr;
        Model := Branch(Model.left, value, right.Model);
      } else {
        if left == null { left := new Node(e); } else { left.Add(e); }
        Repr := Repr + left.Repr;
        Model := Branch(left.Model, value, Model.right);
      }
    }

    /** Node at:ifAbsent: */
    method AtIfAbsent(key: Name) returns (r: Option<Symbol>)
      requires Valid()
      ensures r == Search(Model, key)
      decreases Repr
    {
      var same := Equals(value.bytes, key);
      if same { return Some(value); }
      var less := LessThan(value.bytes, key);
      if less {
        if right != null { r := right.AtIfAbsent(key); } else { r := None; }
      } else {
        if left != null { r := left.AtIfAbsent(key); } else { r := None; }
      }
    }
  }

  ghost function ModelOf(n: Node?): Tree
    reads n
  {
    if n == null then Empty else n.Model
  }

  ghost function ReprOf(n: Node?): set<object>
    reads n
  {
    if n == null then {} else n.Repr
  }

  lemma {:induction false} AbsentSides(t: Tree, key: Name)
    requires t.Branch? && Absent(t, key)
    ensures Absent(t.left, key) && Absent(t.right, key) && t.value.bytes != key
  {
    assert t.value in Elements(t);
  }

  /** symbolTreeInsert: smaller to the left, anything else to the right; answers the root. */
  method SymbolTreeInsert(base: Node?, node: Node) returns (root: Node)
    requires node.Valid() && node.Model == Branch(Empty, node.value, Empty)
    requires base != null ==> base.Valid() && base.Repr !! node.Repr
    requires Absent(ModelOf(base), node.value.bytes)
    modifies ReprOf(base)
    ensures root.Valid() && root.Model == Grown(old(ModelOf(base)), node.value)
    ensures root.Repr == old(ReprOf(base)) + node.Repr && unchanged(node)
    decreases ReprOf(base), 1
  {
    if base == null { return node; }
    hide Less, Absent;
    AbsentSides(base.Model, node.value.bytes);
    var order := SymbolBareCmp(node.value.bytes, base.value.bytes);
    Trichotomy(base.value.bytes, node.value.bytes);
    if order < 0 { InsertLeft(base, node); } else { InsertRight(base, node); }
    return base;
  }

  method InsertLeft(base: Node, node: Node)
    requires node.Valid() && node.Model == Branch(Empty, node.value, Empty)
    requires base.Valid() && base.Repr !! node.Repr && Absent(base.Model.left, node.value.bytes)
    modifies base.Repr
    ensures base.Valid() && base.Model == Branch(Grown(old(base.Model.left), node.value), old(base.Model.value), old(base.Model.right))
    ensures base.Repr == old(base.Repr) + node.Repr && unchanged(node)
    decreases base.Repr, 0
  {
    hide Grown, Absent;
    base.left := SymbolTreeInsert(base.left, node);
    base.Repr := base.Repr + base.left.Repr;
    base.Model := Branch(base.left.Model, base.value, base.Model.right);
  }

  method InsertRight(base: Node, node: Node)
    requires node.Valid() && node.Model == Branch(Empty, node.value, Empty)
    requires base.Valid() && base.Repr !! node.Repr && Absent(base.Model.right, node.value.bytes)
    modifies base.Repr
    ensures base.Valid() && base.Model == Branch(old(base.Model.left), old(base.Model.value), Grown(old(base.Model.right), node.value))
    ensures base.Repr == old(base.Repr) + node.Repr && unchanged(node)
    decreases base.Repr, 0
  {
    hide Grown, Absent;
    base.right := SymbolTreeInsert(base.right, node);
    base.Repr := base.Repr + base.right.Repr;
    base.Model := Branch(base.Model.left, base.value, base.right.Model);
  }

  /** The bootstrap's symbols, in the order they were made. */
  class OldSymbols {
    var symbols: array<Symbol>
    var symbolTop: nat
    var nextOop: nat

    ghost predicate Valid()
      reads this, symbols
    {
      && symbolTop <= symbols.Length
      && (forall i | 0 <= i < symbolTop :: symbols[i].oop < nextOop)
      && (forall i, j | 0 <= i < symbolTop && 0 <= j < symbolTop && symbols[i].bytes == symbols[j].bytes :: i == j)
    }

    ghost function All(): set<Symbol>
      requires symbolTop <= symbols.Length
      reads this, symbols
    {
      set i | 0 <= i < symbolTop :: symbols[i]
    }

    constructor ()
      ensures Valid() && All() == {} && symbols.Length == 5000 && fresh(symbols)
    {
      symbols := new Symbol[5000](_ => Symbol(0, []));
      symbolTop := 0;
      nextOop := 0;
    }

    /** newSymbol: the symbol there is for a text, or a new one.  The code does not see that the table is full. */
    method NewSymbol(text: Name) returns (s: Option<Symbol>)
      requires Valid()
      modifies this, symbols
      ensures Valid() && symbols == old(symbols)
      ensures s.None? <==> old(symbolTop) == symbols.Length && !exists x :: x in old(All()) && x.bytes == text
      ensures s.None? ==> All() == old(All())
      ensures s.Some? ==> s.value.bytes == text && All() == old(All()) + {s.value}
      ensures (exists x :: x in old(All()) && x.bytes == text) ==> All() == old(All()) && symbolTop == old(symbolTop)
      ensures forall x, y | x in All() && y in All() && x.bytes == y.bytes :: x == y
    {
      for i := 0 to symbolTop
        invariant unchanged(this) && unchanged(symbols)
        invariant forall j | 0 <= j < i :: symbols[j].bytes != text
      {
        var order := SymbolBareCmp(text, symbols[i].bytes);
        if order == 0 {
          assert symbols[i] in All();
          return Some(symbols[i]);
        }
      }
      assert forall x | x in All() :: x.bytes != text;
      if symbolTop == symbols.Length { return None; }
      var made := Append(text);
      return Some(made);
    }

    /** oldSymbols[symbolTop++] = result */
    method Append(text: Name) returns (s: Symbol)
      requires Valid() && symbolTop < symbols.Length && forall j | 0 <= j < symbolTop :: symbols[j].bytes != text
      modifies this, symbols
      ensures Valid() && symbols == old(symbols)
      ensures s.bytes == text && All() == old(All()) + {s}
    {
      s := Symbol(nextOop, text);
      ghost var all := All();
      symbols[symbolTop] := s;
      symbolTop, nextOop := symbolTop + 1, nextOop + 1;
      assert forall x :: x in All() <==> x in all + {s} by {
        forall i | 0 <= i < symbolTop - 1 ensures symbols[i] == old(symbols[i]) && symbols[i] in all {}
        assert symbols[symbolTop - 1] in All();
        forall x | x in all ensures x in All() {
          var i :| 0 <= i < symbolTop - 1 && old(symbols[i]) == x;
          assert symbols[i] == x;
        }
      }
    }

    /** fixSymbols: a search tree of exactly the symbols of the list. */
    method FixSymbols() returns (root: Node?)
      requires Valid()
      ensures root != null ==> root.Valid() && fresh(root.Repr)
      ensures Ordered(ModelOf(root)) && Elements(ModelOf(root)) == All()
    {
      root := null;
      for i := 0 to symbolTop
        invariant root != null ==> root.Valid() && fresh(root.Repr)
        invariant Ordered(ModelOf(root)) && Elements(ModelOf(root)) == set j | 0 <= j < i :: symbols[j]
      {
        var node := new Node(symbols[i]);
        GrownKeeps(ModelOf(root), symbols[i]);
        root := SymbolTreeInsert(root, node);
      }
    }
  }

  /** The class Symbol of the image: its tree, and the next object to be made. */
  class SymbolTable {
    var root: Node?
    var nextOop: nat

    ghost function Repr(): set<object>
      reads this, root
    {
      {this} + ReprOf(root)
    }

    ghost function Symbols(): set<Symbol>
      reads this, root
    {
      Elements(ModelOf(root))
    }

    ghost predicate Valid()
      reads this, root, ReprOf(root)
    {
      && (root != null ==> this !in root.Repr && root.Valid())
      && Ordered(ModelOf(root))
      && (forall s | s in Symbols() :: s.oop < nextOop)
    }

    /** Symbol new: -- the symbol there is with these bytes, or a new object; what was a symbol before is
        one still, and no two symbols have the same bytes. */
    method New(fromString: Name) returns (s: Symbol)
      requires Valid()
      modifies Repr()
      ensures Valid() && fresh(Repr() - old(Repr())) && Interned(Symbols())
      ensures s.bytes == fromString && Symbols() == old(Symbols()) + {s}
      ensures s in old(Symbols()) <==> exists x :: x in old(Symbols()) && x.bytes == fromString
      ensures s !in old(Symbols()) ==> forall x | x in old(Symbols()) :: x.oop != s.oop
    {
      var found := None;
      SearchFinds(ModelOf(root), fromString);
      TreeInterned(ModelOf(root));
      if root != null { found := root.AtIfAbsent(fromString); }
      if found.Some? {
        s := found.value;
      } else {
        s := Symbol(nextOop, fromString);
        GrownKeeps(ModelOf(root), s);
        TreeInterned(Grown(ModelOf(root), s));
        nextOop := nextOop + 1;
        if root == null { root := new Node(s); } else { root.Add(s); }
      }
    }
  }
}
