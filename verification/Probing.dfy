/** Linear probing: what a table of slots has to satisfy for every member to be found, for any
    hash and any comparison that go together. */
module Probing {

  type Elem(!new, ==)

  datatype Slot = Nil | Holds(x: Elem)

  type Table = seq<Slot>

  /** The hash and the comparison of the elements (Set compares with =, IdentitySet with ==). */
  datatype Rules = Rules(hash: Elem -> nat, same: (Elem, Elem) -> bool)

  ghost predicate Lawful(r: Rules) {
    && (forall x :: r.same(x, x))
    && (forall x, y :: r.same(x, y) ==> r.same(y, x) && r.hash(x) == r.hash(y))
    && (forall x, y, z {:trigger r.same(x, y), r.same(y, z)} :: r.same(x, y) && r.same(y, z) ==> r.same(x, z))
  }

  /** Elements may be compared by any key, and hashed by it. */
  lemma {:induction false} ByKey(key: Elem -> int, hash: int -> nat)
    ensures Lawful(Rules(x => hash(key(x)), (x, y) => key(x) == key(y)))
  {}

  function Home(r: Rules, n: nat, e: Elem): (h: nat)
    requires n > 0
    ensures h < n
  {
    r.hash(e) % n
  }

  function Next(n: nat, p: nat): nat {
    if p + 1 >= n then 0 else p + 1
  }

  /** Slots from `from` on to `to`, going round. */
  function Off(n: nat, from: nat, to: nat): (d: nat)
    requires from < n && to < n
    ensures d < n
  {
    if from <= to then to - from else to - from + n
  }

  /** j is looked at before i when the search starts at h. */
  predicate Before(n: nat, h: nat, j: nat, i: nat) {
    h < n && j < n && i < n && Off(n, h, j) < Off(n, h, i)
  }

  // ---- The search ------------------------------------------------------------------------------------

  predicate Stops(r: Rules, s: Slot, e: Elem) {
    s.Nil? || r.same(s.x, e)
  }

  datatype Found = At(pos: nat) | Nowhere

  /** location: after k slots, from pos. */
  function Search(r: Rules, t: Table, e: Elem, pos: nat, k: nat): (f: Found)
    requires pos < |t|
    ensures f.At? ==> f.pos < |t| && Stops(r, t[f.pos], e)
    decreases |t| - k
  {
    if k >= |t| then Nowhere
    else if Stops(r, t[pos], e) then At(pos)
    else Search(r, t, e, Next(|t|, pos), k + 1)
  }

  function Location(r: Rules, t: Table, e: Elem): (f: Found)
    requires |t| > 0
    ensures f.At? ==> f.pos < |t| && Stops(r, t[f.pos], e)
  {
    Search(r, t, e, Home(r, |t|, e), 0)
  }

  /** p is the first slot in search order that is empty or holds e. */
  ghost predicate First(r: Rules, t: Table, e: Elem, p: nat) {
    && p < |t| && Stops(r, t[p], e)
    && forall j | 0 <= j < |t| :: Before(|t|, Home(r, |t|, e), j, p) ==> !Stops(r, t[j], e)
  }

  lemma {:induction false} SearchMeans(r: Rules, t: Table, e: Elem, pos: nat, k: nat)
    requires pos < |t| && k <= |t| && (k < |t| ==> Off(|t|, Home(r, |t|, e), pos) == k)
    requires forall j | 0 <= j < |t| :: Off(|t|, Home(r, |t|, e), j) < k ==> !Stops(r, t[j], e)
    ensures match Search(r, t, e, pos, k)
            case At(p) => First(r, t, e, p)
            case Nowhere => forall j | 0 <= j < |t| :: !Stops(r, t[j], e)
    decreases |t| - k
  {
    if k < |t| && !Stops(r, t[pos], e) {
      SearchMeans(r, t, e, Next(|t|, pos), k + 1);
    }
  }

  /** location: answers the first slot that is empty or holds the element, if there is one. */
  lemma {:induction false} LocationMeans(r: Rules, t: Table, e: Elem)
    requires |t| > 0
    ensures match Location(r, t, e)
            case At(p) => First(r, t, e, p)
            case Nowhere => forall j | 0 <= j < |t| :: !Stops(r, t[j], e)
  {
    SearchMeans(r, t, e, Home(r, |t|, e), 0);
  }

  // ---- Tables in order -------------------------------------------------------------------------------

  /** No empty slot is looked at before i in a search for the element at i. */
  ghost predicate Reached(r: Rules, t: Table, i: nat)
    requires i < |t|
  {
    t[i].Holds? ==> forall j | 0 <= j < |t| :: Before(|t|, Home(r, |t|, t[i].x), j, i) ==> t[j].Holds?
  }

  /** Nor is slot l. */
  ghost predicate Avoids(r: Rules, t: Table, i: nat, l: nat)
    requires i < |t|
  {
    t[i].Holds? && i != l ==> !Before(|t|, Home(r, |t|, t[i].x), l, i)
  }

  ghost predicate Unique(r: Rules, t: Table) {
    forall i, j | 0 <= i < |t| && 0 <= j < |t| && t[i].Holds? && t[j].Holds? && r.same(t[i].x, t[j].x) :: i == j
  }

  /** Every element is reached, and -- which matters only when the table is full -- there is a slot that
      no search for an element elsewhere goes through: the one that was filled last. */
  ghost predicate Rooted(r: Rules, t: Table, l: nat) {
    l < |t| && forall i | 0 <= i < |t| :: Reached(r, t, i) && Avoids(r, t, i, l)
  }

  ghost predicate InOrder(r: Rules, t: Table) {
    |t| > 0 && Unique(r, t) && exists l :: Rooted(r, t, l)
  }

  function Members(t: Table): set<Elem> {
    set s | s in t && s.Holds? :: s.x
  }

  /** The members that an element stands for. */
  function Without(r: Rules, m: set<Elem>, e: Elem): set<Elem> {
    set x | x in m && !r.same(x, e)
  }

  ghost predicate Full(t: Table) {
    forall j | 0 <= j < |t| :: t[j].Holds?
  }

  /** In a table in order an element is found exactly when it is a member. */
  lemma {:induction false} Finds(r: Rules, t: Table, e: Elem)
    requires Lawful(r) && InOrder(r, t)
    ensures var f := Location(r, t, e);
            (f.At? && t[f.pos].Holds?) <==> exists x :: x in Members(t) && r.same(x, e)
    ensures forall i | 0 <= i < |t| && t[i].Holds? && r.same(t[i].x, e) :: Location(r, t, e) == At(i)
  {
    LocationMeans(r, t, e);
    var f := Location(r, t, e);
    forall i | 0 <= i < |t| && t[i].Holds? && r.same(t[i].x, e)
      ensures f == At(i)
    {
      FindsAt(r, t, e, i);
    }
    if f.At? && t[f.pos].Holds? {
      assert t[f.pos] in t;
      assert t[f.pos].x in Members(t);
    }
    if x :| x in Members(t) && r.same(x, e) {
      var i :| 0 <= i < |t| && t[i] == Holds(x);
      assert f == At(i);
    }
  }

  lemma {:induction false} FindsAt(r: Rules, t: Table, e: Elem, i: nat)
    requires Lawful(r) && InOrder(r, t) && i < |t| && t[i].Holds? && r.same(t[i].x, e)
    ensures Location(r, t, e) == At(i)
  {
    LocationMeans(r, t, e);
    var f := Location(r, t, e);
    var l :| Rooted(r, t, l);
    assert Reached(r, t, i);
    assert Stops(r, t[i], e);
    assert Home(r, |t|, e) == Home(r, |t|, t[i].x);
  }

  /** Adding where location: says keeps the table in order. */
  lemma {:induction false} AddKeeps(r: Rules, t: Table, e: Elem, p: nat)
    requires Lawful(r) && InOrder(r, t) && Location(r, t, e) == At(p) && p < |t|
    ensures InOrder(r, t[p := Holds(e)])
    ensures Members(t[p := Holds(e)]) == Without(r, Members(t), e) + {e}
  {
    LocationMeans(r, t, e);
    Finds(r, t, e);
    AddUnique(r, t, e, p);
    var l :| Rooted(r, t, l);
    if t[p].Nil? {
      AddAtEmpty(r, t, e, p);
    } else {
      AddAtSame(r, t, e, p, l);
    }
    AddMembers(r, t, e, p);
  }

  lemma {:induction false} AddUnique(r: Rules, t: Table, e: Elem, p: nat)
    requires Lawful(r) && Unique(r, t) && p < |t|
    requires forall i | 0 <= i < |t| && t[i].Holds? && r.same(t[i].x, e) :: i == p
    ensures Unique(r, t[p := Holds(e)])
  {}

  /** The slot just filled is the one no other search goes through. */
  lemma {:induction false} AddAtEmpty(r: Rules, t: Table, e: Elem, p: nat)
    requires |t| > 0 && First(r, t, e, p) && t[p].Nil? && forall i | 0 <= i < |t| :: Reached(r, t, i)
    ensures Rooted(r, t[p := Holds(e)], p)
  {
    var u := t[p := Holds(e)];
    forall i | 0 <= i < |u|
      ensures Reached(r, u, i) && Avoids(r, u, i, p)
    {
      assert Reached(r, t, i);
    }
  }

  lemma {:induction false} AddAtSame(r: Rules, t: Table, e: Elem, p: nat, l: nat)
    requires Lawful(r) && Rooted(r, t, l) && p < |t| && t[p].Holds? && r.same(t[p].x, e)
    ensures Rooted(r, t[p := Holds(e)], l)
  {
    var u := t[p := Holds(e)];
    forall i | 0 <= i < |u|
      ensures Reached(r, u, i) && Avoids(r, u, i, l)
    {
      assert Reached(r, t, i) && Avoids(r, t, i, l);
    }
  }

  lemma {:induction false} AddMembers(r: Rules, t: Table, e: Elem, p: nat)
    requires Lawful(r) && p < |t| && Stops(r, t[p], e)
    requires forall i | 0 <= i < |t| && t[i].Holds? && r.same(t[i].x, e) :: i == p
    ensures Members(t[p := Holds(e)]) == Without(r, Members(t), e) + {e}
  {
    var u := t[p := Holds(e)];
    forall x ensures x in Members(u) <==> x in Without(r, Members(t), e) + {e} {
      if x in Members(u) {
        var i :| 0 <= i < |u| && u[i] == Holds(x);
        if i != p { assert t[i] in t; }
      }
      if x in Without(r, Members(t), e) {
        var i :| 0 <= i < |t| && t[i] == Holds(x);
        assert u[i] == t[i] && u[i] in u;
      }
      assert u[p] in u;
    }
  }

  // ---- Taking an element out ---------------------------------------------------------------------------

  /** While the slots after a have been gone through as far as pos: what has been gone through is
      reached; what has not is kept from it only by slots that have; and past l nothing is missing. */
  ghost predicate Rehashing(r: Rules, t: Table, a: nat, pos: nat, l: nat) {
    && a < |t| && pos < |t| && l < |t|
    && Unique(r, t)
    && (forall i | 0 <= i < |t| :: Avoids(r, t, i, l))
    && (forall i | 0 <= i < |t| :: Off(|t|, a, i) <= Off(|t|, a, pos) ==> Reached(r, t, i))
    && (forall i | 0 <= i < |t| :: Nearly(r, t, i, a, pos))
    && (forall j | 0 <= j < |t| :: Off(|t|, a, l) < Off(|t|, a, j) <= Off(|t|, a, pos) ==> t[j].Holds?)
  }

  /** Only slots from a to pos are missing on the way to i. */
  ghost predicate Nearly(r: Rules, t: Table, i: nat, a: nat, pos: nat)
    requires i < |t| && a < |t| && pos < |t|
  {
    t[i].Holds? ==> forall j | 0 <= j < |t| :: Before(|t|, Home(r, |t|, t[i].x), j, i) && t[j].Nil? ==> Off(|t|, a, j) <= Off(|t|, a, pos)
  }

  lemma {:induction false} RehashStart(r: Rules, t: Table, a: nat, l: nat)
    requires Unique(r, t) && Rooted(r, t, l) && a < |t|
    ensures Rehashing(r, t[a := Nil], a, a, l)
  {
    var u := t[a := Nil];
    forall i | 0 <= i < |u|
      ensures Avoids(r, u, i, l) && Nearly(r, u, i, a, a) && (Off(|u|, a, i) <= Off(|u|, a, a) ==> Reached(r, u, i))
    {
      assert Reached(r, t, i) && Avoids(r, t, i, l);
    }
  }

  /** The next slot is empty, or is the first again: the table is in order. */
  lemma {:induction false} RehashEnd(r: Rules, t: Table, a: nat, pos: nat, l: nat)
    requires Rehashing(r, t, a, pos, l)
    requires Next(|t|, pos) == a || t[Next(|t|, pos)].Nil?
    ensures InOrder(r, t)
  {
    forall i | 0 <= i < |t|
      ensures Reached(r, t, i)
    {
      assert Nearly(r, t, i, a, pos);
    }
    assert Rooted(r, t, l);
  }

  /** The element at q goes to a slot on the way to q, none further than q. */
  lemma {:induction false} GoesBack(r: Rules, t: Table, a: nat, pos: nat, l: nat, q: nat, p: nat)
    requires Rehashing(r, t, a, pos, l) && q == Next(|t|, pos) && q != a && t[q].Holds? && First(r, t[q := Nil], t[q].x, p)
    ensures p == q || (t[p].Nil? && Before(|t|, Home(r, |t|, t[q].x), p, q) && Off(|t|, a, p) <= Off(|t|, a, pos))
    ensures Off(|t|, a, q) == Off(|t|, a, pos) + 1
  {
    var e, u := t[q].x, t[q := Nil];
    assert Nearly(r, t, q, a, pos);
    assert Stops(r, u[q], e);
    if p != q {
      assert !Before(|t|, Home(r, |t|, e), q, p);
      assert u[p] == t[p];
    }
  }

  /** Past l every element stays where it is. */
  lemma {:induction false} StaysPut(r: Rules, t: Table, a: nat, pos: nat, l: nat, q: nat, p: nat)
    requires Rehashing(r, t, a, pos, l) && q == Next(|t|, pos) && q != a && t[q].Holds? && First(r, t[q := Nil], t[q].x, p)
    requires Off(|t|, a, l) <= Off(|t|, a, pos)
    ensures p == q && Reached(r, t, q)
  {
    GoesBack(r, t, a, pos, l, q, p);
    assert Nearly(r, t, q, a, pos) && Avoids(r, t, q, l);
    var n, h := |t|, Home(r, |t|, t[q].x);
    forall j | 0 <= j < n && Before(n, h, j, q)
      ensures t[j].Holds?
    {
      assert Off(n, a, l) < Off(n, a, j);
    }
  }

  lemma {:induction false} StepPast(r: Rules, t: Table, a: nat, pos: nat, l: nat, q: nat)
    requires Rehashing(r, t, a, pos, l) && q == Next(|t|, pos) && q != a && t[q].Holds? && Reached(r, t, q)
    ensures Rehashing(r, t, a, q, l)
  {
    assert Off(|t|, a, q) == Off(|t|, a, pos) + 1;
    forall i | 0 <= i < |t| ensures Nearly(r, t, i, a, q) && (Off(|t|, a, i) <= Off(|t|, a, q) ==> Reached(r, t, i)) {
      assert Nearly(r, t, i, a, pos);
    }
  }

  /** Up to l: the elements gone through do not need q, and e is reached where it now is. */
  lemma {:induction false} StepUpTo(r: Rules, t: Table, a: nat, pos: nat, l: nat, q: nat, p: nat)
    requires Lawful(r) && Rehashing(r, t, a, pos, l) && q == Next(|t|, pos) && q != a && t[q].Holds? && First(r, t[q := Nil], t[q].x, p)
    requires Off(|t|, a, l) > Off(|t|, a, pos)
    ensures Rehashing(r, t[q := Nil][p := Holds(t[q].x)], a, q, l)
  {
    GoesBack(r, t, a, pos, l, q, p);
    var n, e, u := |t|, t[q].x, t[q := Nil];
    var v := u[p := Holds(e)];
    MovedUnique(r, t, q, p);
    forall i | 0 <= i < n
      ensures Avoids(r, v, i, l) && Nearly(r, v, i, a, q) && (Off(n, a, i) <= Off(n, a, q) ==> Reached(r, v, i))
    {
      if i == p {
        assert Avoids(r, t, q, l);
      } else if i != q {
        StepOther(r, t, a, pos, l, q, p, i);
      }
    }
  }

  lemma {:induction false} MovedUnique(r: Rules, t: Table, q: nat, p: nat)
    requires Unique(r, t) && q < |t| && p < |t| && t[q].Holds? && (p == q || t[p].Nil?)
    ensures Unique(r, t[q := Nil][p := Holds(t[q].x)])
  {}

  lemma {:induction false} StepOther(r: Rules, t: Table, a: nat, pos: nat, l: nat, q: nat, p: nat, i: nat)
    requires Rehashing(r, t, a, pos, l) && q == Next(|t|, pos) && q != a && t[q].Holds? && p < |t| && i < |t| && i != p && i != q
    requires p == q || t[p].Nil?
    requires Off(|t|, a, l) > Off(|t|, a, pos) && Off(|t|, a, q) == Off(|t|, a, pos) + 1
    ensures var v := t[q := Nil][p := Holds(t[q].x)];
            Avoids(r, v, i, l) && Nearly(r, v, i, a, q) && (Off(|t|, a, i) <= Off(|t|, a, q) ==> Reached(r, v, i))
  {
    var v := t[q := Nil][p := Holds(t[q].x)];
    assert v[i] == t[i] && Avoids(r, t, i, l) && Nearly(r, t, i, a, pos);
    if t[i].Holds? && Off(|t|, a, i) <= Off(|t|, a, q) {
      assert Reached(r, t, i);
      assert !Before(|t|, Home(r, |t|, t[i].x), q, i);
    }
  }

  /** One slot is emptied and its element added again. */
  lemma {:induction false} RehashStep(r: Rules, t: Table, a: nat, pos: nat, l: nat, p: nat)
    requires Lawful(r) && Rehashing(r, t, a, pos, l)
    requires var q := Next(|t|, pos); q != a && t[q].Holds? && First(r, t[q := Nil], t[q].x, p)
    ensures var q := Next(|t|, pos); Rehashing(r, t[q := Nil][p := Holds(t[q].x)], a, q, l)
  {
    var q := Next(|t|, pos);
    if Off(|t|, a, l) <= Off(|t|, a, pos) {
      StaysPut(r, t, a, pos, l, q, p);
      assert t[q := Nil][p := Holds(t[q].x)] == t;
      StepPast(r, t, a, pos, l, q);
    } else {
      StepUpTo(r, t, a, pos, l, q, p);
    }
  }

  // ---- Counting ------------------------------------------------------------------------------------------

  function Count(t: Table): (c: nat)
    ensures c <= |t|
  {
    if t == [] then 0 else Count(t[..|t| - 1]) + if t[|t| - 1].Holds? then 1 else 0
  }

  lemma {:induction false} CountPut(t: Table, p: nat, s: Slot)
    requires p < |t|
    ensures Count(t[p := s]) == Count(t) - (if t[p].Holds? then 1 else 0) + (if s.Holds? then 1 else 0)
  {
    var k := |t| - 1;
    if p == k {
      assert t[p := s][..k] == t[..k];
    } else {
      assert t[p := s][..k] == t[..k][p := s];
      CountPut(t[..k], p, s);
    }
  }

  lemma {:induction false} CountFull(t: Table)
    ensures Count(t) == |t| <==> Full(t)
  {
    if t != [] {
      CountFull(t[..|t| - 1]);
      assert Full(t) <==> Full(t[..|t| - 1]) && t[|t| - 1].Holds?;
    }
  }

  /** Without repetition the slots in use are as many as the members. */
  lemma {:induction false} CountMembers(r: Rules, t: Table)
    requires Lawful(r) && Unique(r, t)
    ensures Count(t) == |Members(t)|
  {
    if t != [] {
      var u, last := t[..|t| - 1], t[|t| - 1];
      UniqueButLast(r, t);
      CountMembers(r, u);
      MembersLast(u, last);
      hide Members, Unique, Lawful;
      assert t == u + [last];
    }
  }

  lemma {:induction false} UniqueButLast(r: Rules, t: Table)
    requires Lawful(r) && Unique(r, t) && t != []
    ensures Unique(r, t[..|t| - 1]) && (t[|t| - 1].Holds? ==> t[|t| - 1].x !in Members(t[..|t| - 1]))
  {
    var u, last := t[..|t| - 1], t[|t| - 1];
    assert forall i | 0 <= i < |u| :: u[i] == t[i];
    forall i | 0 <= i < |u| && u[i].Holds? && last.Holds? ensures u[i].x != last.x {
      assert t[i] == u[i] && !r.same(t[i].x, last.x);
    }
  }

  lemma {:induction false} MembersLast(u: Table, s: Slot)
    ensures Members(u + [s]) == Members(u) + if s.Holds? then {s.x} else {}
  {
    forall x ensures x in Members(u + [s]) <==> x in Members(u) + if s.Holds? then {s.x} else {} {
      if x in Members(u) {
        var i :| 0 <= i < |u| && u[i] == Holds(x);
        assert (u + [s])[i] == u[i];
      }
      assert (u + [s])[|u|] == s;
    }
  }

  /** An empty table. */
  lemma {:induction false} EmptyInOrder(r: Rules, t: Table)
    requires |t| > 0 && forall i | 0 <= i < |t| :: t[i].Nil?
    ensures InOrder(r, t) && Members(t) == {} && Count(t) == 0
  {
    assert Rooted(r, t, 0);
    EmptyCount(t);
  }

  lemma {:induction false} EmptyCount(t: Table)
    requires forall i | 0 <= i < |t| :: t[i].Nil?
    ensures Count(t) == 0
  {
    if t != [] {
      EmptyCount(t[..|t| - 1]);
    }
  }

  lemma {:induction false} OnlyOne(r: Rules, t: Table, e: Elem, p: nat)
    requires Lawful(r) && Unique(r, t) && p < |t| && t[p].Holds? && r.same(t[p].x, e)
    ensures forall i | 0 <= i < |t| && i != p && t[i].Holds? :: !r.same(t[i].x, e)
  {
    forall i | 0 <= i < |t| && i != p && t[i].Holds? ensures !r.same(t[i].x, e) {
      SameBoth(r, t[i].x, e, t[p].x);
    }
  }

  lemma {:induction false} SameBoth(r: Rules, x: Elem, e: Elem, y: Elem)
    requires Lawful(r) && r.same(y, e)
    ensures r.same(x, e) ==> r.same(x, y)
  {}

  /** Taking the element at p out of the slots takes it out of the members. */
  lemma {:induction false} TakeOut(r: Rules, t: Table, e: Elem, p: nat)
    requires Lawful(r) && Unique(r, t) && p < |t| && t[p].Holds? && r.same(t[p].x, e)
    ensures Members(t[p := Nil]) == Without(r, Members(t), e)
  {
    var u := t[p := Nil];
    OnlyOne(r, t, e, p);
    forall x ensures x in Members(u) <==> x in Without(r, Members(t), e) {
      if x in Members(u) {
        var i :| 0 <= i < |u| && u[i] == Holds(x);
        assert i != p && t[i] == u[i] && t[i] in t;
      }
      if x in Without(r, Members(t), e) {
        var i :| 0 <= i < |t| && t[i] == Holds(x);
        assert u[i] in u;
      }
    }
  }

  /** Emptying a slot and putting its element elsewhere keeps the members. */
  lemma {:induction false} MovedMembers(t: Table, q: nat, p: nat)
    requires q < |t| && p < |t| && t[q].Holds? && (p == q || t[p].Nil?)
    ensures Members(t[q := Nil][p := Holds(t[q].x)]) == Members(t)
  {
    var v := t[q := Nil][p := Holds(t[q].x)];
    forall x ensures x in Members(v) <==> x in Members(t) {
      if x in Members(v) {
        var i :| 0 <= i < |v| && v[i] == Holds(x);
        assert t[q] in t && (i == p || t[i] in t);
      }
      if x in Members(t) {
        var i :| 0 <= i < |t| && t[i] == Holds(x);
        assert v[p] in v && (i == q || v[i] in v);
      }
    }
  }
}
