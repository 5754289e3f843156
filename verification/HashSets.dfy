/** Set and IdentitySet: open addressing in an array that grows. */
module HashSets {
  import opened Probing

  /** What remove:ifAbsent: comes to. */
  datatype Removal = Removed | Left | NoSlot | WentOn

  class HashSet {
    var members: array<Slot>
    var growth: nat
    const rules: Rules

    ghost predicate Valid()
      reads this
    {
      members.Length > 0 && growth > 0 && Lawful(rules)
    }

    ghost function Slots(): Table
      reads this, members
    {
      members[..]
    }

    /** A set of the given size grows by that size. */
    constructor (size: nat, r: Rules)
      requires size > 0 && Lawful(r)
      ensures Valid() && fresh(members) && rules == r && InOrder(rules, Slots()) && Members(Slots()) == {}
    {
      members := new Slot[size](_ => Nil);
      growth := size;
      rules := r;
      new;
      EmptyInOrder(rules, members[..]);
    }

    /** location: */
    method Locate(e: Elem) returns (f: Found)
      requires Valid()
      ensures f == Location(rules, Slots(), e)
    {
      var start := Home(rules, members.Length, e);
      var pos: nat := start;
      ghost var k: nat := 0;
      while true
        invariant pos < members.Length && k == Off(members.Length, start, pos)
        invariant Search(rules, members[..], e, pos, k) == Location(rules, members[..], e)
        decreases members.Length - k
      {
        if Stops(rules, members[pos], e) { return At(pos); }
        pos := pos + 1;
        if pos >= members.Length { pos := 0; }
        k := k + 1;
        if pos == start { return Nowhere; }
      }
    }

    method AtIfAbsent(e: Elem) returns (found: bool)
      requires Valid() && InOrder(rules, Slots())
      ensures found <==> exists x :: x in Members(Slots()) && rules.same(x, e)
    {
      Finds(rules, members[..], e);
      var f := Locate(e);
      found := f.At? && members[f.pos].Holds?;
    }

    /** A slot that is empty, or holds the element, takes it; when there is none the set grows. */
    method Add(e: Elem)
      requires Valid() && (InOrder(rules, Slots()) || !Full(Slots()))
      modifies this`members, members
      ensures Valid() && (members == old(members) || fresh(members))
      ensures var f := Location(rules, old(Slots()), e);
              f.At? ==> members == old(members) && Slots() == old(Slots())[f.pos := Holds(e)]
      ensures old(InOrder(rules, Slots())) ==>
                InOrder(rules, Slots()) && Members(Slots()) == Without(rules, Members(old(Slots())), e) + {e}
      decreases if Full(Slots()) then 2 else 0
    {
      ghost var t := Slots();
      var f := Locate(e);
      LocationMeans(rules, t, e);
      if f == Nowhere {
        Grow();
        Add(e);
        return;
      }
      if InOrder(rules, t) { AddKeeps(rules, t, e, f.pos); }
      members[f.pos] := Holds(e);
      assert members[..] == t[f.pos := Holds(e)];
    }

    /** A bigger array, and the members added to it one by one. */
    method Grow()
      requires Valid() && InOrder(rules, Slots()) && Full(Slots())
      modifies this`members
      ensures Valid() && fresh(members) && members.Length == old(members.Length) + growth
      ensures InOrder(rules, Slots()) && !Full(Slots()) && Members(Slots()) == Members(old(Slots()))
      decreases 1
    {
      var was := members;
      ghost var t := was[..];
      members := new Slot[was.Length + growth](_ => Nil);
      ghost var now := members;
      EmptyInOrder(rules, members[..]);
      CountFull(members[..]);
      var i := 0;
      while i < was.Length
        invariant i <= was.Length && members == now && fresh(now) && was != now && was[..] == t
        invariant InOrder(rules, members[..]) && Members(members[..]) == Members(t[..i]) && Count(members[..]) <= i
      {
        ghost var s := members[..];
        var e := was[i].x;
        CountFull(s);
        LocationMeans(rules, s, e);
        ghost var f := Location(rules, s, e);
        assert f.At?;
        Add(e);
        CountPut(s, f.pos, Holds(e));
        assert t[..i + 1] == t[..i] + [t[i]];
        MembersLast(t[..i], t[i]);
        NotYet(rules, t, i);
        i := i + 1;
      }
      CountFull(members[..]);
      assert t[..i] == t;
    }

    /** The elements after an emptied slot are taken out and added again, up to the next empty slot. */
    method Rehash(start: nat, ghost l: nat)
      requires Valid() && Rehashing(rules, Slots(), start, start, l)
      modifies this`members, members
      ensures Valid() && members == old(members) && InOrder(rules, Slots()) && Members(Slots()) == Members(old(Slots()))
    {
      var pos: nat := start;
      ghost var n := members.Length;
      while true
        invariant members == old(members) && Rehashing(rules, members[..], start, pos, l)
        invariant Members(members[..]) == Members(old(members[..]))
        decreases n - Off(n, start, pos)
      {
        ghost var was := pos;
        pos := pos + 1;
        if pos >= members.Length { pos := 0; }
        if pos == start {
          RehashEnd(rules, members[..], start, was, l);
          return;
        }
        var elem := members[pos];
        if elem.Nil? {
          RehashEnd(rules, members[..], start, was, l);
          return;
        }
        AddAgain(pos, elem.x, start, was, l);
      }
    }

    /** An element is taken from its slot and added. */
    method AddAgain(pos: nat, elem: Elem, ghost start: nat, ghost was: nat, ghost l: nat)
      requires Valid() && Rehashing(rules, Slots(), start, was, l)
      requires pos == Next(members.Length, was) && pos != start && pos < members.Length && members[pos] == Holds(elem)
      modifies this`members, members
      ensures Valid() && members == old(members) && Rehashing(rules, Slots(), start, pos, l)
      ensures Members(Slots()) == Members(old(Slots())) && Off(members.Length, start, pos) == Off(members.Length, start, was) + 1
    {
      ghost var t := members[..];
      members[pos] := Nil;
      ghost var u := members[..];
      hide Rehashing, InOrder, Members, Lawful;
      LocationMeans(rules, u, elem);
      ghost var f := Location(rules, u, elem);
      assert u == t[pos := Nil] && Stops(rules, u[pos], elem);
      GoesBack(rules, t, start, was, l, pos, f.pos);
      RehashStep(rules, t, start, was, l, f.pos);
      MovedMembers(t, pos, f.pos);
      Add(elem);
    }

    /** remove:ifAbsent:.  For an absent element the block is run; if it does not leave the method, that goes on
        with the slot the search has ended in, and rehashes -- or has no slot to go on with, when the set is
        full.  The set never grows. */
    method Remove(e: Elem, leaves: bool) returns (removal: Removal)
      requires Valid() && InOrder(rules, Slots())
      modifies this`members, members
      ensures Valid() && members == old(members) && InOrder(rules, Slots())
      ensures removal == Removed <==> exists x :: x in Members(old(Slots())) && rules.same(x, e)
      ensures removal == Left <==> removal != Removed && leaves
      ensures removal == NoSlot <==> removal != Removed && !leaves && Full(old(Slots()))
      ensures removal == Left || removal == NoSlot ==> Slots() == old(Slots())
      ensures Members(Slots()) == Without(rules, Members(old(Slots())), e)
    {
      ghost var t := members[..];
      Finds(rules, t, e);
      LocationMeans(rules, t, e);
      var f := Locate(e);
      var found := f.At? && members[f.pos].Holds?;
      if !found && leaves { return Left; }
      if f == Nowhere { return NoSlot; }
      ghost var l :| Rooted(rules, t, l);
      if found { TakeOut(rules, t, e, f.pos); } else { NoneSame(rules, t, e); }
      RehashStart(rules, t, f.pos, l);
      members[f.pos] := Nil;
      assert members[..] == t[f.pos := Nil];
      Rehash(f.pos, l);
      removal := if found then Removed else WentOn;
    }

    method Size() returns (tally: nat)
      requires Valid() && InOrder(rules, Slots())
      ensures tally == |Members(Slots())|
    {
      tally := 0;
      for i := 0 to members.Length
        invariant tally == Count(members[..i])
      {
        assert members[..i + 1][..i] == members[..i];
        if members[i].Holds? { tally := tally + 1; }
      }
      assert members[..members.Length] == members[..];
      CountMembers(rules, members[..]);
    }
  }

  lemma {:induction false} NotYet(r: Rules, t: Table, i: nat)
    requires Lawful(r) && Unique(r, t) && i < |t| && t[i].Holds?
    ensures Without(r, Members(t[..i]), t[i].x) == Members(t[..i])
  {
    forall x | x in Members(t[..i]) ensures !r.same(x, t[i].x) {
      var j :| 0 <= j < i && t[..i][j] == Holds(x);
      assert t[j] == Holds(x);
    }
  }

  lemma {:induction false} NoneSame(r: Rules, t: Table, e: Elem)
    requires !exists x :: x in Members(t) && r.same(x, e)
    ensures Without(r, Members(t), e) == Members(t)
  {}
}
