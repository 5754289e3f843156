/** memory.c: two semi-spaces, the bump allocator and the copying collector. */
module ObjectMemory {
  import opened Memory
  import opened Collector
  import opened Space
  import opened Collection
  import opened Exchange

  datatype Allocation = Allocated(addr: nat) | OutOfMemory

  const ROOT_STACK_LIMIT := 2000
  const STATIC_ROOT_LIMIT := 200

  class ObjectMemory {
    const mem: array<Word>
    const spaceOne: nat
    const spaceTwo: nat
    const spaceWords: nat
    const staticPointer: nat
    const staticTop: nat

    var inSpaceOne: bool
    var memoryBase: nat
    var memoryPointer: int
    var memoryTop: nat
    var oldBase: nat
    var oldTop: nat

    const rootStack: array<Word>
    var rootTop: nat
    const staticRoots: array<nat>
    var staticRootTop: nat

    /** The two spaces lie apart in memory, with at least a word between them.  Nothing is ever
        allocated in static memory. */
    ghost predicate Fixed() {
      && 0 < spaceOne && spaceOne + spaceWords < mem.Length
      && 0 < spaceTwo && spaceTwo + spaceWords < mem.Length
      && (spaceOne + spaceWords < spaceTwo || spaceTwo + spaceWords < spaceOne)
      && staticPointer == staticTop <= mem.Length
      && mem != rootStack && rootStack.Length == ROOT_STACK_LIMIT && staticRoots.Length == STATIC_ROOT_LIMIT
    }

    ghost predicate IsStatic(c: nat) {
      && c < mem.Length
      && !(spaceOne <= c <= spaceOne + spaceWords) && !(spaceTwo <= c <= spaceTwo + spaceWords)
    }

    /** Objects tile [live, memoryTop); static roots are distinct words outside both spaces. */
    ghost predicate ValidFrom(live: int)
      reads this`inSpaceOne, this`memoryBase, this`memoryTop, this`rootTop, this`staticRootTop, mem, staticRoots
    {
      && Fixed()
      && memoryBase == (if inSpaceOne then spaceOne else spaceTwo) && memoryTop == memoryBase + spaceWords
      && memoryBase <= live && Tiled(mem[..], live, memoryTop)
      && rootTop <= ROOT_STACK_LIMIT && StaticsOk()
    }

    ghost predicate StaticsOk()
      reads this`staticRootTop, staticRoots
    {
      && staticRootTop <= STATIC_ROOT_LIMIT == staticRoots.Length
      && (forall i | 0 <= i < staticRootTop :: IsStatic(staticRoots[i]))
      && (forall i, j | 0 <= i < j < staticRootTop :: staticRoots[i] != staticRoots[j])
    }

    ghost predicate Valid()
      reads this, mem, staticRoots
    {
      ValidFrom(memoryPointer)
    }

    /** The words the first n static roots name. */
    ghost function Cells(m: seq<Word>, n: nat): seq<Word>
      reads staticRoots
      requires n <= staticRoots.Length
    {
      seq(n, i requires 0 <= i < n reads staticRoots => WordAt(m, staticRoots[i]))
    }

    /** Every root: the root stack, then the words the static roots name. */
    ghost function Roots(): seq<Word>
      reads this`rootTop, this`staticRootTop, mem, rootStack, staticRoots
      requires rootTop <= rootStack.Length && staticRootTop <= staticRoots.Length
    {
      rootStack[..rootTop] + Cells(mem[..], staticRootTop)
    }

    /** The heap as a collection would find it. */
    ghost function Heap(live: nat): Start
      reads this`inSpaceOne, this`memoryBase, this`memoryTop, this`rootTop, this`staticRootTop, mem, rootStack, staticRoots
      requires ValidFrom(live)
    {
      var other := if inSpaceOne then spaceTwo else spaceOne;
      Start(mem[..], Starts(mem[..], live, memoryTop), Roots(), memoryBase, memoryTop, other, other + spaceWords)
    }

    /** The registers are those of this heap, whose objects start at p. */
    ghost predicate Matches(s: Start, p: int)
      reads this`inSpaceOne, this`memoryBase, this`memoryTop, this`rootTop, this`staticRootTop, staticRoots
    {
      && Fixed() && StaticsOk() && rootTop <= ROOT_STACK_LIMIT
      && memoryBase == (if inSpaceOne then spaceOne else spaceTwo) && memoryTop == memoryBase + spaceWords && memoryBase <= p
      && s.oldBase == memoryBase && s.oldTop == memoryTop
      && s.newBase == (if inSpaceOne then spaceTwo else spaceOne) && s.newTop == s.newBase + spaceWords
    }

    lemma HeapMatches(p: nat)
      requires ValidFrom(p)
      ensures Matches(Heap(p), p) && Heap(p).m == mem[..] && Heap(p).objs == Starts(mem[..], p, memoryTop) && Heap(p).roots == Roots()
    {}

    lemma HeapIs(s: Start, p: nat)
      requires Matches(s, p) && s.m == mem[..] && Tiled(s.m, p, memoryTop) && s.objs == Starts(s.m, p, memoryTop) && s.roots == Roots()
      ensures ValidFrom(p) && Heap(p) == s
    {}

    /** Inside the space in use there are no static roots. */
    lemma CellsKept(s: Start, m: seq<Word>, p: nat)
      requires Matches(s, p) && |s.m| == |m| == mem.Length && forall a {:trigger m[a]} | 0 <= a < |m| && !(p <= a < memoryTop) :: m[a] == s.m[a]
      ensures Cells(m, staticRootTop) == Cells(s.m, staticRootTop)
    {}

    /** One step of memory for the collector's loops: registers and arrays agree with the ghost state. */
    ghost predicate Agrees(s: Start, t: State)
      reads this, mem
    {
      && s.oldBase == oldBase && s.oldTop == oldTop && s.newBase == memoryBase && s.newTop == memoryTop
      && t.m == mem[..] && t.mp == memoryPointer
    }

    method FlipSpaces()
      requires Fixed()
      modifies this`inSpaceOne, this`memoryBase, this`memoryPointer, this`memoryTop, this`oldBase, this`oldTop
      ensures inSpaceOne != old(inSpaceOne)
      ensures memoryBase == (if inSpaceOne then spaceOne else spaceTwo)
      ensures oldBase == (if inSpaceOne then spaceTwo else spaceOne)
      ensures memoryPointer == memoryTop == memoryBase + spaceWords && oldTop == oldBase + spaceWords
    {
      if inSpaceOne {
        memoryBase := spaceTwo;
        inSpaceOne := false;
        oldBase := spaceOne;
      } else {
        memoryBase := spaceOne;
        inSpaceOne := true;
        oldBase := spaceTwo;
      }
      memoryTop := memoryBase + spaceWords;
      memoryPointer := memoryTop;
      oldTop := oldBase + spaceWords;
    }

    /** Every word of ws needs no more work. */
    ghost static predicate AllSettled(s: Start, fwd: Map, ws: seq<Word>) {
      forall i | 0 <= i < |ws| :: Settled(s, fwd, ws[i])
    }

    ghost static predicate Translated(fwd: Map, ws: seq<Word>, ws': seq<Word>) {
      |ws| == |ws'| && forall i | 0 <= i < |ws| :: ws'[i] == Tr(fwd, ws[i])
    }

    static lemma TranslatedLater(s: Start, t: State, t': State, ws: seq<Word>, ws': seq<Word>)
      requires AllSettled(s, t.fwd, ws) && Translated(t.fwd, ws, ws') && Later(t, t') && t'.fwd.Keys <= s.objs
      ensures AllSettled(s, t'.fwd, ws) && Translated(t'.fwd, ws, ws')
    {
      forall i | 0 <= i < |ws|
        ensures Settled(s, t'.fwd, ws[i]) && ws'[i] == Tr(t'.fwd, ws[i])
      {
        TrExtends(s, t.fwd, t'.fwd, ws[i]);
      }
    }

    method MoveRootStack(ghost s: Start, ghost t0: State) returns (ghost t: State)
      requires s.Valid() && Inv(s, t0) && t0.stack == [] && Agrees(s, t0)
      requires rootTop <= rootStack.Length && mem != rootStack
      requires forall w | w in rootStack[..rootTop] :: w in s.roots
      modifies mem, rootStack, this`memoryPointer
      ensures Inv(s, t) && t.stack == [] && Agrees(s, t) && Later(t0, t)
      ensures AllSettled(s, t.fwd, old(rootStack[..rootTop]))
      ensures Translated(t.fwd, old(rootStack[..rootTop]), rootStack[..rootTop])
      ensures rootStack[rootTop..] == old(rootStack[rootTop..])
    {
      hide Inv, Later, Settled, Tr;
      LaterTrans(t0, t0, t0);
      t := t0;
      ghost var all, was, done := rootStack[..], [], [];
      var i := 0;
      while i < rootTop
        invariant 0 <= i <= rootTop && |was| == |done| == i
        invariant Inv(s, t) && t.stack == [] && Agrees(s, t) && Later(t0, t)
        invariant AllSettled(s, t.fwd, was) && Translated(t.fwd, was, done)
        invariant forall j | 0 <= j < i :: was[j] == all[j] && rootStack[j] == done[j]
        invariant forall j | i <= j < rootStack.Length :: rootStack[j] == all[j]
      {
        ghost var t1 := t;
        var w;
        assert rootStack[i] == all[i] == old(rootStack[..rootTop])[i];
        w, t := GcMove(rootStack[i], s, t);
        CopiedAreObjects(s, t);
        TranslatedLater(s, t1, t, was, done);
        LaterTrans(t0, t1, t);
        rootStack[i] := w;
        was, done := was + [all[i]], done + [w];
        i := i + 1;
      }
      assert was == all[..rootTop] && done == rootStack[..rootTop];
    }

    lemma NextCell(m: seq<Word>, i: nat)
      requires i < staticRoots.Length
      ensures Cells(m, i + 1) == Cells(m, i) + [WordAt(m, staticRoots[i])]
    {}

    method MoveStaticRoots(ghost s: Start, ghost t0: State) returns (ghost t: State)
      requires s.Valid() && Inv(s, t0) && t0.stack == [] && Agrees(s, t0)
      requires staticRootTop <= staticRoots.Length
      requires forall i | 0 <= i < staticRootTop :: OutsideBoth(s, staticRoots[i])
      requires forall i, j | 0 <= i < j < staticRootTop :: staticRoots[i] != staticRoots[j]
      requires forall w | w in Cells(mem[..], staticRootTop) :: w in s.roots
      modifies mem, this`memoryPointer
      ensures Inv(s, t) && t.stack == [] && Agrees(s, t) && Extends(t0.fwd, t.fwd)
      ensures AllSettled(s, t.fwd, Cells(old(mem[..]), staticRootTop))
      ensures Translated(t.fwd, Cells(old(mem[..]), staticRootTop), Cells(mem[..], staticRootTop))
      ensures forall c: nat | OutsideBoth(s, c) && c !in staticRoots[..staticRootTop] :: mem[c] == old(mem[c])
    {
      hide Inv, Settled, Tr, Start.Valid, Extends;
      SameLength(s, t0);
      t := t0;
      ghost var m0 := mem[..];
      ExtendsItself(t.fwd);
      var i := 0;
      while i < staticRootTop
        invariant 0 <= i <= staticRootTop
        invariant Inv(s, t) && t.stack == [] && Agrees(s, t) && Extends(t0.fwd, t.fwd)
        invariant AllSettled(s, t.fwd, Cells(m0, i)) && Translated(t.fwd, Cells(m0, i), Cells(mem[..], i))
        invariant forall c: nat | OutsideBoth(s, c) && c !in staticRoots[..i] :: mem[c] == m0[c]
      {
        ghost var t1, before := t, Cells(mem[..], i);
        var c := staticRoots[i];
        assert mem[c] == m0[c] && Cells(m0, staticRootTop)[i] == m0[c];
        t := MoveCell(c, s, t);
        ExtendsMore(s, t0.fwd, t1.fwd, t.fwd, Cells(m0, i), before);
        NextCell(m0, i);
        NextCell(mem[..], i);
        assert Cells(mem[..], i) == before;
        i := i + 1;
      }
    }

    /** *staticRoots[i] = gc_move(*staticRoots[i]) */
    method MoveCell(c: nat, ghost s: Start, ghost t0: State) returns (ghost t: State)
      requires s.Valid() && Inv(s, t0) && t0.stack == [] && Agrees(s, t0) && |s.m| == mem.Length
      requires OutsideBoth(s, c) && mem[c] in s.roots
      modifies mem, this`memoryPointer
      ensures Inv(s, t) && t.stack == [] && Agrees(s, t) && Extends(t0.fwd, t.fwd) && t.fwd.Keys <= s.objs
      ensures Settled(s, t.fwd, old(mem[c])) && mem[c] == Tr(t.fwd, old(mem[c]))
      ensures forall d: nat | OutsideBoth(s, d) && d != c :: mem[d] == old(mem[d])
    {
      hide Inv, Settled, Tr, Start.Valid;
      var w;
      w, t := GcMove(mem[c], s, t0);
      CopiedAreObjects(s, t);
      StaticKept(s, t0, t);
      mem[c] := w;
      CellWritten(s, t, c, w);
      t := CellState(t, c, w);
    }

    static lemma SameLength(s: Start, t: State)
      requires Inv(s, t)
      ensures |t.m| == |s.m|
    {}

    static lemma ExtendsItself(fwd: Map)
      ensures Extends(fwd, fwd)
    {}

    static lemma ExtendsMore(s: Start, fwd0: Map, fwd: Map, fwd': Map, ws: seq<Word>, ws': seq<Word>)
      requires Extends(fwd0, fwd) && Extends(fwd, fwd') && fwd'.Keys <= s.objs && AllSettled(s, fwd, ws) && Translated(fwd, ws, ws')
      ensures Extends(fwd0, fwd') && AllSettled(s, fwd', ws) && Translated(fwd', ws, ws')
    {
      forall i | 0 <= i < |ws|
        ensures Settled(s, fwd', ws[i]) && ws'[i] == Tr(fwd', ws[i])
      {
        TrExtends(s, fwd, fwd', ws[i]);
      }
    }

    /** The roots and the static words stand in the right relation to a finished collection. */
    ghost predicate Collected(s: Start, t: State)
      requires rootTop <= rootStack.Length && staticRootTop <= staticRoots.Length
      reads this`rootTop, this`staticRootTop, rootStack, mem, staticRoots
    {
      && Done(s, t) && |s.m| == mem.Length
      && Translated(t.fwd, s.roots, Roots())
      && forall c: nat | IsStatic(c) && c !in staticRoots[..staticRootTop] :: mem[c] == s.m[c]
    }

    /** A collection: everything the roots reach is copied to the other space, and the roots follow.
        `s` is the heap before, `t` the collector's final state. */
    method DoGc(ghost live: nat) returns (ghost s: Start, ghost t: State)
      requires ValidFrom(live) && Heap(live).Valid()
      modifies this`inSpaceOne, this`memoryBase, this`memoryPointer, this`memoryTop, this`oldBase, this`oldTop
      modifies mem, rootStack
      ensures s == old(Heap(live)) && inSpaceOne != old(inSpaceOne)
      ensures Fixed() && StaticsOk() && rootTop <= ROOT_STACK_LIMIT && Collected(s, t) && t.m == mem[..] && t.mp == memoryPointer
      ensures Valid() && Heap(memoryPointer).Valid()
      ensures memoryTop - memoryPointer == Words(s.m, t.order) <= old(memoryTop) - live
    {
      s := Heap(live);
      StartsAreObjects(mem[..], live, memoryTop);
      assert live <= memoryTop && StaticsOk() && Fixed();
      hide ValidFrom, Heap, Objects, Start.Valid, Inv, Starts, Tiled, Fixed, StaticsOk, Collected, Done;
      t := Collect(s);
      AfterDone(s, t, live, Roots());
      HeapAfter(s, t);
    }

    method Collect(ghost s: Start) returns (ghost t: State)
      requires Fixed() && StaticsOk() && rootTop <= ROOT_STACK_LIMIT
      requires s.Valid() && s.m == mem[..] && s.roots == Roots()
      requires memoryBase == (if inSpaceOne then spaceOne else spaceTwo) && memoryTop == memoryBase + spaceWords
      requires s.oldBase == memoryBase && s.oldTop == memoryTop
      requires s.newBase == (if inSpaceOne then spaceTwo else spaceOne) && s.newTop == s.newBase + spaceWords
      modifies this`inSpaceOne, this`memoryBase, this`memoryPointer, this`memoryTop, this`oldBase, this`oldTop
      modifies mem, rootStack
      ensures Inv(s, t) && t.stack == [] && Agrees(s, t) && StaticsOk()
      ensures AllSettled(s, t.fwd, s.roots) && Translated(t.fwd, s.roots, Roots())
      ensures Done(s, t) && Collected(s, t)
      ensures inSpaceOne != old(inSpaceOne)
      ensures memoryBase == (if inSpaceOne then spaceOne else spaceTwo) && memoryTop == memoryBase + spaceWords
      ensures oldBase == (if inSpaceOne then spaceTwo else spaceOne) && oldTop == oldBase + spaceWords
    {
      FlipSpaces();
      t := State(mem[..], map[], map[], [], [], memoryPointer, mem[..]);
      Begin(s, t);
      hide Inv, Translated, AllSettled, Start.Valid, Cells, Roots, Shape;
      t := MoveRoots(s, t);
      RootsSettled(s, t);
    }

    static lemma RootsSettled(s: Start, t: State)
      requires Inv(s, t) && t.stack == [] && AllSettled(s, t.fwd, s.roots)
      ensures Done(s, t)
    {
      hide Inv;
    }

    lemma HeapAfter(s: Start, t: State)
      requires Fixed() && StaticsOk() && rootTop <= ROOT_STACK_LIMIT && Agrees(s, t)
      requires memoryBase == (if inSpaceOne then spaceOne else spaceTwo) && memoryTop == memoryBase + spaceWords
      requires oldBase == (if inSpaceOne then spaceTwo else spaceOne) && oldTop == oldBase + spaceWords
      requires s.newBase <= t.mp && Tiled(t.m, t.mp, s.newTop) && Starts(t.m, t.mp, s.newTop) == t.fwd.Values
      requires After(s, t, Roots()).Valid()
      ensures Valid() && Heap(memoryPointer).Valid()
    {
      assert Heap(memoryPointer) == After(s, t, Roots());
    }

    /** Both kinds of roots, the root stack first. */
    method MoveRoots(ghost s: Start, ghost t0: State) returns (ghost t: State)
      requires s.Valid() && Inv(s, t0) && t0.stack == [] && Agrees(s, t0)
      requires rootTop <= rootStack.Length && staticRootTop <= staticRoots.Length && mem != rootStack
      requires forall i | 0 <= i < staticRootTop :: OutsideBoth(s, staticRoots[i])
      requires forall i, j | 0 <= i < j < staticRootTop :: staticRoots[i] != staticRoots[j]
      requires s.roots == Roots()
      modifies mem, rootStack, this`memoryPointer
      ensures Inv(s, t) && t.stack == [] && Agrees(s, t)
      ensures AllSettled(s, t.fwd, s.roots) && Translated(t.fwd, s.roots, Roots())
      ensures rootStack[rootTop..] == old(rootStack[rootTop..])
      ensures forall c: nat | OutsideBoth(s, c) && c !in staticRoots[..staticRootTop] :: mem[c] == old(mem[c])
    {
      hide Inv, Settled, Tr, Start.Valid, Translated, AllSettled, Extends, Later;
      ghost var stackRoots, cells := rootStack[..rootTop], Cells(mem[..], staticRootTop);
      assert forall w | w in stackRoots :: w in s.roots;
      t := MoveRootStack(s, t0);
      StaticKept(s, t0, t);
      ghost var stackRoots', t1 := rootStack[..rootTop], t;
      assert Cells(mem[..], staticRootTop) == cells;
      assert forall w | w in cells :: w in s.roots;
      t := MoveStaticRoots(s, t);
      BothTranslated(s, t1, t, stackRoots, stackRoots', cells, Cells(mem[..], staticRootTop));
    }

    static lemma BothTranslated(s: Start, t1: State, t: State, ws: seq<Word>, ws': seq<Word>, cells: seq<Word>, cells': seq<Word>)
      requires s.Valid() && Inv(s, t1) && Inv(s, t) && Extends(t1.fwd, t.fwd)
      requires AllSettled(s, t1.fwd, ws) && Translated(t1.fwd, ws, ws') && AllSettled(s, t.fwd, cells) && Translated(t.fwd, cells, cells')
      ensures AllSettled(s, t.fwd, ws + cells) && Translated(t.fwd, ws + cells, ws' + cells')
    {
      hide Inv, Settled, Tr;
      CopiedAreObjects(s, t);
      TranslatedLater(s, t1, t.(out := t1.out), ws, ws');
    }

    /** The state at the end of a collection meets what the next one, and every allocation, needs. */
    lemma AfterDone(s: Start, t: State, live: nat, roots: seq<Word>)
      requires s.Valid() && Inv(s, t) && t.stack == []
      requires AllSettled(s, t.fwd, s.roots) && Translated(t.fwd, s.roots, roots)
      requires Objects(s.m, s.objs, live, s.oldTop) && live <= s.oldTop
      ensures Done(s, t) && Tiled(t.m, t.mp, s.newTop) && Starts(t.m, t.mp, s.newTop) == t.fwd.Values
      ensures s.newBase <= t.mp && After(s, t, roots).Valid()
      ensures s.newTop - t.mp == Words(s.m, t.order) <= s.oldTop - live
    {
      hide Inv;
      CopiesTile(s, t);
      CopiesInNewSpace(s, t);
      CopiedAreObjects(s, t);
      forall w' | w' in roots
        ensures exists w :: w in s.roots && w' == Tr(t.fwd, w)
      {
        var i :| 0 <= i < |roots| && roots[i] == w';
        assert s.roots[i] in s.roots;
      }
      CollectedIsSound(s, t, roots);
      WordsBound(s.m, s.objs, live, s.oldTop, t.order);
    }

    /** Copies *ptr and everything it reaches that has not been copied yet, and returns the new
        value for ptr.  The chain of unfinished objects threads through the copies. */
    method GcMove(ptr: Word, ghost s: Start, ghost t0: State) returns (replacement: Word, ghost t: State)
      requires s.Valid() && Inv(s, t0) && t0.stack == [] && Agrees(s, t0)
      requires ptr in s.roots
      modifies mem, this`memoryPointer
      ensures Inv(s, t) && t.stack == [] && Agrees(s, t) && Later(t0, t)
      ensures Settled(s, t.fwd, ptr) && replacement == Tr(t.fwd, ptr)
    {
      t := t0;
      var oldAddress, previousObject := ptr, NULL;
      s.Reaches(ptr);
      while true
        invariant Inv(s, t) && Agrees(s, t) && Later(t0, t)
        invariant Waits(s, t, ptr, oldAddress) && previousObject == Chain(t)
        decreases s.objs - t.fwd.Keys, Residual(t.at, t.stack)
      {
        replacement, oldAddress, t := Descend(oldAddress, previousObject, ptr, s, t);
        var done;
        done, replacement, oldAddress, previousObject, t := Climb(oldAddress, replacement, ptr, s, t);
        if done {
          return;
        }
      }
    }

    /** Part 1: copies objects, each waiting on its last slot, until a value needs no more work. */
    method Descend(value: Word, previous: Word, ghost ptr: Word, ghost s: Start, ghost t0: State)
      returns (replacement: Word, oldAddress: Word, ghost t: State)
      requires s.Valid() && Inv(s, t0) && Agrees(s, t0)
      requires Waits(s, t0, ptr, value) && previous == Chain(t0)
      modifies mem, this`memoryPointer
      ensures Inv(s, t) && Agrees(s, t) && Later(t0, t)
      ensures Fills(s, t, ptr, replacement) && oldAddress == Chain(t)
      ensures t0.fwd.Keys < t.fwd.Keys || t == t0
    {
      hide Inv, Waits, Fills, Intact, Shape, Forwarded, Later;
      LaterTrans(t0, t0, t0);
      t := t0;
      oldAddress := value;
      var previousObject := previous;
      while true
        invariant Inv(s, t) && Agrees(s, t) && Later(t0, t)
        invariant Waits(s, t, ptr, oldAddress) && previousObject == Chain(t)
        invariant t0.fwd.Keys < t.fwd.Keys || t == t0
        decreases s.objs - t.fwd.Keys
      {
        ValueTells(s, t, ptr, oldAddress);
        if oldAddress.SmallInt? {
          return oldAddress, previousObject, t;
        }
        var p := oldAddress.addr;
        if memoryBase <= p <= memoryTop {
          assert false;
        } else if !(oldBase <= p <= oldTop) {
          return oldAddress, previousObject, t;
        }
        HeaderTells(s, t, p);
        if mem[p].done {
          if mem[p].bin {
            replacement := mem[p + 1];
          } else {
            var sz := mem[p].size;
            replacement := mem[p + 1 + sz];
          }
          return replacement, previousObject, t;
        }
        RoomFor(s, t, p);
        assert p in s.objs - t.fwd.Keys;
        var next := Copy(p, previousObject, s, t);
        previousObject, oldAddress := oldAddress, next;
        DescendStep(s, t, mem[..], p, memoryPointer, ptr);
        LaterTrans(t0, t, ForwardState(s, t, mem[..], p, memoryPointer));
        t := ForwardState(s, t, mem[..], p, memoryPointer);
      }
    }

    /** Gives the object at p its copy and returns what is in the slot it waits on. */
    method Copy(p: nat, previousObject: Word, ghost s: Start, ghost t: State) returns (next: Word)
      requires Shape(s, t) && Agrees(s, t) && Intact(s, t.m, p)
      requires s.newBase + Foot(s.H(p)) <= t.mp && previousObject == Chain(t)
      modifies mem, this`memoryPointer
      ensures memoryPointer >= 0 && Forwarded(s, t, mem[..], p, memoryPointer)
      ensures next == Data(s.m, p, First(s.H(p)))
    {
      assert mem[p] == s.m[p];
      hide Forwarded, ToWords;
      if mem[p].bin {
        next := CopyBinary(p, previousObject);
        BytesForwarded(s, t, mem[..], p, memoryPointer);
      } else {
        next := CopyFields(p, previousObject);
        FieldsForwarded(s, t, mem[..], p, memoryPointer);
      }
    }

    method CopyBinary(p: nat, previousObject: Word) returns (next: Word)
      requires p < mem.Length && mem[p].Header? && mem[p].bin && p + Foot(mem[p]) <= mem.Length
      requires Foot(mem[p]) <= memoryPointer <= mem.Length
      requires p + Foot(mem[p]) <= memoryPointer - Foot(mem[p]) || memoryPointer <= p
      modifies mem, this`memoryPointer
      ensures 0 <= memoryPointer == old(memoryPointer) - Foot(old(mem[p]))
      ensures var n := memoryPointer; forall a {:trigger mem[a]} | 0 <= a < mem.Length ::
                mem[a] == old(if a == n then Header(mem[p].size, false, true)
                              else if a == n + 1 then previousObject
                              else if n + 1 < a < n + Foot(mem[p]) then mem[a - n + p]
                              else if a == p then mem[p].(done := true)
                              else if a == p + 1 then Pointer(n)
                              else mem[a])
      ensures next == old(mem[p + 1])
    {
      var isz := mem[p].size;
      var sz := ToWords(isz);
      memoryPointer := memoryPointer - (sz + 2);
      var n := memoryPointer;
      mem[n] := Header(isz, false, false);
      mem[n] := mem[n].(bin := true);
      CopyBytes(n + 1, p + 1, sz);
      mem[p] := mem[p].(done := true);
      mem[n + 1] := previousObject;
      next := mem[p + 1];
      mem[p + 1] := Pointer(n);
    }

    method CopyFields(p: nat, previousObject: Word) returns (next: Word)
      requires p < mem.Length && mem[p].Header? && !mem[p].bin && p + Foot(mem[p]) <= mem.Length
      requires Foot(mem[p]) <= memoryPointer <= mem.Length
      requires p + Foot(mem[p]) <= memoryPointer - Foot(mem[p]) || memoryPointer <= p
      modifies mem, this`memoryPointer
      ensures 0 <= memoryPointer == old(memoryPointer) - Foot(old(mem[p]))
      ensures var n, sz := memoryPointer, old(mem[p]).size;
              mem[..] == old(mem[..])[n := Header(sz, false, false)][p := old(mem[p]).(done := true)]
                         [n + 1 + sz := previousObject][p + 1 + sz := Pointer(n)]
      ensures next == old(mem[p + 1 + mem[p].size])
    {
      var sz := mem[p].size;
      memoryPointer := memoryPointer - (sz + 2);
      var n := memoryPointer;
      mem[n] := Header(sz, false, false);
      mem[p] := mem[p].(done := true);
      mem[n + 1 + sz] := previousObject;
      next := mem[p + 1 + sz];
      mem[p + 1 + sz] := Pointer(n);
    }

    /** Copies words 1..count above `from` to those above `to`, the last one first. */
    method CopyBytes(to: nat, from: nat, count: nat)
      requires to + count < mem.Length && from + count < mem.Length
      requires to + count < from || from + count < to
      modifies mem
      ensures forall a {:trigger mem[a]} | 0 <= a < mem.Length ::
                mem[a] == old(if to < a <= to + count then mem[a - to + from] else mem[a])
    {
      var sz := count;
      while sz > 0
        invariant 0 <= sz <= count
        invariant forall a {:trigger mem[a]} | 0 <= a < mem.Length ::
                    mem[a] == old(if to + sz < a <= to + count then mem[a - to + from] else mem[a])
      {
        mem[to + sz] := mem[from + sz];
        sz := sz - 1;
      }
    }

    /** Part 2: fills values in on the way back up the chain, until an object has a further slot to
        trace or the chain is at its end. */
    method Climb(address: Word, value: Word, ghost ptr: Word, ghost s: Start, ghost t0: State)
      returns (done: bool, replacement: Word, oldAddress: Word, previousObject: Word, ghost t: State)
      requires s.Valid() && Inv(s, t0) && Agrees(s, t0)
      requires Fills(s, t0, ptr, value) && address == Chain(t0)
      modifies mem
      ensures Inv(s, t) && Agrees(s, t) && Later(t0, t) && t.fwd == t0.fwd
      ensures done ==> t.stack == [] && Fills(s, t, ptr, replacement)
      ensures !done ==> Waits(s, t, ptr, oldAddress) && previousObject == Chain(t)
      ensures !done ==> Residual(t.at, t.stack) < Residual(t0.at, t0.stack)
    {
      hide Inv, Waits, Fills, Moved, Linked, Shape, Later, Finishes, Advances;
      LaterTrans(t0, t0, t0);
      t := t0;
      oldAddress, replacement, previousObject := address, value, NULL;
      while true
        invariant Inv(s, t) && Agrees(s, t) && Later(t0, t) && t.fwd == t0.fwd
        invariant Fills(s, t, ptr, replacement) && oldAddress == Chain(t)
        invariant Residual(t.at, t.stack) <= Residual(t0.at, t0.stack)
        decreases |t.stack|
      {
        ChainTells(s, t, ptr, replacement);
        if oldAddress == NULL {
          done := true;
          return;
        }
        var p := oldAddress.addr;
        TopTells(s, t, p, ptr, replacement);
        if mem[p].bin || mem[p].size == 0 {
          var n;
          n, previousObject := FillClass(p, replacement, s, t);
          ClimbStep(s, t, FinishState(t, mem[..]), p, replacement, ptr);
          LaterTrans(t0, t, FinishState(t, mem[..]));
          t := FinishState(t, mem[..]);
          replacement := Pointer(n);
          oldAddress := previousObject;
        } else {
          var next, k' := FillField(p, replacement, s, t);
          AdvanceStep(s, t, mem[..], p, replacement, k', ptr);
          LaterTrans(t0, t, AdvanceState(t, mem[..], p, k'));
          t := AdvanceState(t, mem[..], p, k');
          return false, replacement, next, oldAddress, t;
        }
      }
    }

    /** The copy of p gets its class; the object p was reached from is what its class slot held. */
    method FillClass(p: nat, replacement: Word, ghost s: Start, ghost t: State)
      returns (n: nat, previousObject: Word)
      requires Shape(s, t) && Agrees(s, t) && Top(t, p) && Moved(s, t, p) && Linked(s, t, |t.stack| - 1)
      requires t.at[p] == 0
      requires replacement == Tr(t.fwd, Data(s.m, p, 0)) && Settled(s, t.fwd, Data(s.m, p, 0))
      modifies mem
      ensures Finishes(s, t, mem[..], p, replacement)
      ensures n == t.fwd[p] && previousObject == Chain(FinishState(t, mem[..]))
    {
      n := mem[p + 1].addr;
      previousObject := mem[n + 1];
      mem[n + 1] := replacement;
      mem[p + 1] := Pointer(n);
    }

    /** The copy of p gets its next field, and NULL for every NULL field below; p's own size counts
        down to the slot it waits on now. */
    method FillField(p: nat, replacement: Word, ghost s: Start, ghost t: State)
      returns (next: Word, sz: nat)
      requires Shape(s, t) && Agrees(s, t) && Top(t, p) && Moved(s, t, p) && Linked(s, t, |t.stack| - 1)
      requires !s.H(p).bin && t.at[p] > 0
      requires replacement == Tr(t.fwd, Data(s.m, p, t.at[p])) && Settled(s, t.fwd, Data(s.m, p, t.at[p]))
      modifies mem
      ensures Advances(s, t, mem[..], p, replacement, sz)
      ensures next == Data(s.m, p, sz)
    {
      hide Moved, Linked, Advances, Tr, Settled;
      TopSlot(s, t, p);
      sz := mem[p].size;
      var n := mem[p + 1 + sz].addr;
      var previousObject := mem[n + 1 + sz];
      mem[n + 1 + sz] := replacement;
      ghost var m1 := mem[..];
      sz := SkipNulls(n, p, sz);
      ghost var m2 := mem[..];
      mem[p] := Header(sz, false, false);
      mem[p] := mem[p].(done := true);
      mem[n + 1 + sz] := previousObject;
      next := mem[p + 1 + sz];
      mem[p + 1 + sz] := Pointer(n);
      FieldFilled(s, t, m1, m2, mem[..], p, replacement, sz);
    }

    /** From slot k - 1 of p down, every NULL field is copied to the object at n; the slot returned is
        the first one that is not NULL, or the class. */
    method SkipNulls(n: nat, p: nat, k: nat) returns (sz: nat)
      requires 0 < k && n + 1 + k < mem.Length && p + 1 + k < mem.Length
      requires n + 1 + k <= p || p + 1 + k <= n
      modifies mem
      ensures sz < k
      ensures forall i | sz < i < k :: Data(old(mem[..]), p, i) == NULL
      ensures sz > 0 ==> Data(old(mem[..]), p, sz) != NULL
      ensures forall a {:trigger mem[a]} | 0 <= a < mem.Length ::
                mem[a] == if n + 1 + sz < a < n + 1 + k then NULL else old(mem[a])
    {
      sz := k - 1;
      while sz > 0 && mem[p + 1 + sz] == NULL
        invariant 0 <= sz < k
        invariant forall i | sz < i < k :: Data(old(mem[..]), p, i) == NULL
        invariant forall a {:trigger mem[a]} | 0 <= a < mem.Length ::
                    mem[a] == if n + 1 + sz < a < n + 1 + k then NULL else old(mem[a])
      {
        mem[n + 1 + sz] := NULL;
        sz := sz - 1;
      }
    }

    /** Room for an object of sz fields was found without a collection, or not even with one. */
    ghost predicate Fits(mp: int, sz: nat)
      reads this`memoryBase
    {
      memoryBase <= mp - (sz + 2)
    }

    /** The allocator's collection path: memoryPointer may already have been moved too far down. */
    method GCollect(sz: nat, ghost live: nat) returns (result: Allocation, ghost s: Start, ghost t: State)
      requires ValidFrom(live) && Heap(live).Valid()
      modifies this`inSpaceOne, this`memoryBase, this`memoryPointer, this`memoryTop, this`oldBase, this`oldTop
      modifies mem, rootStack
      ensures s == old(Heap(live)) && inSpaceOne != old(inSpaceOne)
      ensures Fixed() && StaticsOk() && rootTop <= ROOT_STACK_LIMIT && Collected(s, t)
      ensures result.OutOfMemory? <==> !Fits(t.mp, sz)
      ensures result.Allocated? ==> result.addr == memoryPointer == t.mp - (sz + 2)
      ensures result.Allocated? ==> result.addr < |t.m| && mem[..] == t.m[result.addr := Header(sz, false, false)]
      ensures result.Allocated? ==> Valid() && memoryPointer < memoryTop && Heap(memoryPointer).ValidBut(memoryPointer)
    {
      hide Heap, ValidFrom, Start.Valid, Start.ValidBut, Done, Tiled, Starts, Translated;
      s, t := DoGc(live);
      HeapMatches(memoryPointer);
      memoryPointer := memoryPointer - (sz + 2);
      if memoryPointer < memoryBase {
        return OutOfMemory, s, t;
      }
      Place(sz, t.mp);
      result := Allocated(memoryPointer);
    }

    /** The header of the object just made room for. */
    method Place(sz: nat, ghost live: nat)
      requires ValidFrom(live) && memoryPointer == live - (sz + 2) && memoryBase <= memoryPointer
      modifies mem
      ensures Valid() && mem[..] == old(mem[..])[memoryPointer := Header(sz, false, false)]
      ensures Starts(mem[..], memoryPointer, memoryTop) == {memoryPointer} + Starts(old(mem[..]), live, memoryTop)
      ensures Cells(mem[..], staticRootTop) == Cells(old(mem[..]), staticRootTop)
      ensures memoryPointer < memoryTop && (old(Heap(live).Valid()) ==> Heap(memoryPointer).ValidBut(memoryPointer))
    {
      ghost var s := Heap(live);
      HeapMatches(live);
      hide Heap, ValidFrom, Matches, Start.Valid, Start.ValidBut, Tiled, Starts, Objects;
      mem[memoryPointer] := Header(sz, false, false);
      NewHeap(s, live, sz);
    }

    /** The heap with it. */
    lemma NewHeap(s: Start, live: nat, sz: nat)
      requires Matches(s, live) && memoryBase <= memoryPointer && memoryPointer + sz + 2 == live
      requires Tiled(s.m, live, memoryTop) && s.objs == Starts(s.m, live, memoryTop) && s.roots == rootStack[..rootTop] + Cells(s.m, staticRootTop)
      requires |s.m| == mem.Length && memoryPointer < |s.m| && mem[..] == s.m[memoryPointer := Header(sz, false, false)]
      ensures Valid() && memoryPointer < memoryTop && Starts(mem[..], memoryPointer, memoryTop) == {memoryPointer as nat} + s.objs
      ensures Cells(mem[..], staticRootTop) == Cells(s.m, staticRootTop)
      ensures s.Valid() ==> Heap(memoryPointer).ValidBut(memoryPointer)
    {
      var s' := s.(m := mem[..], objs := s.objs + {memoryPointer});
      StartsAreObjects(s.m, live, memoryTop);
      ExtendTiled(s.m, live, memoryTop, sz);
      assert Matches(s', memoryPointer) && live <= memoryTop;
      CellsKept(s', s.m, memoryPointer);
      if s.Valid() { s.Added(memoryPointer, sz); }
      hide Heap, ValidFrom, Matches, Start.Valid, Start.ValidBut, Tiled, Starts, Objects;
      HeapIs(s', memoryPointer);
    }

    /** An object placed just below a tiled range extends it. */
    static lemma ExtendTiled(m: seq<Word>, p: nat, top: nat, sz: nat)
      requires Tiled(m, p, top) && sz + 2 <= p
      ensures var m' := m[p - (sz + 2) := Header(sz, false, false)];
              Tiled(m', p - (sz + 2), top) &&
              Starts(m', p - (sz + 2), top) == {p - (sz + 2)} + Starts(m, p, top)
    {
      var m' := m[p - (sz + 2) := Header(sz, false, false)];
      StartsAreObjects(m, p, top);
      TiledFrame(m, m', p, top);
    }

    /** gcalloc: bump allocation, with a collection when the space is used up. */
    method GcAlloc(sz: nat) returns (result: Allocation, ghost s: Start, ghost t: State)
      requires Valid() && Heap(memoryPointer).Valid()
      modifies this`inSpaceOne, this`memoryBase, this`memoryPointer, this`memoryTop, this`oldBase, this`oldTop
      modifies mem, rootStack
      ensures Fixed() && StaticsOk() && rootTop <= ROOT_STACK_LIMIT
      ensures old(Fits(memoryPointer, sz)) ==>
                result.Allocated? && inSpaceOne == old(inSpaceOne) && rootStack[..] == old(rootStack[..]) &&
                result.addr == old(memoryPointer) - (sz + 2) &&
                mem[..] == old(mem[..])[result.addr := Header(sz, false, false)]
      ensures !old(Fits(memoryPointer, sz)) ==>
                s == old(Heap(memoryPointer)) && inSpaceOne != old(inSpaceOne) && Collected(s, t) && (result.OutOfMemory? <==> !Fits(t.mp, sz)) &&
                (result.Allocated? ==> result.addr == t.mp - (sz + 2) && result.addr < |t.m| &&
                                       mem[..] == t.m[result.addr := Header(sz, false, false)])
      ensures result.Allocated? ==> Valid() && result.addr == memoryPointer < memoryTop && Heap(memoryPointer).ValidBut(memoryPointer)
      ensures result.Allocated? ==> result.addr < mem.Length && mem[result.addr] == Header(sz, false, false)
    {
      hide Start.Valid, Start.ValidBut, Done;
      ghost var live := memoryPointer;
      memoryPointer := memoryPointer - (sz + 2);
      if memoryPointer < memoryBase {
        result, s, t := GCollect(sz, live);
      } else {
        s, t := Heap(live), State([], map[], map[], [], [], 0, []);
        Place(sz, live);
        result := Allocated(memoryPointer);
      }
    }

    /** Between the class word of the object at p and what comes after it there is room for so many bytes, and for
        less than a word more. */
    ghost predicate HasRoom(p: nat, after: int, bytes: nat) {
      p + 2 <= after && bytes <= 8 * (after - (p + 2)) < bytes + 8
    }

    /** gcialloc: an object of sz bytes is allocated by words and then marked binary. */
    method GciAlloc(sz: nat) returns (result: Allocation, ghost s: Start, ghost t: State)
      requires Valid() && Heap(memoryPointer).Valid()
      modifies this`inSpaceOne, this`memoryBase, this`memoryPointer, this`memoryTop, this`oldBase, this`oldTop
      modifies mem, rootStack
      ensures Fixed() && StaticsOk() && rootTop <= ROOT_STACK_LIMIT
      ensures result.OutOfMemory? <==> !old(Fits(memoryPointer, ToWords(sz))) && !Fits(t.mp, ToWords(sz))
      ensures old(Fits(memoryPointer, ToWords(sz))) ==>
                inSpaceOne == old(inSpaceOne) && result.addr == old(memoryPointer) - (ToWords(sz) + 2) &&
                mem[..] == old(mem[..])[result.addr := Header(sz, false, true)]
      ensures !old(Fits(memoryPointer, ToWords(sz))) && result.Allocated? ==>
                s == old(Heap(memoryPointer)) && Collected(s, t) &&
                result.addr == t.mp - (ToWords(sz) + 2) && result.addr < |t.m| &&
                mem[..] == t.m[result.addr := Header(sz, false, true)]
      ensures result.Allocated? ==> Valid() && result.addr == memoryPointer < memoryTop && Heap(memoryPointer).ValidBut(memoryPointer)
      ensures result.Allocated? ==> result.addr < mem.Length && mem[result.addr] == Header(sz, false, true)
      ensures result.Allocated? ==>
                var after := if inSpaceOne == old(inSpaceOne) then old(memoryPointer) else t.mp;
                HasRoom(result.addr, after, sz)
    {
      hide Start.Valid, Start.ValidBut, Done;
      var trueSize := ToWords(sz);
      result, s, t := GcAlloc(trueSize);
      if result.Allocated? {
        MarkBinary(result.addr, sz);
      }
    }

    /** SET_SIZE and SET_BINOBJ on the lowest object, whose words stay the same in number. */
    method MarkBinary(p: nat, sz: nat)
      requires Valid() && p == memoryPointer < memoryTop && mem[p] == Header(ToWords(sz), false, false)
      modifies mem
      ensures Valid() && mem[..] == old(mem[..])[p := Header(sz, false, true)]
      ensures Cells(mem[..], staticRootTop) == Cells(old(mem[..]), staticRootTop)
      ensures forall s, t | old(Collected(s, t)) :: Collected(s, t)
      ensures old(Heap(p).ValidBut(p)) ==> Heap(p).ValidBut(p)
    {
      ghost var s := Heap(p);
      HeapMatches(p);
      hide Heap, ValidFrom, Matches, Start.ValidBut, Tiled, Starts, Translated, Done;
      mem[p] := Header(sz, false, false);
      mem[p] := mem[p].(bin := true);
      MarkedHeap(s, p, Header(sz, false, true));
    }

    lemma MarkedHeap(s: Start, p: nat, h: Word)
      requires Matches(s, p) && p < memoryTop && Tiled(s.m, p, memoryTop) && s.objs == Starts(s.m, p, memoryTop)
      requires s.roots == rootStack[..rootTop] + Cells(s.m, staticRootTop)
      requires |s.m| == mem.Length && p < |s.m| && h.Header? && !h.done && Foot(h) == Foot(s.m[p]) && mem[..] == s.m[p := h]
      ensures ValidFrom(p) && Cells(mem[..], staticRootTop) == Cells(s.m, staticRootTop)
      ensures s.ValidBut(p) ==> Heap(p).ValidBut(p)
    {
      var s' := s.(m := mem[..]);
      Relabel(s.m, p, memoryTop, h);
      assert Matches(s', p);
      CellsKept(s', s.m, p);
      if s.ValidBut(p) { s.Relabelled(p, h); }
      hide Heap, ValidFrom, Matches, Start.Valid, Start.ValidBut, Tiled, Starts, Objects;
      HeapIs(s', p);
    }

    static lemma Relabel(m: seq<Word>, p: nat, top: nat, h: Word)
      requires Tiled(m, p, top) && p < top && h.Header? && !h.done && Foot(h) == Foot(m[p])
      ensures Tiled(m[p := h], p, top) && Starts(m[p := h], p, top) == Starts(m, p, top)
    {
      StartsAreObjects(m, p + Foot(m[p]), top);
      TiledFrame(m, m[p := h], p + Foot(m[p]), top);
    }

    // ---- Objects for the image -------------------------------------------------------------------------

    /** rootStack[rootTop++] = w */
    method PushRoot(w: Word)
      requires Valid() && rootTop < ROOT_STACK_LIMIT && Heap(memoryPointer).Valid() && Heap(memoryPointer).Oop(w)
      modifies rootStack, this`rootTop
      ensures Valid() && Heap(memoryPointer).Valid()
      ensures rootStack[..rootTop] == old(rootStack[..rootTop]) + [w]
    {
      ghost var s := Heap(memoryPointer);
      HeapMatches(memoryPointer);
      RootsAre(s);
      hide Heap, ValidFrom, Start.Valid, Start.ValidBut, Start.Oop, Tiled, Starts, Cells;
      rootStack[rootTop] := w;
      rootTop := rootTop + 1;
      assert rootStack[..rootTop] == old(rootStack[..rootTop]) + [w];
      forall v | v in Roots() ensures v == w || v in s.roots {}
      OtherRoots(s);
    }

    static lemma RootsAre(s: Start)
      ensures s.Valid() ==> forall w | w in s.roots :: s.Oop(w)
      ensures forall b | s.ValidBut(b) :: forall w | w in s.roots :: s.Oop(w)
    {}

    /** The heap with other roots. */
    lemma OtherRoots(s: Start)
      requires Matches(s, memoryPointer) && s.m == mem[..] && Tiled(s.m, memoryPointer, memoryTop) && s.objs == Starts(s.m, memoryPointer, memoryTop)
      requires s.Valid() && forall v | v in Roots() :: s.Oop(v)
      ensures Valid() && Heap(memoryPointer) == s.(roots := Roots()) && Heap(memoryPointer).Valid()
    {
      hide Start.Valid, Start.ValidBut, Start.Oop, Tiled, Starts, Roots;
      s.OtherRoots(Roots());
      HeapIs(s.(roots := Roots()), memoryPointer);
    }

    /** rootStack[--rootTop] */
    method PopRoot() returns (w: Word)
      requires Valid() && 0 < rootTop && Heap(memoryPointer).Valid()
      modifies this`rootTop
      ensures Valid() && Heap(memoryPointer).Valid() && Heap(memoryPointer).Oop(w)
      ensures rootTop == old(rootTop) - 1 && w == rootStack[rootTop]
    {
      ghost var s := Heap(memoryPointer);
      HeapMatches(memoryPointer);
      RootsAre(s);
      hide Heap, ValidFrom, Start.Valid, Start.ValidBut, Tiled, Starts, Cells;
      rootTop := rootTop - 1;
      w := rootStack[rootTop];
      assert s.roots[rootTop] == w && w in s.roots;
      forall v | v in Roots() ensures v in s.roots {}
      OtherRoots(s);
    }

    /** A new object is at p; all else is as it was. */
    ghost static predicate Made(m: seq<Word>, m': seq<Word>, p: nat, h: Word, c: Word, value: Word) {
      && h.Header? && |m'| == |m|
      && forall a {:trigger m'[a]} | 0 <= a < |m| ::
           m'[a] == if a == p then h else if a == p + 1 then c else if p + 2 <= a < p + 2 + h.size then value else m[a]
    }

    /** The class, and the same value in every field. */
    method Fill(p: nat, c: Word, value: Word)
      requires ValidFrom(p) && p < memoryTop && !mem[p].bin && Heap(p).ValidBut(p) && Heap(p).Oop(c) && Heap(p).Oop(value)
      modifies mem
      ensures ValidFrom(p) && Heap(p).Valid() && Roots() == old(Roots()) && p + 2 + old(mem[p]).size <= memoryTop
      ensures Made(old(mem[..]), mem[..], p, old(mem[p]), c, value)
    {
      ghost var s, size := Heap(p), mem[p].size;
      HeapMatches(p);
      StartsAreObjects(mem[..], p, memoryTop);
      assert p + 2 + size <= memoryTop < mem.Length;
      hide Heap, ValidFrom, Matches, Start.ValidBut, Start.Valid, Starts, Tiled, Objects;
      FillWords(p, c, value);
      FilledHeap(s, p, size, c, value);
    }

    method FillWords(p: nat, c: Word, value: Word)
      requires p < mem.Length && mem[p].Header? && p + 2 + mem[p].size <= mem.Length
      modifies mem
      ensures forall a {:trigger mem[a]} | 0 <= a < mem.Length ::
                mem[a] == if a == p + 1 then c else if p + 2 <= a < p + 2 + old(mem[p]).size then value else old(mem[a])
    {
      ghost var m := mem[..];
      mem[p + 1] := c;
      var low := mem[p].size;
      while low > 0
        invariant 0 <= low <= m[p].size
        invariant forall a {:trigger mem[a]} | 0 <= a < mem.Length ::
                    mem[a] == if a == p + 1 then c else if p + 2 + low <= a < p + 2 + m[p].size then value else m[a]
      {
        low := low - 1;
        mem[p + 2 + low] := value;
      }
    }

    /** Then the heap is complete. */
    lemma FilledHeap(s: Start, p: nat, n: nat, c: Word, value: Word)
      requires Matches(s, p) && p < memoryTop && Tiled(s.m, p, memoryTop) && s.objs == Starts(s.m, p, memoryTop)
      requires s.roots == rootStack[..rootTop] + Cells(s.m, staticRootTop)
      requires s.ValidBut(p) && n == (if s.H(p).bin then 0 else s.H(p).size) && s.Oop(c) && (n > 0 ==> s.Oop(value))
      requires p + 2 + n <= memoryTop < |s.m| == mem.Length
      requires forall a {:trigger mem[..][a]} | 0 <= a < mem.Length ::
                 mem[..][a] == if a == p + 1 then c else if p + 2 <= a < p + 2 + n then value else s.m[a]
      ensures ValidFrom(p) && Heap(p).Valid() && Roots() == s.roots
    {
      var s' := s.(m := mem[..]);
      FilledTiled(s.m, mem[..], p, memoryTop);
      assert Matches(s', p);
      CellsKept(s', s.m, p);
      s.Filled(p, mem[..]);
      hide Heap, ValidFrom, Matches, Start.ValidBut, Start.Valid, Objects, Tiled, Starts;
      HeapIs(s', p);
    }

    /** What is inside an object does not matter for where the objects are. */
    static lemma FilledTiled(m: seq<Word>, m': seq<Word>, p: nat, top: nat)
      requires Tiled(m, p, top) && p < top && |m'| == |m|
      requires forall a | 0 <= a < |m| && !(p < a < p + Foot(m[p])) :: m'[a] == m[a]
      ensures Tiled(m', p, top) && Starts(m', p, top) == Starts(m, p, top)
    {
      StartsAreObjects(m, p, top);
      forall a | a in Starts(m, p, top) ensures m'[a] == m[a] {
        assert p in Starts(m, p, top) && (a == p || p + Foot(m[p]) <= a);
      }
      TiledFrame(m, m', p, top);
    }

    /** A new object, of the class on top of the root stack and with nil in every field; the allocation may move
        both. */
    method NewObject(low: nat, nilCell: nat) returns (result: Allocation, ghost s: Start, ghost t: State)
      requires Valid() && 0 < rootTop && Heap(memoryPointer).Valid() && nilCell in staticRoots[..staticRootTop]
      modifies this`inSpaceOne, this`memoryBase, this`memoryPointer, this`memoryTop, this`oldBase, this`oldTop
      modifies mem, rootStack
      ensures result.Allocated? ==> Valid() && Heap(memoryPointer).Valid() && result.addr == memoryPointer
      ensures result.Allocated? ==>
                var m := if old(Fits(memoryPointer, low)) then old(mem[..]) else t.m;
                Made(m, mem[..], result.addr, Header(low, false, false), rootStack[rootTop - 1], WordAt(mem[..], nilCell))
      ensures old(Fits(memoryPointer, low)) ==> result.Allocated? && rootStack[..] == old(rootStack[..])
      ensures !old(Fits(memoryPointer, low)) && result.Allocated? ==>
                s == old(Heap(memoryPointer)) && Done(s, t) && Translated(t.fwd, s.roots, Roots())
    {
      hide Heap, ValidFrom, Start.Valid, Start.ValidBut, Done, Tiled, Starts, Translated, Made, Roots, Start.Oop;
      ghost var m, fits := mem[..], Fits(memoryPointer, low);
      result, s, t := GcAlloc(low);
      if result.OutOfMemory? { return; }
      if !fits { m := t.m; }
      NewRoots(nilCell);
      var value := mem[nilCell];
      Fill(result.addr, rootStack[rootTop - 1], value);
      MadeFrom(m, mem[..], result.addr, Header(low, false, false), rootStack[rootTop - 1], value, nilCell);
    }

    /** Primitive 20: a new binary object of the class on top of the root stack.  Its bytes are up to the caller. */
    method NewBinary(bytes: nat) returns (result: Allocation, ghost s: Start, ghost t: State)
      requires Valid() && 0 < rootTop && Heap(memoryPointer).Valid()
      modifies this`inSpaceOne, this`memoryBase, this`memoryPointer, this`memoryTop, this`oldBase, this`oldTop
      modifies mem, rootStack
      ensures result.Allocated? ==> Valid() && Heap(memoryPointer).Valid() && result.addr == memoryPointer && result.addr + 1 < mem.Length
      ensures result.Allocated? ==> mem[result.addr] == Header(bytes, false, true) && mem[result.addr + 1] == rootStack[rootTop - 1]
      ensures result.Allocated? ==>
                var after := if inSpaceOne == old(inSpaceOne) then old(memoryPointer) else t.mp;
                HasRoom(result.addr, after, bytes)
    {
      hide Heap, ValidFrom, Start.Valid, Start.ValidBut, Tiled, Starts, Start.Oop, Done, Translated;
      result, s, t := GciAlloc(bytes);
      if result.OutOfMemory? { return; }
      ClassRoot(result.addr);
      ghost var was := Heap(result.addr);
      mem[result.addr + 1] := rootStack[rootTop - 1];
      FilledHeap(was, result.addr, 0, rootStack[rootTop - 1], NULL);
    }

    lemma ClassRoot(p: nat)
      requires ValidFrom(p) && p < memoryTop && 0 < rootTop && Heap(p).ValidBut(p)
      ensures 0 < rootTop <= rootStack.Length && p + 1 < memoryTop && p + 2 <= memoryTop < mem.Length && Heap(p).Oop(rootStack[rootTop - 1])
      ensures Matches(Heap(p), p) && Heap(p).m == mem[..] && Tiled(mem[..], p, memoryTop) && Heap(p).objs == Starts(mem[..], p, memoryTop)
      ensures Heap(p).roots == rootStack[..rootTop] + Cells(mem[..], staticRootTop)
    {
      var s := Heap(p);
      StartsAreObjects(s.m, p, memoryTop);
      RootsAre(s);
      assert s.roots[rootTop - 1] == rootStack[rootTop - 1] && s.roots[rootTop - 1] in s.roots;
    }

    static lemma MadeFrom(m: seq<Word>, m': seq<Word>, p: nat, h: Word, c: Word, value: Word, a: nat)
      requires p < |m| && Made(m[p := h], m', p, h, c, value)
      ensures Made(m, m', p, h, c, value)
      ensures (a < p || p + 2 + h.size <= a) && a < |m| ==> m'[a] == m[a]
    {}

    /** The class and nil are roots. */
    lemma NewRoots(nilCell: nat)
      requires Valid() && 0 < rootTop && Heap(memoryPointer).ValidBut(memoryPointer) && nilCell in staticRoots[..staticRootTop]
      ensures rootTop <= rootStack.Length && nilCell < mem.Length && !(memoryPointer <= nilCell < memoryTop)
      ensures Heap(memoryPointer).Oop(rootStack[rootTop - 1]) && Heap(memoryPointer).Oop(mem[nilCell])
    {
      var s := Heap(memoryPointer);
      hide Start.ValidBut, Tiled, Starts;
      RootsAre(s);
      assert s.roots[rootTop - 1] == rootStack[rootTop - 1];
      var i :| 0 <= i < staticRootTop && staticRoots[i] == nilCell;
      assert s.roots[rootTop + i] == mem[nilCell] && s.roots[rootTop + i] in s.roots && s.roots[rootTop - 1] in s.roots;
    }

    /** addStaticRoot: a word is registered once, however often it is asked for. */
    method AddStaticRoot(c: nat) returns (ok: bool)
      requires Valid() && IsStatic(c)
      modifies staticRoots, this`staticRootTop
      ensures Valid()
      ensures ok <==> c in old(staticRoots[..staticRootTop]) || old(staticRootTop) < STATIC_ROOT_LIMIT
      ensures staticRoots[..staticRootTop] ==
              old(staticRoots[..staticRootTop]) + (if ok && c !in old(staticRoots[..staticRootTop]) then [c] else [])
      ensures old(Heap(memoryPointer).Valid() && Heap(memoryPointer).Oop(mem[c])) ==> Heap(memoryPointer).Valid()
    {
      ghost var s := Heap(memoryPointer);
      HeapMatches(memoryPointer);
      assert StaticsOk();
      hide Heap, Start.Valid, Start.ValidBut, Start.Oop, Tiled, Starts, ValidFrom;
      var known := Registered(c);
      if known { return true; }
      if staticRootTop >= STATIC_ROOT_LIMIT { return false; }
      staticRoots[staticRootTop] := c;
      staticRootTop := staticRootTop + 1;
      OneMoreRoot(s, c);
      return true;
    }

    /** The search through the table. */
    method Registered(c: nat) returns (known: bool)
      requires staticRootTop <= staticRoots.Length
      ensures known <==> c in staticRoots[..staticRootTop]
    {
      var i := 0;
      while i < staticRootTop
        invariant 0 <= i <= staticRootTop
        invariant c !in staticRoots[..i]
      {
        if c == staticRoots[i] {
          assert staticRoots[i] in staticRoots[..staticRootTop];
          return true;
        }
        i := i + 1;
      }
      return false;
    }

    lemma OneMoreRoot(s: Start, c: nat)
      requires Matches(s, memoryPointer) && s.m == mem[..] && Tiled(s.m, memoryPointer, memoryTop) && s.objs == Starts(s.m, memoryPointer, memoryTop)
      requires 0 < staticRootTop && staticRoots[staticRootTop - 1] == c && s.roots == rootStack[..rootTop] + Cells(s.m, staticRootTop - 1)
      ensures Valid() && (s.Valid() && s.Oop(mem[c]) ==> Heap(memoryPointer).Valid())
    {
      NextCell(s.m, staticRootTop - 1);
      RootsAre(s);
      hide Start.Valid, Start.ValidBut, Start.Oop, Tiled, Starts, Heap;
      HeapIs(s.(roots := Roots()), memoryPointer);
      assert Roots() == s.roots + [WordAt(s.m, c)];
      if s.Valid() && s.Oop(mem[c]) { OtherRoots(s); }
    }

    /** map(): looks oo up in the two arrays, position by position. */
    method MapOop(oo: Word, arr1: nat, arr2: nat, size: nat) returns (r: Word)
      requires arr1 + 2 + size <= mem.Length && arr2 + 2 + size <= mem.Length
      ensures r == Swap(Elements(mem[..], arr1, size), Elements(mem[..], arr2, size), oo)
    {
      ghost var a1, a2 := Elements(mem[..], arr1, size), Elements(mem[..], arr2, size);
      var x := 0;
      while x < size
        invariant 0 <= x <= size
        invariant Swap(a1, a2, oo) == Swap(a1[x..], a2[x..], oo)
      {
        assert a1[x] == mem[arr1 + 2 + x] && a2[x] == mem[arr2 + 2 + x];
        if mem[arr1 + 2 + x] == oo {
          return mem[arr2 + 2 + x];
        }
        if mem[arr2 + 2 + x] == oo {
          return mem[arr1 + 2 + x];
        }
        assert a1[x..][1..] == a1[x + 1..] && a2[x..][1..] == a2[x + 1..];
        x := x + 1;
      }
      return oo;
    }

    /** walk(): every object of [base, top) is visited once, in order of address. */
    method Walk(base: nat, top: nat, arr1: nat, arr2: nat, size: nat)
      requires Tiled(mem[..], base, top)
      requires base < top ==> Arrays(mem[..], Starts(mem[..], base, top), arr1, arr2, size)
      modifies mem
      ensures Exchanged(old(mem[..]), mem[..], Starts(old(mem[..]), base, top), arr1, arr2, size, [])
    {
      ghost var m, objs := mem[..], Starts(mem[..], base, top);
      StartsAreObjects(m, base, top);
      BoundaryStart(m, base, top);
      NoneSeen(m, arr1, arr2, size);
      hide Exchanged, Boundary, Tiled, Starts, Passed, Objects, Arrays, Foot, WordAt;
      var op := base;
      while op < top
        invariant base <= op <= top && Boundary(m, objs, op, top)
        invariant Exchanged(m, mem[..], Passed(objs, op), arr1, arr2, size, [])
        decreases top - op
      {
        ghost var m1, seen := mem[..], Passed(objs, op);
        BoundaryStep(m, objs, op, top);
        ToVisit(m, m1, objs, seen, base, top, arr1, arr2, size, op);
        MapObject(op, arr1, arr2, size);
        AfterVisit(m, m1, mem[..], objs, seen, base, top, arr1, arr2, size, op);
        op := NextObject(op, arr1, arr2);
      }
      BoundaryEnd(m, objs, top);
    }

    /** Past the object at op: the argument arrays and objects with fields by their size, binary
        objects by the words their bytes take. */
    method NextObject(op: nat, arr1: nat, arr2: nat) returns (opnext: nat)
      requires op < mem.Length && mem[op].Header? && (op == arr1 || op == arr2 ==> !mem[op].bin)
      ensures opnext == op + Foot(mem[op])
    {
      var sz := mem[op].size;
      if op == arr1 || op == arr2 {
        return op + sz + 2;
      }
      if mem[op].bin {
        var trueSize := ToWords(sz);
        return op + trueSize + 2;
      }
      return op + sz + 2;
    }

    /** One object: its class, and then its fields unless it is binary or an argument array. */
    method MapObject(op: nat, arr1: nat, arr2: nat, size: nat)
      requires op < mem.Length && mem[op].Header? && op + Foot(mem[op]) <= mem.Length
      requires arr1 + 2 + size <= mem.Length && arr2 + 2 + size <= mem.Length
      requires op == arr1 || op + Foot(mem[op]) <= arr1 || arr1 + 2 + size <= op
      requires op == arr2 || op + Foot(mem[op]) <= arr2 || arr2 + 2 + size <= op
      modifies mem
      ensures Exchanged(old(mem[..]), mem[..], {op}, arr1, arr2, size, [])
    {
      ghost var m := mem[..];
      ghost var a1, a2 := Elements(m, arr1, size), Elements(m, arr2, size);
      mem[op + 1] := MapOop(mem[op + 1], arr1, arr2, size);
      var sz := mem[op].size;
      if op == arr1 || op == arr2 || mem[op].bin {
        return;
      }
      var x := 0;
      while x < sz
        invariant 0 <= x <= sz
        invariant forall a {:trigger mem[a]} | 0 <= a < mem.Length ::
                    mem[a] == if op < a < op + 2 + x then Swap(a1, a2, m[a]) else m[a]
      {
        var r := MapOop(mem[op + 2 + x], arr1, arr2, size);
        assert Elements(mem[..], arr1, size) == a1 && Elements(mem[..], arr2, size) == a2;
        mem[op + 2 + x] := r;
        x := x + 1;
      }
    }

    /** exchangeObjects(): heap, root stack and static roots. */
    method ExchangeObjects(arr1: nat, arr2: nat, size: nat)
      requires Valid() && Arrays(mem[..], Starts(mem[..], memoryPointer, memoryTop), arr1, arr2, size)
      modifies mem, rootStack
      ensures Exchanged(old(mem[..]), mem[..], old(Starts(mem[..], memoryPointer, memoryTop)), arr1, arr2, size, staticRoots[..staticRootTop])
      ensures AllSwapped(old(Elements(mem[..], arr1, size)), old(Elements(mem[..], arr2, size)), old(rootStack[..rootTop]), rootStack[..rootTop])
      ensures rootStack[rootTop..] == old(rootStack[rootTop..])
      ensures Valid() && Starts(mem[..], memoryPointer, memoryTop) == old(Starts(mem[..], memoryPointer, memoryTop))
      ensures old(Heap(memoryPointer).Valid()) ==> Heap(memoryPointer).Valid()
    {
      ghost var s, cells := Heap(memoryPointer), staticRoots[..staticRootTop];
      HeapMatches(memoryPointer);
      CellsOutside(s, arr1, arr2, size);
      hide Heap, ValidFrom, Arrays, Tiled, Starts, Exchanged, Elements, AllSwapped, Swap, Start.Valid;
      MapSpaces(arr1, arr2, size);
      ghost var m1 := mem[..];
      MapRootStack(arr1, arr2, size);
      MapStaticRoots(arr1, arr2, size);
      WalkThenRoots(s.m, m1, mem[..], s.objs, memoryPointer, memoryTop, arr1, arr2, size, cells);
      RootsSwapped(s, arr1, arr2, size);
    }

    /** Neither array has a static root inside it. */
    lemma CellsOutside(s: Start, arr1: nat, arr2: nat, size: nat)
      requires Matches(s, memoryPointer) && |s.m| == mem.Length && Tiled(s.m, memoryPointer, memoryTop) && s.objs == Starts(s.m, memoryPointer, memoryTop)
      requires Arrays(s.m, s.objs, arr1, arr2, size)
      ensures StaticsOk() && Fixed() && rootTop <= rootStack.Length && memoryPointer >= 0 && Objects(s.m, s.objs, memoryPointer, memoryTop)
      ensures arr1 + 2 + size <= mem.Length && arr2 + 2 + size <= mem.Length
      ensures forall c | c in staticRoots[..staticRootTop] :: c < memoryPointer || memoryTop <= c
      ensures forall i | 0 <= i < staticRootTop ::
                !(arr1 + 1 < staticRoots[i] < arr1 + 2 + size) && !(arr2 + 1 < staticRoots[i] < arr2 + 2 + size)
    {
      StartsAreObjects(s.m, memoryPointer, memoryTop);
      hide Tiled, Starts;
    }

    /** Both spaces; the static one is empty. */
    method MapSpaces(arr1: nat, arr2: nat, size: nat)
      requires Valid() && Arrays(mem[..], Starts(mem[..], memoryPointer, memoryTop), arr1, arr2, size)
      modifies mem
      ensures Exchanged(old(mem[..]), mem[..], old(Starts(mem[..], memoryPointer, memoryTop)), arr1, arr2, size, [])
      ensures Elements(mem[..], arr1, size) == old(Elements(mem[..], arr1, size)) && Elements(mem[..], arr2, size) == old(Elements(mem[..], arr2, size))
    {
      ghost var m, objs := mem[..], Starts(mem[..], memoryPointer, memoryTop);
      StartsAreObjects(m, memoryPointer, memoryTop);
      hide Exchanged, Arrays, Elements, Objects, Starts;
      Walk(memoryPointer, memoryTop, arr1, arr2, size);
      ghost var m1 := mem[..];
      Walk(staticPointer, staticTop, arr1, arr2, size);
      NoneMapped(m1, mem[..], arr1, arr2, size);
      ExchangeKeeps(m, m1, objs, memoryPointer, memoryTop, arr1, arr2, size, []);
    }

    /** Then the heap is again one that a collection can start from. */
    lemma RootsSwapped(s: Start, arr1: nat, arr2: nat, size: nat)
      requires Matches(s, memoryPointer) && |s.m| == mem.Length && Tiled(s.m, memoryPointer, memoryTop) && s.objs == Starts(s.m, memoryPointer, memoryTop)
      requires Arrays(s.m, s.objs, arr1, arr2, size)
      requires |s.roots| == rootTop + staticRootTop && s.roots[rootTop..] == Cells(s.m, staticRootTop)
      requires AllSwapped(Elements(s.m, arr1, size), Elements(s.m, arr2, size), s.roots[..rootTop], rootStack[..rootTop])
      requires Exchanged(s.m, mem[..], s.objs, arr1, arr2, size, staticRoots[..staticRootTop])
      ensures Valid() && Starts(mem[..], memoryPointer, memoryTop) == s.objs
      ensures s.Valid() ==> Heap(memoryPointer).Valid()
    {
      var cells, s' := staticRoots[..staticRootTop], s.(m := mem[..], roots := Roots());
      CellsOutside(s, arr1, arr2, size);
      ExchangeTiled(s.m, mem[..], memoryPointer, memoryTop, arr1, arr2, size, cells);
      RootsAreSwapped(s, arr1, arr2, size);
      hide Heap, ValidFrom, Arrays, Tiled, Starts, Exchanged, Elements, AllSwapped, Swap, Start.Valid, Objects;
      assert Matches(s', memoryPointer) && |mem[..]| == mem.Length;
      HeapIs(s', memoryPointer);
      if s.Valid() { ExchangeSound(s, mem[..], Roots(), arr1, arr2, size, cells); }
    }

    lemma RootsAreSwapped(s: Start, arr1: nat, arr2: nat, size: nat)
      requires StaticsOk() && Fixed() && rootTop <= rootStack.Length && |s.m| == mem.Length
      requires |s.roots| == rootTop + staticRootTop && s.roots[rootTop..] == Cells(s.m, staticRootTop)
      requires AllSwapped(Elements(s.m, arr1, size), Elements(s.m, arr2, size), s.roots[..rootTop], rootStack[..rootTop])
      requires Exchanged(s.m, mem[..], s.objs, arr1, arr2, size, staticRoots[..staticRootTop])
      ensures AllSwapped(Elements(s.m, arr1, size), Elements(s.m, arr2, size), s.roots, Roots())
    {
      hide Swap, Elements;
      var a1, a2, cells := Elements(s.m, arr1, size), Elements(s.m, arr2, size), staticRoots[..staticRootTop];
      forall i | 0 <= i < staticRootTop
        ensures Cells(mem[..], staticRootTop)[i] == Swap(a1, a2, Cells(s.m, staticRootTop)[i])
      {
        assert staticRoots[i] == cells[i] && cells[i] in cells;
      }
      forall i | 0 <= i < |s.roots|
        ensures Roots()[i] == Swap(a1, a2, s.roots[i])
      {
        if i < rootTop { assert s.roots[i] == s.roots[..rootTop][i]; } else { assert s.roots[i] == s.roots[rootTop..][i - rootTop]; }
      }
    }

    method MapRootStack(arr1: nat, arr2: nat, size: nat)
      requires arr1 + 2 + size <= mem.Length && arr2 + 2 + size <= mem.Length
      requires rootTop <= rootStack.Length && mem != rootStack
      modifies rootStack
      ensures AllSwapped(Elements(mem[..], arr1, size), Elements(mem[..], arr2, size), old(rootStack[..rootTop]), rootStack[..rootTop])
      ensures rootStack[rootTop..] == old(rootStack[rootTop..])
    {
      ghost var a1, a2 := Elements(mem[..], arr1, size), Elements(mem[..], arr2, size);
      var x := 0;
      while x < rootTop
        invariant 0 <= x <= rootTop
        invariant forall i | 0 <= i < rootStack.Length ::
                    rootStack[i] == if i < x then Swap(a1, a2, old(rootStack[i])) else old(rootStack[i])
      {
        var r := MapOop(rootStack[x], arr1, arr2, size);
        rootStack[x] := r;
        x := x + 1;
      }
    }

    method MapStaticRoots(arr1: nat, arr2: nat, size: nat)
      requires StaticsOk()
      requires arr1 + 2 + size <= mem.Length && arr2 + 2 + size <= mem.Length
      requires forall i | 0 <= i < staticRootTop ::
                 !(arr1 + 1 < staticRoots[i] < arr1 + 2 + size) && !(arr2 + 1 < staticRoots[i] < arr2 + 2 + size)
      modifies mem
      ensures forall a {:trigger mem[a]} | 0 <= a < mem.Length ::
                mem[a] == if a in staticRoots[..staticRootTop]
                          then Swap(Elements(old(mem[..]), arr1, size), Elements(old(mem[..]), arr2, size), old(mem[a]))
                          else old(mem[a])
    {
      ghost var m := mem[..];
      ghost var a1, a2 := Elements(m, arr1, size), Elements(m, arr2, size);
      var x := 0;
      while x < staticRootTop
        invariant 0 <= x <= staticRootTop
        invariant forall a {:trigger mem[a]} | 0 <= a < mem.Length ::
                    mem[a] == if a in staticRoots[..x] then Swap(a1, a2, m[a]) else m[a]
      {
        var c := staticRoots[x];
        assert c !in staticRoots[..x];
        var r := MapOop(mem[c], arr1, arr2, size);
        assert Elements(mem[..], arr1, size) == a1 && Elements(mem[..], arr2, size) == a2;
        mem[c] := r;
        assert staticRoots[..x + 1] == staticRoots[..x] + [c];
        x := x + 1;
      }
    }

    /** gcinit, given where the two blocks were placed: an empty space one is current. */
    constructor (arena: array<Word>, one: nat, two: nat, words: nat, top: nat)
      requires 0 < one && one + words < arena.Length && 0 < two && two + words < arena.Length
      requires (one + words < two || two + words < one) && top <= arena.Length
      ensures Valid() && Heap(memoryPointer).Valid()
      ensures mem == arena && memoryPointer == memoryTop == one + words && memoryBase == one && oldBase == two
      ensures rootTop == staticRootTop == 0 && rootStack.Length == 2000 && staticRoots.Length == 200
    {
      mem, spaceOne, spaceTwo, spaceWords := arena, one, two, words;
      staticPointer, staticTop := top, top;
      inSpaceOne := true;
      memoryBase, memoryPointer, memoryTop := one, one + words, one + words;
      oldBase, oldTop := two, two + words;
      rootStack := new Word[ROOT_STACK_LIMIT](_ => NULL);
      staticRoots := new nat[STATIC_ROOT_LIMIT](_ => 0);
      rootTop, staticRootTop := 0, 0;
    }
  }

  /** The objects stay where they are. */
  lemma {:induction false} ExchangeTiled(m: seq<Word>, m': seq<Word>, lo: nat, hi: nat, arr1: nat, arr2: nat, size: nat, cells: seq<nat>)
    requires Tiled(m, lo, hi) && Objects(m, Starts(m, lo, hi), lo, hi) && hi <= |m| && Arrays(m, Starts(m, lo, hi), arr1, arr2, size)
    requires Exchanged(m, m', Starts(m, lo, hi), arr1, arr2, size, cells) && forall c | c in cells :: c < lo || hi <= c
    ensures Tiled(m', lo, hi) && Starts(m', lo, hi) == Starts(m, lo, hi)
  {
    ExchangeKeeps(m, m', Starts(m, lo, hi), lo, hi, arr1, arr2, size, cells);
    hide Exchanged, Arrays, Tiled, Starts;
    TiledFrame(m, m', lo, hi);
  }
}
