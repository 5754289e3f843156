/** The method cache in front of lookupMethod. */
module MethodCaching {
  import opened Options
  import opened MethodLookup

  const METHOD_CACHE_SIZE := 703

  datatype Entry = Entry(name: Option<nat>, class_: nat, method_: nat)

  /** An entry in use is what a lookup would find now. */
  ghost predicate Current(e: Entry, m: Image, rank: map<nat, nat>)
    requires WellFormed(m, rank)
  {
    e.name.Some? ==> e.name.value in m.symbols && e.class_ in m.classes && Nearest(m, rank, Some(e.class_), e.name.value) == Some(e.method_)
  }

  /** What happens between two sends: dictionaries and class chains may change, and the cache may be
      flushed -- as it is by every collection, which moves every object. */
  datatype Event =
    | Send(selector: nat, class_: nat)
    | Change(image: Image, ghost rank: map<nat, nat>)
    | Flush

  /** A run in which no send comes between a change and the next flush. */
  ghost predicate Disciplined(events: seq<Event>, changed: bool, m: Image, rank: map<nat, nat>)
    requires WellFormed(m, rank)
  {
    events == [] ||
    match events[0]
    case Send(s, c) => !changed && s in m.symbols && c in m.classes && Disciplined(events[1..], false, m, rank)
    case Change(m', r') => WellFormed(m', r') && Disciplined(events[1..], true, m', r')
    case Flush => Disciplined(events[1..], false, m, rank)
  }

  /** The methods the sends of a run come to when each is looked up afresh. */
  ghost function Fresh(events: seq<Event>, changed: bool, m: Image, rank: map<nat, nat>): seq<Option<nat>>
    requires WellFormed(m, rank) && Disciplined(events, changed, m, rank)
  {
    if events == [] then []
    else
      match events[0]
      case Send(s, c) => [Nearest(m, rank, Some(c), s)] + Fresh(events[1..], false, m, rank)
      case Change(m', r') => Fresh(events[1..], true, m', r')
      case Flush => Fresh(events[1..], false, m, rank)
  }

  class MethodCache {
    var entries: array<Entry>

    ghost predicate Valid()
      reads this
    {
      entries.Length == METHOD_CACHE_SIZE
    }

    ghost predicate Agrees(m: Image, rank: map<nat, nat>)
      requires WellFormed(m, rank)
      reads this, entries
    {
      forall i | 0 <= i < entries.Length :: Current(entries[i], m, rank)
    }

    constructor ()
      ensures Valid() && fresh(entries) && entries.Length == 703 && forall i | 0 <= i < entries.Length :: entries[i].name.None?
    {
      entries := new Entry[METHOD_CACHE_SIZE](_ => Entry(None, 0, 0));
    }

    /** flushCache */
    method FlushCache()
      requires Valid()
      modifies entries
      ensures forall i | 0 <= i < entries.Length :: entries[i].name.None?
    {
      for i := 0 to METHOD_CACHE_SIZE
        invariant forall j | 0 <= j < i :: entries[j].name.None?
      {
        entries[i] := entries[i].(name := None);
      }
    }

    /** checkCache: a hit, or a lookup whose success is remembered.  A send to super differs only in the
        class it starts from. */
    method Find(m: Image, selector: nat, class_: nat, ghost rank: map<nat, nat>) returns (r: Option<nat>)
      requires Valid() && WellFormed(m, rank) && Agrees(m, rank) && selector in m.symbols && class_ in m.classes
      modifies entries
      ensures Agrees(m, rank) && r == Nearest(m, rank, Some(class_), selector)
    {
      var low := (selector + class_) % METHOD_CACHE_SIZE;
      if entries[low].name == Some(selector) && entries[low].class_ == class_ {
        return Some(entries[low].method_);
      }
      r := LookupMethod(m, Some(selector), Some(class_), rank);
      if r.Some? {
        entries[low] := Entry(Some(selector), class_, r.value);
      }
    }

    /** A whole run with the cache finds what lookups without it would. */
    method Replay(events: seq<Event>, image: Image, ghost rank: map<nat, nat>) returns (answers: seq<Option<nat>>)
      requires Valid() && WellFormed(image, rank) && Agrees(image, rank) && Disciplined(events, false, image, rank)
      modifies entries
      ensures answers == Fresh(events, false, image, rank)
    {
      answers := [];
      var m := image;
      ghost var r := rank;
      ghost var changed := false;
      var k := 0;
      assert events[0..] == events;
      while k < |events|
        invariant k <= |events| && WellFormed(m, r) && (!changed ==> Agrees(m, r)) && Disciplined(events[k..], changed, m, r)
        invariant answers + Fresh(events[k..], changed, m, r) == Fresh(events, false, image, rank)
      {
        assert events[k..][0] == events[k] && events[k..][1..] == events[k + 1..];
        match events[k] {
          case Send(s, c) =>
            var f := Find(m, s, c, r);
            answers := answers + [f];
          case Change(m', r') =>
            m, r, changed := m', r', true;
          case Flush =>
            FlushCache();
            changed := false;
        }
        k := k + 1;
      }
      assert events[k..] == [];
    }
  }
}
