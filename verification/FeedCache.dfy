/**
 The per-process level of the Feed cache: a least-recently-used list of one entry per Feed,
 and what it remembers after any sequence of calls (src/copycast/adapters/api/cache.py:210-255).
 */
module FeedCache {
  import opened Basics
  import opened CacheModel

  // The feeds, least recently kept or hit first, and their entries.
  datatype Lru = Lru(order: seq<string>, entries: map<string, CachedFeed>)

  const EMPTY := Lru([], map[])

  function Without(order: seq<string>, feed: string): seq<string> {
    if order == [] then []
    else if order[0] == feed then Without(order[1..], feed)
    else [order[0]] + Without(order[1..], feed)
  }

  predicate Hits(l: Lru, feed: string, revision: int) {
    feed in l.entries && l.entries[feed].revision == revision
  }

  function Refreshed(l: Lru, feed: string): Lru {
    l.(order := Without(l.order, feed) + [feed])
  }

  // `popitem(last=False)` while there are more than `capacity` feeds.
  function Evicted(l: Lru, capacity: nat): Lru
    decreases |l.order|
  {
    if |l.order| <= capacity then l
    else Evicted(Lru(l.order[1..], l.entries - {l.order[0]}), capacity)
  }

  function Kept(l: Lru, capacity: nat, feed: string, entry: CachedFeed): Lru {
    Evicted(Refreshed(l.(entries := l.entries[feed := entry]), feed), capacity)
  }

  function Dropped(l: Lru, feed: string): Lru {
    Lru(Without(l.order, feed), l.entries - {feed})
  }

  ghost predicate Valid(l: Lru, capacity: nat) {
    && |l.order| <= capacity
    && (forall f :: f in l.order <==> f in l.entries)
    && (forall i, j :: 0 <= i < j < |l.order| ==> l.order[i] != l.order[j])
  }

  lemma {:induction false} WithoutRemoves(order: seq<string>, feed: string)
    requires forall i, j :: 0 <= i < j < |order| ==> order[i] != order[j]
    ensures var o := Without(order, feed);
            && (forall f :: f in o <==> f in order && f != feed)
            && (forall i, j :: 0 <= i < j < |o| ==> o[i] != o[j])
            && |o| == |order| - (if feed in order then 1 else 0)
  {
    if order != [] {
      WithoutRemoves(order[1..], feed);
      var o := Without(order[1..], feed);
      assert forall f :: f in order <==> f == order[0] || f in order[1..];
      if order[0] != feed {
        assert order[0] !in order[1..];
        assert forall f :: f in [order[0]] + o <==> f == order[0] || f in o;
      }
    }
  }

  lemma EvictedShape(l: Lru, capacity: nat)
    requires |l.order| <= capacity + 1
    ensures Evicted(l, capacity) ==
            if |l.order| > capacity then Lru(l.order[1..], l.entries - {l.order[0]}) else l
  {
    if |l.order| > capacity {
      var l' := Lru(l.order[1..], l.entries - {l.order[0]});
      assert |l'.order| <= capacity && Evicted(l', capacity) == l';
    }
  }

  lemma EvictedValid(l: Lru, capacity: nat)
    requires Valid(l, capacity + 1)
    ensures Valid(Evicted(l, capacity), capacity)
  {
    EvictedShape(l, capacity);
    if |l.order| > capacity {
      assert l.order == [l.order[0]] + l.order[1..];
    }
  }

  lemma AddedValid(l: Lru, capacity: nat, feed: string, entry: CachedFeed)
    requires Valid(l, capacity)
    ensures Valid(Refreshed(l.(entries := l.entries[feed := entry]), feed), capacity + 1)
  {
    WithoutRemoves(l.order, feed);
    var o := Without(l.order, feed) + [feed];
    assert forall f :: f in o <==> f in Without(l.order, feed) || f == feed;
  }

  // Keeping an entry evicts at most the least recent other feed.
  lemma KeptShape(l: Lru, capacity: nat, feed: string, entry: CachedFeed)
    requires Valid(l, capacity) && capacity > 0
    ensures var l' := Kept(l, capacity, feed, entry);
            && Valid(l', capacity) && feed in l'.entries && l'.entries[feed] == entry
            && (if feed in l.order || |l.order| < capacity then
                  && l'.order == Without(l.order, feed) + [feed]
                  && l'.entries == l.entries[feed := entry]
                else
                  && l'.order == l.order[1..] + [feed]
                  && l'.entries == l.entries[feed := entry] - {l.order[0]})
  {
    var added := Refreshed(l.(entries := l.entries[feed := entry]), feed);
    AddedValid(l, capacity, feed, entry);
    EvictedValid(added, capacity);
    EvictedShape(added, capacity);
    WithoutRemoves(l.order, feed);
    if feed !in l.order {
      WithoutAbsent(l.order, feed);
      if |l.order| == capacity {
        assert added.order[0] == l.order[0] && added.order[1..] == l.order[1..] + [feed];
        assert l.order[0] in l.order;
      }
    }
  }

  lemma {:induction false} WithoutAbsent(order: seq<string>, feed: string)
    requires feed !in order
    ensures Without(order, feed) == order
  {
    if order != [] {
      WithoutAbsent(order[1..], feed);
    }
  }

  lemma RefreshedShape(l: Lru, capacity: nat, feed: string)
    requires Valid(l, capacity) && feed in l.entries
    ensures Valid(Refreshed(l, feed), capacity)
  {
    WithoutRemoves(l.order, feed);
    var o := Without(l.order, feed) + [feed];
    assert forall f :: f in o <==> f in Without(l.order, feed) || f == feed;
  }

  lemma DroppedShape(l: Lru, capacity: nat, feed: string)
    requires Valid(l, capacity)
    ensures Valid(Dropped(l, feed), capacity)
  {
    WithoutRemoves(l.order, feed);
  }

  class Cache {
    const capacity: nat
    var order: seq<string>
    var entries: map<string, CachedFeed>
    var hits: nat
    var misses: nat

    function State(): Lru
      reads this
    {
      Lru(order, entries)
    }

    ghost predicate Ok()
      reads this
    {
      capacity > 0 && Valid(State(), capacity)
    }

    constructor (capacity: int)
      ensures Ok() && State() == EMPTY && this.capacity == (if capacity > 1 then capacity else 1)
    {
      this.capacity := if capacity > 1 then capacity else 1;
      order, entries, hits, misses := [], map[], 0, 0;
    }

    method MoveToEnd(feed: string)
      modifies this`order
      ensures order == Without(old(order), feed) + [feed]
    {
      var rest: seq<string> := [];
      var i := 0;
      while i < |order|
        invariant 0 <= i <= |order|
        invariant rest + Without(order[i..], feed) == Without(order, feed)
      {
        if order[i] != feed {
          rest := rest + [order[i]];
        }
        i := i + 1;
      }
      assert rest == Without(order, feed);
      order := rest + [feed];
    }

    method Get(feed: string, revision: int) returns (entry: Option<CachedFeed>)
      requires Ok()
      modifies this
      ensures Ok()
      ensures entry.Some? <==> feed in old(entries) && old(entries)[feed].revision == revision
      ensures Hits(old(State()), feed, revision) ==>
                && entry == Some(old(entries)[feed]) && State() == Refreshed(old(State()), feed)
                && hits == old(hits) + 1 && misses == old(misses)
      ensures !Hits(old(State()), feed, revision) ==>
                entry.None? && State() == old(State()) && hits == old(hits) && misses == old(misses) + 1
    {
      if feed !in entries || entries[feed].revision != revision {
        misses := misses + 1;
        return None;
      }
      RefreshedShape(State(), capacity, feed);
      MoveToEnd(feed);
      hits := hits + 1;
      entry := Some(entries[feed]);
    }

    method Keep(feed: string, entry: CachedFeed)
      requires Ok()
      modifies this`order, this`entries
      ensures Ok() && State() == Kept(old(State()), capacity, feed, entry)
    {
      KeptShape(State(), capacity, feed, entry);
      entries := entries[feed := entry];
      MoveToEnd(feed);
      while |order| > capacity
        invariant Evicted(State(), capacity) == Kept(old(State()), capacity, feed, entry)
        decreases |order|
      {
        order, entries := order[1..], entries - {order[0]};
      }
    }

    method Invalidate(feed: string)
      requires Ok()
      modifies this`order, this`entries
      ensures Ok() && State() == Dropped(old(State()), feed)
    {
      DroppedShape(State(), capacity, feed);
      MoveToEnd(feed);
      order := order[..|order| - 1];
      entries := entries - {feed};
    }
  }

  // ------------------------------------------------------------------ any sequence of calls

  datatype Call = Keep(feed: string, entry: CachedFeed) | Get(feed: string, revision: int) | Invalidate(feed: string)

  function After(capacity: nat, calls: seq<Call>): Lru {
    if calls == [] then EMPTY
    else
      var l := After(capacity, calls[..|calls| - 1]);
      match calls[|calls| - 1]
      case Keep(f, e) => Kept(l, capacity, f, e)
      case Get(f, r) => if Hits(l, f, r) then Refreshed(l, f) else l
      case Invalidate(f) => Dropped(l, f)
  }

  // The entry last kept for `feed` and not invalidated since.
  function LastKept(calls: seq<Call>, feed: string): Option<CachedFeed> {
    if calls == [] then None
    else
      match calls[|calls| - 1]
      case Keep(f, e) => if f == feed then Some(e) else LastKept(calls[..|calls| - 1], feed)
      case Get(_, _) => LastKept(calls[..|calls| - 1], feed)
      case Invalidate(f) => if f == feed then None else LastKept(calls[..|calls| - 1], feed)
  }

  // The feed the last call kept or hit, if any.
  function Touched(capacity: nat, calls: seq<Call>): Option<string>
    requires calls != []
  {
    match calls[|calls| - 1]
    case Keep(f, _) => Some(f)
    case Get(f, r) => if Hits(After(capacity, calls[..|calls| - 1]), f, r) then Some(f) else None
    case Invalidate(_) => None
  }

  // The other feeds kept or hit since `feed` last was.
  function Since(capacity: nat, calls: seq<Call>, feed: string): set<string> {
    if calls == [] then {}
    else
      var touched := Touched(capacity, calls);
      if touched == Some(feed) then {}
      else Since(capacity, calls[..|calls| - 1], feed) + (if touched.Some? then {touched.value} else {})
  }

  lemma {:induction false} AfterValid(capacity: nat, calls: seq<Call>)
    requires capacity > 0
    ensures Valid(After(capacity, calls), capacity)
  {
    if calls != [] {
      var l := After(capacity, calls[..|calls| - 1]);
      AfterValid(capacity, calls[..|calls| - 1]);
      match calls[|calls| - 1]
      case Keep(f, e) => KeptShape(l, capacity, f, e);
      case Get(f, r) => if Hits(l, f, r) { RefreshedShape(l, capacity, f); }
      case Invalidate(f) => DroppedShape(l, capacity, f);
    }
  }

  // The feeds after `feed` in the list, so kept or hit more recently.
  function Newer(order: seq<string>, feed: string): set<string> {
    if order == [] then {}
    else if order[0] == feed then set f | f in order[1..]
    else Newer(order[1..], feed)
  }

  lemma {:induction false} NewerMoved(order: seq<string>, g: string, feed: string)
    requires feed in order && feed != g
    requires forall i, j :: 0 <= i < j < |order| ==> order[i] != order[j]
    ensures Newer(Without(order, g) + [g], feed) == Newer(order, feed) + {g}
    ensures Newer(Without(order, g), feed) == Newer(order, feed) - {g}
  {
    var o := Without(order, g);
    if order[0] == feed {
      var rest := Without(order[1..], g);
      WithoutRemoves(order[1..], g);
      assert (o + [g])[1..] == rest + [g] && o[1..] == rest;
      assert forall f :: f in rest + [g] <==> f in rest || f == g;
    } else {
      NewerMoved(order[1..], g, feed);
      if order[0] == g {
        assert order[0] !in order[1..];
        WithoutAbsent(order[1..], g);
        NewerWithin(order[1..], feed);
        assert o == order[1..];
      } else {
        assert (o + [g])[1..] == Without(order[1..], g) + [g];
        assert o[1..] == Without(order[1..], g);
      }
    }
  }

  lemma {:induction false} NewerWithin(order: seq<string>, feed: string)
    requires feed in order
    ensures forall f :: f in Newer(order, feed) ==> f in order
    ensures |Newer(order, feed)| < |order|
  {
    if order[0] == feed {
      SetOfSeq(order[1..]);
    } else {
      NewerWithin(order[1..], feed);
    }
  }

  lemma {:induction false} SetOfSeq(order: seq<string>)
    ensures |set f | f in order| <= |order|
    ensures (forall i, j :: 0 <= i < j < |order| ==> order[i] != order[j]) ==> |set f | f in order| == |order|
  {
    if order != [] {
      SetOfSeq(order[1..]);
      assert (set f | f in order) == {order[0]} + (set f | f in order[1..]);
    }
  }

  predicate NoInvalidate(calls: seq<Call>) {
    forall i :: 0 <= i < |calls| ==> !calls[i].Invalidate?
  }

  lemma NewerKeptSelf(l: Lru, capacity: nat, e: CachedFeed, feed: string)
    requires Valid(l, capacity) && capacity > 0
    ensures Newer(Kept(l, capacity, feed, e).order, feed) == {}
  {
    KeptShape(l, capacity, feed, e);
    WithoutRemoves(l.order, feed);
    if feed in l.order || |l.order| < capacity {
      NewerLast(Without(l.order, feed), feed);
    } else {
      NewerLast(l.order[1..], feed);
    }
  }

  lemma NewerShifted(order: seq<string>, g: string, feed: string)
    requires order != [] && feed in order[1..] && order[0] != feed && g !in order
    requires forall i, j :: 0 <= i < j < |order| ==> order[i] != order[j]
    ensures Newer(order[1..] + [g], feed) == Newer(order, feed) + {g}
  {
    WithoutAbsent(order[1..], g);
    NewerMoved(order[1..], g, feed);
    NewerTail(order, feed);
  }

  lemma NewerKeptOther(l: Lru, capacity: nat, g: string, e: CachedFeed, feed: string)
    requires Valid(l, capacity) && capacity > 0 && g != feed && feed in Kept(l, capacity, g, e).entries
    ensures feed in l.entries && Kept(l, capacity, g, e).entries[feed] == l.entries[feed]
    ensures Newer(Kept(l, capacity, g, e).order, feed) == Newer(l.order, feed) + {g}
  {
    KeptShape(l, capacity, g, e);
    assert feed in l.entries && feed in l.order;
    if g in l.order || |l.order| < capacity {
      NewerMoved(l.order, g, feed);
    } else {
      assert l.order[0] != feed;
      assert feed in l.order[1..];
      NewerShifted(l.order, g, feed);
    }
  }

  // A feed still in the list: its entry is the last one kept, and the feeds listed after it
  // were all kept or hit since it last was (exactly those, when nothing was invalidated).
  lemma {:induction false} Remembered(capacity: nat, calls: seq<Call>, feed: string)
    requires capacity > 0 && feed in After(capacity, calls).entries
    ensures LastKept(calls, feed) == Some(After(capacity, calls).entries[feed])
    ensures Newer(After(capacity, calls).order, feed) <= Since(capacity, calls, feed)
    ensures NoInvalidate(calls) ==> Newer(After(capacity, calls).order, feed) == Since(capacity, calls, feed)
  {
    var before := calls[..|calls| - 1];
    var l := After(capacity, before);
    AfterValid(capacity, before);
    var call := calls[|calls| - 1];
    if call.Keep? {
      KeptShape(l, capacity, call.feed, call.entry);
      if call.feed != feed {
        NewerKeptOther(l, capacity, call.feed, call.entry, feed);
        Remembered(capacity, before, feed);
      } else {
        NewerKeptSelf(l, capacity, call.entry, feed);
      }
    } else {
      Remembered(capacity, before, feed);
      if call.Invalidate? || (call.Get? && Hits(l, call.feed, call.revision)) {
        NewerTouched(l.order, call.feed, feed);
      }
    }
  }

  lemma NewerTouched(order: seq<string>, g: string, feed: string)
    requires forall i, j :: 0 <= i < j < |order| ==> order[i] != order[j]
    ensures g == feed ==> Newer(Without(order, feed) + [feed], feed) == {}
    ensures g != feed && feed in order ==>
              && Newer(Without(order, g), feed) == Newer(order, feed) - {g}
              && Newer(Without(order, g) + [g], feed) == Newer(order, feed) + {g}
  {
    if g == feed {
      WithoutRemoves(order, feed);
      NewerLast(Without(order, feed), feed);
    } else if feed in order {
      NewerMoved(order, g, feed);
    }
  }

  lemma {:induction false} NewerLast(order: seq<string>, feed: string)
    requires feed !in order
    ensures Newer(order + [feed], feed) == {}
  {
    if order != [] {
      assert (order + [feed])[1..] == order[1..] + [feed];
      NewerLast(order[1..], feed);
    }
  }

  lemma NewerTail(order: seq<string>, feed: string)
    requires order != []
    ensures order[0] != feed ==> Newer(order[1..], feed) == Newer(order, feed)
  {
  }

  // Only keeping another feed, with the list full and `feed` first in it, evicts `feed`.
  lemma EvictionCase(l: Lru, capacity: nat, g: string, e: CachedFeed, feed: string)
    requires Valid(l, capacity) && capacity > 0
    requires feed in l.entries && feed !in Kept(l, capacity, g, e).entries
    ensures g != feed && g !in Newer(l.order, feed) && |Newer(l.order, feed) + {g}| == capacity
  {
    KeptShape(l, capacity, g, e);
    SetOfSeq(l.order[1..]);
    assert l.order[0] == feed;
    assert g !in l.order;
  }

  // A feed is evicted only after `capacity` other feeds were kept or hit since it last was.
  lemma {:induction false} EvictedLate(capacity: nat, calls: seq<Call>, feed: string)
    requires capacity > 0 && LastKept(calls, feed).Some? && feed !in After(capacity, calls).entries
    ensures |Since(capacity, calls, feed)| >= capacity
  {
    var before := calls[..|calls| - 1];
    var l := After(capacity, before);
    AfterValid(capacity, before);
    var call := calls[|calls| - 1];
    if call.Keep? {
      KeptShape(l, capacity, call.feed, call.entry);
    }
    if feed in l.entries {
      EvictionCase(l, capacity, call.feed, call.entry, feed);
      Remembered(capacity, before, feed);
      SubsetSize(Newer(l.order, feed) + {call.feed}, Since(capacity, calls, feed));
    } else {
      EvictedLate(capacity, before, feed);
      SubsetSize(Since(capacity, before, feed), Since(capacity, calls, feed));
    }
  }

  // The list after any calls, with no recency list in sight: never more feeds than the
  // capacity; what it answers is the last entry kept, at its own revision; and, when nothing
  // was invalidated, it holds exactly the feeds with fewer than `capacity` others since.
  lemma RefinesRecency(capacity: nat, calls: seq<Call>, feed: string, revision: int)
    requires capacity > 0
    ensures var l := After(capacity, calls);
            && |l.entries.Keys| <= capacity
            && (Hits(l, feed, revision) ==>
                  LastKept(calls, feed) == Some(l.entries[feed]) && l.entries[feed].revision == revision)
            && (LastKept(calls, feed).Some? && |Since(capacity, calls, feed)| < capacity ==>
                  feed in l.entries && l.entries[feed] == LastKept(calls, feed).value)
            && (NoInvalidate(calls) ==>
                  (feed in l.entries <==>
                   LastKept(calls, feed).Some? && |Since(capacity, calls, feed)| < capacity))
  {
    var l := After(capacity, calls);
    AfterValid(capacity, calls);
    SetOfSeq(l.order);
    assert l.entries.Keys == set f | f in l.order;
    if feed in l.entries {
      Remembered(capacity, calls, feed);
      NewerWithin(l.order, feed);
    } else if LastKept(calls, feed).Some? {
      EvictedLate(capacity, calls, feed);
    }
  }
}
