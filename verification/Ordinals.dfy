/** Numbering a Catalog's items, oldest first and once (src/copycast/domain/ordinals.py). */
module Ordinals {
  import opened Basics

  // What the numbering reads of a listed item; dates are seconds.
  datatype Item = Item(key: string, published: Option<int>, position: nat)

  type SortKey = (int, int)

  predicate Less(a: SortKey, b: SortKey) {
    a.0 < b.0 || (a.0 == b.0 && a.1 < b.1)
  }

  // ------------------------------------------------------------------ `sorted`

  function Insert(x: Item, s: seq<Item>, key: Item -> SortKey): seq<Item> {
    if s == [] then [x]
    else if Less(key(x), key(s[|s| - 1])) then Insert(x, s[..|s| - 1], key) + [s[|s| - 1]]
    else s + [x]
  }

  // A stable sort: an item goes after those it does not come before.
  function SortBy(items: seq<Item>, key: Item -> SortKey): seq<Item> {
    if items == [] then []
    else Insert(items[|items| - 1], SortBy(items[..|items| - 1], key), key)
  }

  ghost predicate Sorted(s: seq<Item>, key: Item -> SortKey) {
    forall i, j :: 0 <= i < j < |s| ==> !Less(key(s[j]), key(s[i]))
  }

  ghost predicate Strict(s: seq<Item>, key: Item -> SortKey) {
    forall i, j :: 0 <= i < j < |s| ==> Less(key(s[i]), key(s[j]))
  }

  lemma {:induction false} InsertHas(x: Item, s: seq<Item>, key: Item -> SortKey)
    ensures multiset(Insert(x, s, key)) == multiset(s) + multiset{x}
    ensures forall y :: y in Insert(x, s, key) ==> y == x || y in s
  {
    if s != [] && Less(key(x), key(s[|s| - 1])) {
      InsertHas(x, s[..|s| - 1], key);
      assert s == s[..|s| - 1] + [s[|s| - 1]];
    }
  }

  lemma {:induction false} InsertSorts(x: Item, s: seq<Item>, key: Item -> SortKey)
    requires Sorted(s, key)
    ensures Sorted(Insert(x, s, key), key)
  {
    if s != [] && Less(key(x), key(s[|s| - 1])) {
      var init, last := s[..|s| - 1], s[|s| - 1];
      InsertSorts(x, init, key);
      InsertHas(x, init, key);
      forall y | y in Insert(x, init, key) ensures !Less(key(last), key(y)) {
        if y != x {
          var k :| 0 <= k < |init| && init[k] == y;
          assert s[k] == y;
        }
      }
    }
  }

  lemma {:induction false} SortSorts(items: seq<Item>, key: Item -> SortKey)
    ensures multiset(SortBy(items, key)) == multiset(items)
    ensures Sorted(SortBy(items, key), key)
  {
    if items != [] {
      var init := items[..|items| - 1];
      SortSorts(init, key);
      InsertSorts(items[|items| - 1], SortBy(init, key), key);
      InsertHas(items[|items| - 1], SortBy(init, key), key);
      assert items == init + [items[|items| - 1]];
    }
  }

  lemma LastIsLargest(a: seq<Item>, y: Item, key: Item -> SortKey)
    requires Strict(a, key) && y in a
    ensures y == a[|a| - 1] || Less(key(y), key(a[|a| - 1]))
  {
  }

  lemma WithoutLast(a: seq<Item>)
    requires a != []
    ensures multiset(a[..|a| - 1]) == multiset(a) - multiset{a[|a| - 1]}
  {
    assert a == a[..|a| - 1] + [a[|a| - 1]];
  }

  // Two strictly sorted sequences of the same items are the same.
  lemma {:induction false} StrictUnique(a: seq<Item>, b: seq<Item>, key: Item -> SortKey)
    requires Strict(a, key) && Strict(b, key) && multiset(a) == multiset(b)
    ensures a == b
  {
    assert |a| == |multiset(a)| == |multiset(b)| == |b|;
    if a != [] {
      var x, y := a[|a| - 1], b[|b| - 1];
      assert x in multiset(b) && y in multiset(a);
      LastIsLargest(a, y, key);
      LastIsLargest(b, x, key);
      WithoutLast(a);
      WithoutLast(b);
      StrictUnique(a[..|a| - 1], b[..|b| - 1], key);
      assert a == a[..|a| - 1] + [x] && b == b[..|b| - 1] + [y];
    }
  }

  // ------------------------------------------------------------------ the order of a batch

  function Reversed<T>(s: seq<T>): seq<T> {
    if s == [] then [] else Reversed(s[1..]) + [s[0]]
  }

  function ByPosition(items: seq<Item>, newestFirst: bool): seq<Item> {
    var ordered := SortBy(items, (i: Item) => (i.position, 0));
    if newestFirst then Reversed(ordered) else ordered
  }

  predicate AllDated(items: seq<Item>) {
    forall i :: 0 <= i < |items| ==> items[i].published.Some?
  }

  // The index of a key's (last) item.
  function RankIn(items: seq<Item>, key: string): int {
    if items == [] then -1
    else if items[|items| - 1].key == key then |items| - 1
    else RankIn(items[..|items| - 1], key)
  }

  function OrderOldestFirst(items: seq<Item>, newestFirst: bool): seq<Item> {
    var positional := ByPosition(items, newestFirst);
    if items != [] && AllDated(items)
    then SortBy(positional, (i: Item) => (i.published.GetOr(0), RankIn(positional, i.key)))
    else positional
  }

  lemma {:induction false} ReversedShape<T>(s: seq<T>)
    ensures |Reversed(s)| == |s| && multiset(Reversed(s)) == multiset(s)
    ensures forall i :: 0 <= i < |s| ==> Reversed(s)[i] == s[|s| - 1 - i]
  {
    if s != [] {
      ReversedShape(s[1..]);
      assert s == [s[0]] + s[1..];
    }
  }

  lemma OrderKeeps(items: seq<Item>, newestFirst: bool)
    ensures multiset(OrderOldestFirst(items, newestFirst)) == multiset(items)
  {
    SortSorts(items, (i: Item) => (i.position, 0));
    ReversedShape(SortBy(items, (i: Item) => (i.position, 0)));
    var positional := ByPosition(items, newestFirst);
    SortSorts(positional, (i: Item) => (i.published.GetOr(0), RankIn(positional, i.key)));
  }

  // Whether `a` may come before `b` in a batch numbered oldest first.
  predicate NotNewer(items: seq<Item>, newestFirst: bool, a: Item, b: Item) {
    if AllDated(items) then a.published.GetOr(0) <= b.published.GetOr(0)
    else if newestFirst then a.position >= b.position
    else a.position <= b.position
  }

  lemma OldestFirst(items: seq<Item>, newestFirst: bool, i: nat, j: nat)
    requires i < j < |OrderOldestFirst(items, newestFirst)|
    ensures var o := OrderOldestFirst(items, newestFirst);
            NotNewer(items, newestFirst, o[i], o[j])
  {
    var byPosition := (i: Item) => (i.position as int, 0);
    var ordered := SortBy(items, byPosition);
    SortSorts(items, byPosition);
    ReversedShape(ordered);
    var positional := ByPosition(items, newestFirst);
    assert positional == if newestFirst then Reversed(ordered) else ordered;
    if items != [] && AllDated(items) {
      var key := (i: Item) => (i.published.GetOr(0), RankIn(positional, i.key));
      SortSorts(positional, key);
      assert !Less(key(OrderOldestFirst(items, newestFirst)[j]), key(OrderOldestFirst(items, newestFirst)[i]));
    } else {
      var o := OrderOldestFirst(items, newestFirst);
      assert o == positional;
      if newestFirst {
        assert !Less(byPosition(ordered[|ordered| - 1 - i]), byPosition(ordered[|ordered| - 1 - j]));
      } else {
        assert !Less(byPosition(ordered[j]), byPosition(ordered[i]));
      }
    }
  }

  // Between items of one date the listing's order decides.
  predicate ListedBefore(newestFirst: bool, a: Item, b: Item) {
    if newestFirst then a.position >= b.position else a.position <= b.position
  }

  lemma {:induction false} RankIs(items: seq<Item>, k: nat)
    requires KeysDistinct(items) && k < |items|
    ensures RankIn(items, items[k].key) == k
  {
    if k < |items| - 1 {
      assert items[..|items| - 1][k] == items[k];
      RankIs(items[..|items| - 1], k);
    }
  }

  lemma PositionalOrder(items: seq<Item>, newestFirst: bool, i: nat, j: nat)
    requires i <= j < |ByPosition(items, newestFirst)|
    ensures ListedBefore(newestFirst, ByPosition(items, newestFirst)[i], ByPosition(items, newestFirst)[j])
  {
    var byPosition := (i: Item) => (i.position as int, 0);
    var ordered := SortBy(items, byPosition);
    SortSorts(items, byPosition);
    ReversedShape(ordered);
    assert ByPosition(items, newestFirst) == if newestFirst then Reversed(ordered) else ordered;
    if i < j {
      if newestFirst {
        assert !Less(byPosition(ordered[|ordered| - 1 - i]), byPosition(ordered[|ordered| - 1 - j]));
      } else {
        assert !Less(byPosition(ordered[j]), byPosition(ordered[i]));
      }
    }
  }

  lemma PositionalKeys(items: seq<Item>, newestFirst: bool)
    requires KeysDistinct(items)
    ensures var p := ByPosition(items, newestFirst); KeysDistinct(p) && multiset(p) == multiset(items)
  {
    var ordered := SortBy(items, (i: Item) => (i.position, 0));
    SortSorts(items, (i: Item) => (i.position, 0));
    ReversedShape(ordered);
    PermutedKeys(items, ByPosition(items, newestFirst));
  }

  lemma TiesAsListed(items: seq<Item>, newestFirst: bool, i: nat, j: nat)
    requires KeysDistinct(items) && AllDated(items) && i < j < |OrderOldestFirst(items, newestFirst)|
    ensures var a, b := OrderOldestFirst(items, newestFirst)[i], OrderOldestFirst(items, newestFirst)[j];
            a.published == b.published ==> ListedBefore(newestFirst, a, b)
  {
    var positional := ByPosition(items, newestFirst);
    var key := (i: Item) => (i.published.GetOr(0), RankIn(positional, i.key));
    PositionalKeys(items, newestFirst);
    SortSorts(positional, key);
    OrderKeeps(items, newestFirst);
    var o := OrderOldestFirst(items, newestFirst);
    assert items != [] by {
      assert o[i] in multiset(items);
    }
    assert o == SortBy(positional, key) && !Less(key(o[j]), key(o[i]));
    assert o[i] in multiset(positional) && o[j] in multiset(positional);
    var x :| 0 <= x < |positional| && positional[x] == o[i];
    var y :| 0 <= y < |positional| && positional[y] == o[j];
    RankIs(positional, x);
    RankIs(positional, y);
    if o[i].published == o[j].published {
      PositionalOrder(items, newestFirst, x, y);
    }
  }

  // ------------------------------------------------------------------ assigning ordinals

  ghost predicate KeysDistinct(items: seq<Item>) {
    forall i, j :: 0 <= i < j < |items| ==> items[i].key != items[j].key
  }

  predicate HasKey(items: seq<Item>, key: string) {
    exists i :: 0 <= i < |items| && items[i].key == key
  }

  // The first item of each key.
  function Unique(items: seq<Item>): seq<Item> {
    if items == [] then []
    else
      var before := Unique(items[..|items| - 1]);
      var last := items[|items| - 1];
      if HasKey(before, last.key) then before else before + [last]
  }

  function Numbered(ordered: seq<Item>, start: nat): map<string, nat> {
    if ordered == [] then map[]
    else Numbered(ordered[..|ordered| - 1], start)[ordered[|ordered| - 1].key := start + |ordered|]
  }

  function Assigned(existingMax: nat, items: seq<Item>, newestFirst: bool): map<string, nat> {
    Numbered(OrderOldestFirst(Unique(items), newestFirst), existingMax)
  }

  lemma HasKeyMore(s: seq<Item>, x: Item, k: string)
    ensures HasKey(s + [x], k) <==> HasKey(s, k) || x.key == k
  {
    var t := s + [x];
    if HasKey(t, k) {
      var i :| 0 <= i < |t| && t[i].key == k;
      assert i < |s| ==> s[i].key == k;
    }
    if HasKey(s, k) {
      var i :| 0 <= i < |s| && s[i].key == k;
      assert t[i].key == k;
    }
    assert t[|s|] == x;
  }

  lemma {:induction false} UniqueHas(items: seq<Item>, k: string)
    ensures HasKey(Unique(items), k) <==> HasKey(items, k)
  {
    if items != [] {
      var init, last := items[..|items| - 1], items[|items| - 1];
      UniqueHas(init, k);
      HasKeyMore(init, last, k);
      HasKeyMore(Unique(init), last, k);
      assert items == init + [last];
    }
  }

  lemma {:induction false} UniqueDistinct(items: seq<Item>)
    ensures KeysDistinct(Unique(items))
  {
    if items != [] {
      UniqueDistinct(items[..|items| - 1]);
    }
  }

  // The item at i is the first of its key.
  predicate FirstOfKey(items: seq<Item>, i: nat)
    requires i < |items|
  {
    !HasKey(items[..i], items[i].key)
  }

  // Of each key it keeps the first item ...
  lemma {:induction false} UniqueKeepsFirst(items: seq<Item>, i: nat)
    requires i < |items| && FirstOfKey(items, i)
    ensures items[i] in Unique(items)
  {
    var init := items[..|items| - 1];
    if i < |init| {
      assert init[..i] == items[..i] && init[i] == items[i];
      UniqueKeepsFirst(init, i);
    } else {
      assert items[..i] == init;
      UniqueHas(init, items[i].key);
    }
  }

  // ... and no other.
  lemma {:induction false} UniqueIsFirst(items: seq<Item>, x: Item) returns (i: nat)
    requires x in Unique(items)
    ensures i < |items| && items[i] == x && FirstOfKey(items, i)
  {
    var init, last := items[..|items| - 1], items[|items| - 1];
    if x in Unique(init) {
      i := UniqueIsFirst(init, x);
      assert init[..i] == items[..i];
    } else {
      i := |init|;
      UniqueHas(init, last.key);
      assert items[..i] == init;
    }
  }

  lemma {:induction false} UniqueSame(items: seq<Item>)
    requires KeysDistinct(items)
    ensures Unique(items) == items
  {
    if items != [] {
      var init, last := items[..|items| - 1], items[|items| - 1];
      UniqueSame(init);
      assert items == init + [last];
      assert forall i :: 0 <= i < |init| ==> init[i] == items[i];
    }
  }

  // A key's number is its place in the order, after what the Catalog already had.
  lemma {:induction false} NumberedShape(ordered: seq<Item>, start: nat)
    requires KeysDistinct(ordered)
    ensures forall k :: k in Numbered(ordered, start) <==> HasKey(ordered, k)
    ensures forall i :: 0 <= i < |ordered| ==>
              ordered[i].key in Numbered(ordered, start) && Numbered(ordered, start)[ordered[i].key] == start + i + 1
  {
    if ordered != [] {
      var init, last := ordered[..|ordered| - 1], ordered[|ordered| - 1];
      NumberedShape(init, start);
      forall k ensures k in Numbered(ordered, start) <==> HasKey(ordered, k) {
        if HasKey(init, k) {
          var i :| 0 <= i < |init| && init[i].key == k;
          assert ordered[i].key == k;
        }
        if HasKey(ordered, k) {
          var i :| 0 <= i < |ordered| && ordered[i].key == k;
          assert i < |init| ==> init[i].key == k;
        }
      }
      forall i | 0 <= i < |ordered|
        ensures ordered[i].key in Numbered(ordered, start)
                && Numbered(ordered, start)[ordered[i].key] == start + i + 1
      {
        if i < |init| {
          assert init[i].key == ordered[i].key;
        }
      }
    }
  }

  // ------------------------------------------------------------------ permutations

  lemma {:induction false} DistinctOnce(a: seq<Item>, x: Item)
    requires KeysDistinct(a)
    ensures multiset(a)[x] <= 1
  {
    if a != [] {
      var init, last := a[..|a| - 1], a[|a| - 1];
      assert a == init + [last];
      DistinctOnce(init, x);
      forall i | 0 <= i < |init| ensures init[i] != last {
        assert a[i].key != a[|a| - 1].key;
      }
    }
  }

  lemma Twice(b: seq<Item>, i: nat, j: nat)
    requires i < j < |b| && b[i] == b[j]
    ensures multiset(b)[b[i]] >= 2
  {
    var rest := b[..j] + b[j + 1..];
    assert b == b[..j] + [b[j]] + b[j + 1..];
    assert multiset(b) == multiset(rest) + multiset{b[j]};
    assert rest[i] == b[i] && b[i] in multiset(rest);
  }

  lemma PermutedKeys(a: seq<Item>, b: seq<Item>)
    requires multiset(a) == multiset(b)
    ensures forall k :: HasKey(a, k) <==> HasKey(b, k)
    ensures KeysDistinct(a) ==> KeysDistinct(b)
    ensures |a| == |b|
  {
    assert |a| == |multiset(a)| == |multiset(b)| == |b|;
    forall k ensures HasKey(a, k) <==> HasKey(b, k) {
      if HasKey(a, k) {
        var i :| 0 <= i < |a| && a[i].key == k;
        assert a[i] in multiset(b);
      }
      if HasKey(b, k) {
        var i :| 0 <= i < |b| && b[i].key == k;
        assert b[i] in multiset(a);
      }
    }
    if KeysDistinct(a) {
      forall i, j | 0 <= i < j < |b| ensures b[i].key != b[j].key {
        if b[i] == b[j] {
          Twice(b, i, j);
          DistinctOnce(a, b[i]);
        } else {
          assert b[i] in multiset(a) && b[j] in multiset(a);
        }
      }
    }
  }

  ghost predicate PositionsDistinct(items: seq<Item>) {
    forall i, j :: 0 <= i < j < |items| ==> items[i].position != items[j].position
  }

  lemma SortedIsStrict(items: seq<Item>)
    requires PositionsDistinct(items) && KeysDistinct(items)
    ensures var key := (i: Item) => (i.position as int, 0);
            Strict(SortBy(items, key), key)
  {
    var key := (i: Item) => (i.position as int, 0);
    var s := SortBy(items, key);
    SortSorts(items, key);
    PermutedKeys(items, s);
    forall i, j | 0 <= i < j < |s| ensures Less(key(s[i]), key(s[j])) {
      assert s[i] in multiset(items) && s[j] in multiset(items);
      var m :| 0 <= m < |items| && items[m] == s[i];
      var n :| 0 <= n < |items| && items[n] == s[j];
      assert m != n;
    }
  }

  lemma PermutedPositions(a: seq<Item>, b: seq<Item>)
    requires multiset(a) == multiset(b) && KeysDistinct(b) && PositionsDistinct(a)
    ensures PositionsDistinct(b)
  {
    forall i, j | 0 <= i < j < |b| ensures b[i].position != b[j].position {
      assert b[i] in multiset(a) && b[j] in multiset(a);
      var m :| 0 <= m < |a| && a[m] == b[i];
      var n :| 0 <= n < |a| && a[n] == b[j];
      assert m != n;
    }
  }

  lemma PermutedSort(a: seq<Item>, b: seq<Item>)
    requires multiset(a) == multiset(b) && KeysDistinct(a) && KeysDistinct(b)
    requires PositionsDistinct(a) && PositionsDistinct(b)
    ensures SortBy(a, (i: Item) => (i.position as int, 0)) == SortBy(b, (i: Item) => (i.position as int, 0))
  {
    var key := (i: Item) => (i.position as int, 0);
    SortedIsStrict(a);
    SortedIsStrict(b);
    SortSorts(a, key);
    SortSorts(b, key);
    StrictUnique(SortBy(a, key), SortBy(b, key), key);
  }

  lemma PermutedDates(a: seq<Item>, b: seq<Item>)
    requires multiset(a) == multiset(b) && AllDated(a)
    ensures AllDated(b)
  {
    forall i | 0 <= i < |b| ensures b[i].published.Some? {
      assert b[i] in multiset(a);
    }
  }

  // Listing the same batch in another order numbers it the same.
  lemma PermutationInvariant(existingMax: nat, a: seq<Item>, b: seq<Item>, newestFirst: bool)
    requires multiset(a) == multiset(b) && KeysDistinct(a) && PositionsDistinct(a)
    ensures Assigned(existingMax, a, newestFirst) == Assigned(existingMax, b, newestFirst)
  {
    PermutedKeys(a, b);
    PermutedPositions(a, b);
    PermutedSort(a, b);
    UniqueSame(a);
    UniqueSame(b);
    if AllDated(a) {
      PermutedDates(a, b);
    } else if AllDated(b) {
      PermutedDates(b, a);
    }
  }

  // ------------------------------------------------------------------ a Catalog's life

  type Catalog = map<string, nat>

  function Fresh(c: Catalog, items: seq<Item>): seq<Item> {
    if items == [] then []
    else (if items[0].key in c then [] else [items[0]]) + Fresh(c, items[1..])
  }

  ghost predicate Has(c: Catalog, n: nat) {
    exists k :: k in c && c[k] == n
  }

  // Ordinals 1 to n, one per item.
  ghost predicate Dense(c: Catalog) {
    && (forall k :: k in c ==> 1 <= c[k] <= |c|)
    && (forall k, l :: k in c && l in c && k != l ==> c[k] != c[l])
    && (forall n :: 1 <= n <= |c| ==> Has(c, n))
  }

  // `max_ordinal`: 0 for an empty Catalog.
  ghost predicate IsMax(c: Catalog, n: nat) {
    && (forall k :: k in c ==> c[k] <= n)
    && (n > 0 ==> Has(c, n))
  }

  lemma DenseMax(c: Catalog, n: nat)
    requires Dense(c) && IsMax(c, n)
    ensures n == |c|
  {
    if |c| > 0 {
      assert Has(c, |c|);
    }
  }

  function Refreshed(c: Catalog, existingMax: nat, items: seq<Item>, newestFirst: bool): Catalog {
    c + Assigned(existingMax, Fresh(c, items), newestFirst)
  }

  lemma {:induction false} FreshUnseen(c: Catalog, items: seq<Item>)
    ensures forall i :: 0 <= i < |Fresh(c, items)| ==> Fresh(c, items)[i].key !in c
  {
    if items != [] {
      FreshUnseen(c, items[1..]);
    }
  }

  // What a batch adds: its keys, numbered from existingMax + 1 in its order.
  lemma AssignedShape(existingMax: nat, items: seq<Item>, newestFirst: bool)
    ensures var ordered := OrderOldestFirst(Unique(items), newestFirst);
            var m := Assigned(existingMax, items, newestFirst);
            && KeysDistinct(ordered)
            && (forall k :: k in m <==> HasKey(items, k))
            && (forall k :: k in m <==> HasKey(ordered, k))
            && (forall i :: 0 <= i < |ordered| ==>
                  ordered[i].key in m && m[ordered[i].key] == existingMax + i + 1)
            && |m| == |ordered|
  {
    var u := Unique(items);
    var ordered := OrderOldestFirst(u, newestFirst);
    UniqueDistinct(items);
    OrderKeeps(u, newestFirst);
    PermutedKeys(u, ordered);
    NumberedShape(ordered, existingMax);
    forall k ensures HasKey(ordered, k) <==> HasKey(items, k) {
      UniqueHas(items, k);
    }
    NumberedSize(ordered, existingMax);
  }

  lemma {:induction false} NumberedSize(ordered: seq<Item>, start: nat)
    requires KeysDistinct(ordered)
    ensures |Numbered(ordered, start)| == |ordered|
  {
    if ordered != [] {
      var init, last := ordered[..|ordered| - 1], ordered[|ordered| - 1];
      NumberedSize(init, start);
      NumberedShape(init, start);
      assert !HasKey(init, last.key) by {
        assert forall i :: 0 <= i < |init| ==> init[i] == ordered[i];
      }
      assert Numbered(ordered, start).Keys == Numbered(init, start).Keys + {last.key};
    }
  }

  // A batch's ordinals: the numbers after `base`, one per key.
  ghost predicate Follows(base: nat, added: Catalog, ordered: seq<Item>) {
    && |added| == |ordered|
    && (forall k :: k in added ==> base < added[k] <= base + |added|)
    && (forall k, l :: k in added && l in added && k != l ==> added[k] != added[l])
    && (forall n :: base < n <= base + |added| ==> Has(added, n))
  }

  lemma AssignedFollows(base: nat, added: Catalog, ordered: seq<Item>)
    requires |added| == |ordered|
    requires forall k :: k in added <==> HasKey(ordered, k)
    requires forall i :: 0 <= i < |ordered| ==> ordered[i].key in added && added[ordered[i].key] == base + i + 1
    ensures Follows(base, added, ordered)
  {
    forall k | k in added ensures exists i :: 0 <= i < |ordered| && ordered[i].key == k && added[k] == base + i + 1 {
      assert HasKey(ordered, k);
      var i :| 0 <= i < |ordered| && ordered[i].key == k;
      assert added[k] == base + i + 1;
    }
    forall n | base < n <= base + |added| ensures Has(added, n) {
      assert added[ordered[n - base - 1].key] == n;
    }
  }

  // A dense Catalog extended by keys of its own, numbered on from its size.
  lemma ExtendedDense(c: Catalog, added: Catalog, ordered: seq<Item>)
    requires Dense(c) && c.Keys !! added.Keys && Follows(|c|, added, ordered)
    ensures Dense(c + added)
  {
    var c' := c + added;
    assert c'.Keys == c.Keys + added.Keys && |c'.Keys| == |c.Keys| + |added.Keys|;
    forall n | 1 <= n <= |c'| ensures Has(c', n) {
      if n <= |c| {
        assert Has(c, n);
        var k :| k in c && c[k] == n;
        assert c'[k] == n;
      } else {
        assert Has(added, n);
        var k :| k in added && added[k] == n;
        assert c'[k] == n;
      }
    }
  }

  // One Refresh: the Catalog stays dense, nothing is renumbered, and the new items follow the
  // old ones, oldest first.
  lemma RefreshKeeps(c: Catalog, existingMax: nat, items: seq<Item>, newestFirst: bool)
    requires Dense(c) && IsMax(c, existingMax)
    ensures var c' := Refreshed(c, existingMax, items, newestFirst);
            && Dense(c')
            && (forall k :: k in c ==> k in c' && c'[k] == c[k])
            && (forall k :: k in c' <==> k in c || HasKey(items, k))
  {
    DenseMax(c, existingMax);
    var batch := Fresh(c, items);
    AssignedShape(existingMax, batch, newestFirst);
    FreshUnseen(c, items);
    FreshHas(c, items);
    AssignedFollows(|c|, Assigned(existingMax, batch, newestFirst), OrderOldestFirst(Unique(batch), newestFirst));
    ExtendedDense(c, Assigned(existingMax, batch, newestFirst), OrderOldestFirst(Unique(batch), newestFirst));
  }

  // Within a batch, an item numbered before another is not the newer of the two.
  lemma BatchIsOldestFirst(c: Catalog, items: seq<Item>, newestFirst: bool, i: nat, j: nat)
    requires Dense(c)
    requires i < j < |OrderOldestFirst(Unique(Fresh(c, items)), newestFirst)|
    ensures var batch := Unique(Fresh(c, items));
            var ordered := OrderOldestFirst(batch, newestFirst);
            var c' := Refreshed(c, |c|, items, newestFirst);
            && multiset(ordered) == multiset(batch)
            && ordered[i].key in c' && ordered[j].key in c' && c'[ordered[i].key] < c'[ordered[j].key]
            && NotNewer(batch, newestFirst, ordered[i], ordered[j])
            && (AllDated(batch) && ordered[i].published == ordered[j].published ==>
                  ListedBefore(newestFirst, ordered[i], ordered[j]))
  {
    UniqueDistinct(Fresh(c, items));
    if AllDated(Unique(Fresh(c, items))) {
      TiesAsListed(Unique(Fresh(c, items)), newestFirst, i, j);
    }
    AssignedShape(|c|, Fresh(c, items), newestFirst);
    OrderKeeps(Unique(Fresh(c, items)), newestFirst);
    OldestFirst(Unique(Fresh(c, items)), newestFirst, i, j);
  }

  lemma {:induction false} FreshHas(c: Catalog, items: seq<Item>)
    ensures forall k :: HasKey(Fresh(c, items), k) <==> HasKey(items, k) && k !in c
  {
    if items != [] {
      FreshHas(c, items[1..]);
      assert items == [items[0]] + items[1..];
      forall k ensures HasKey(Fresh(c, items), k) <==> HasKey(items, k) && k !in c {
        HasKeyHead(items[0], items[1..], k);
        HasKeyHead(items[0], Fresh(c, items[1..]), k);
        assert [] + Fresh(c, items[1..]) == Fresh(c, items[1..]);
      }
    }
  }

  lemma HasKeyHead(x: Item, s: seq<Item>, k: string)
    ensures HasKey([x] + s, k) <==> x.key == k || HasKey(s, k)
  {
    var t := [x] + s;
    assert t[0] == x;
    if HasKey(t, k) {
      var i :| 0 <= i < |t| && t[i].key == k;
      assert i > 0 ==> s[i - 1].key == k;
    }
    if HasKey(s, k) {
      var i :| 0 <= i < |s| && s[i].key == k;
      assert t[i + 1].key == k;
    }
  }

  datatype Batch = Batch(items: seq<Item>, newestFirst: bool)

  // The Catalog after the Refreshes, each numbering on from the highest ordinal so far.
  function AfterAll(c: Catalog, batches: seq<Batch>): Catalog
    decreases |batches|
  {
    if batches == [] then c
    else AfterAll(Refreshed(c, |c|, batches[0].items, batches[0].newestFirst), batches[1..])
  }

  lemma MaxOfDense(c: Catalog)
    requires Dense(c)
    ensures IsMax(c, |c|)
  {
  }

  // Over any Refreshes the ordinals stay 1 to n, one each, and no item is ever renumbered.
  lemma {:induction false} OrdinalsAreForever(c: Catalog, batches: seq<Batch>)
    requires Dense(c)
    ensures Dense(AfterAll(c, batches))
    ensures forall k :: k in c ==> k in AfterAll(c, batches) && AfterAll(c, batches)[k] == c[k]
    decreases |batches|
  {
    if batches != [] {
      MaxOfDense(c);
      RefreshKeeps(c, |c|, batches[0].items, batches[0].newestFirst);
      OrdinalsAreForever(Refreshed(c, |c|, batches[0].items, batches[0].newestFirst), batches[1..]);
    }
  }

  // `assign_ordinals` with its loop over the new items.
  method AssignOrdinals(existingMax: nat, newItems: seq<Item>, newestFirst: bool) returns (ordinals: map<string, nat>)
    ensures ordinals == Assigned(existingMax, newItems, newestFirst)
  {
    var unique: seq<Item> := [];
    for i := 0 to |newItems|
      invariant unique == Unique(newItems[..i])
    {
      assert newItems[..i + 1][..i] == newItems[..i] && newItems[..i + 1][i] == newItems[i];
      if !HasKey(unique, newItems[i].key) {
        unique := unique + [newItems[i]];
      }
    }
    assert newItems[..|newItems|] == newItems;
    var ordered := OrderOldestFirst(unique, newestFirst);
    ordinals := map[];
    for i := 0 to |ordered|
      invariant ordinals == Numbered(ordered[..i], existingMax)
    {
      assert ordered[..i + 1][..i] == ordered[..i] && ordered[..i + 1][i] == ordered[i];
      ordinals := ordinals[ordered[i].key := existingMax + i + 1];
    }
    assert ordered[..|ordered|] == ordered;
  }
}
