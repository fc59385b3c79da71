/**
 The TTL cache of the probe and the iTunes search (src/copycast/adapters/sources/cache.py). The
 dictionary is its entries in insertion order: storing a key that is present keeps its place, as
 a Python dictionary does. The clock is the `now` of every call.
 */
module TtlCache {
  import opened Basics

  datatype Entry<K, V> = Entry(key: K, expires: int, value: V)

  ghost function Keys<K, V>(es: seq<Entry<K, V>>): set<K> {
    if es == [] then {} else {es[0].key} + Keys(es[1..])
  }

  ghost predicate Unique<K, V>(es: seq<Entry<K, V>>) {
    es == [] || (es[0].key !in Keys(es[1..]) && Unique(es[1..]))
  }

  function Find<K(==), V>(es: seq<Entry<K, V>>, key: K): Option<Entry<K, V>> {
    if es == [] then None else if es[0].key == key then Some(es[0]) else Find(es[1..], key)
  }

  function Remove<K(==), V>(es: seq<Entry<K, V>>, key: K): seq<Entry<K, V>> {
    if es == [] then [] else if es[0].key == key then Remove(es[1..], key) else [es[0]] + Remove(es[1..], key)
  }

  // `entries[key] = …`.
  function Assign<K(==), V>(es: seq<Entry<K, V>>, entry: Entry<K, V>): seq<Entry<K, V>> {
    if es == [] then [entry]
    else if es[0].key == entry.key then [entry] + es[1..]
    else [es[0]] + Assign(es[1..], entry)
  }

  function Live<K, V>(es: seq<Entry<K, V>>, now: int): seq<Entry<K, V>> {
    if es == [] then [] else if now < es[0].expires then [es[0]] + Live(es[1..], now) else Live(es[1..], now)
  }

  function ExpiredKeys<K, V>(es: seq<Entry<K, V>>, now: int): (r: seq<K>)
    ensures |r| + |Live(es, now)| == |es|
  {
    if es == [] then [] else (if now < es[0].expires then [] else [es[0].key]) + ExpiredKeys(es[1..], now)
  }

  // The entries that stay when the first ones go until at most `most` are left.
  function Newest<K, V>(es: seq<Entry<K, V>>, most: nat): seq<Entry<K, V>> {
    if |es| <= most then es else es[|es| - most..]
  }

  function Answered<K, V>(found: Option<Entry<K, V>>, now: int): Option<V> {
    if found.Some? && now < found.value.expires then Some(found.value.value) else None
  }

  // ------------------------------------------------------------------ one call

  datatype Op<K, V> =
    | Get(key: K, now: int)
    | Put(key: K, value: V, now: int)
    | Pop(key: K, now: int)
    | Purge(now: int)
    | Clear(now: int)

  datatype Bounds = Bounds(ttl: int, most: nat)

  function Filled<K(==), V>(b: Bounds, es: seq<Entry<K, V>>, key: K, value: V, now: int): seq<Entry<K, V>> {
    Newest(Assign(Live(es, now), Entry(key, now + b.ttl, value)), b.most)
  }

  function Apply<K(==), V>(b: Bounds, es: seq<Entry<K, V>>, op: Op<K, V>): seq<Entry<K, V>> {
    match op
    case Get(key, now) =>
      if Find(es, key).Some? && Answered(Find(es, key), now).None? then Remove(es, key) else es
    case Put(key, value, now) => Filled(b, es, key, value, now)
    case Pop(key, _) => Remove(es, key)
    case Purge(now) => Live(es, now)
    case Clear(_) => []
  }

  // What a call answers; only `get` and `pop` answer with a value.
  function Answers<K(==), V>(es: seq<Entry<K, V>>, op: Op<K, V>): seq<Option<V>> {
    match op
    case Get(key, now) => [Answered(Find(es, key), now)]
    case Pop(key, now) => [Answered(Find(es, key), now)]
    case _ => []
  }

  function After<K(==), V>(b: Bounds, es: seq<Entry<K, V>>, ops: seq<Op<K, V>>): seq<Entry<K, V>>
    decreases |ops|
  {
    if ops == [] then es else After(b, Apply(b, es, ops[0]), ops[1..])
  }

  function AllAnswers<K(==), V>(b: Bounds, es: seq<Entry<K, V>>, ops: seq<Op<K, V>>): seq<Option<V>>
    decreases |ops|
  {
    if ops == [] then [] else Answers(es, ops[0]) + AllAnswers(b, Apply(b, es, ops[0]), ops[1..])
  }

  // The clock never goes back, and starts at `from`.
  ghost predicate Monotone<K, V>(from: int, ops: seq<Op<K, V>>)
    decreases |ops|
  {
    ops == [] || (from <= ops[0].now && Monotone(ops[0].now, ops[1..]))
  }

  // ------------------------------------------------------------------ lists of entries

  lemma {:induction false} KeysHas<K, V>(es: seq<Entry<K, V>>, e: Entry<K, V>)
    requires e in es
    ensures e.key in Keys(es)
  {
    if e != es[0] {
      KeysHas(es[1..], e);
    }
  }

  lemma {:induction false} FindHas<K, V>(es: seq<Entry<K, V>>, key: K)
    ensures Find(es, key).Some? <==> key in Keys(es)
    ensures Find(es, key).Some? ==> Find(es, key).value in es && Find(es, key).value.key == key
  {
    if es != [] {
      FindHas(es[1..], key);
    }
  }

  lemma {:induction false} FindIn<K, V>(es: seq<Entry<K, V>>, e: Entry<K, V>)
    requires Unique(es) && e in es
    ensures Find(es, e.key) == Some(e) && e.key in Keys(es)
  {
    KeysHas(es, e);
    if e != es[0] {
      FindIn(es[1..], e);
    }
  }

  lemma {:induction false} RemoveHas<K, V>(es: seq<Entry<K, V>>, key: K)
    ensures Keys(Remove(es, key)) == Keys(es) - {key}
    ensures Unique(es) ==> Unique(Remove(es, key))
    ensures |Remove(es, key)| <= |es|
    ensures key !in Keys(es) ==> Remove(es, key) == es
  {
    if es != [] {
      RemoveHas(es[1..], key);
      if es[0].key != key {
        assert Remove(es, key)[1..] == Remove(es[1..], key);
      }
    }
  }

  lemma {:induction false} RemoveIn<K, V>(es: seq<Entry<K, V>>, key: K, e: Entry<K, V>)
    ensures e in Remove(es, key) <==> e in es && e.key != key
  {
    if es != [] {
      RemoveIn(es[1..], key, e);
    }
  }

  lemma {:induction false} LiveHas<K, V>(es: seq<Entry<K, V>>, now: int)
    ensures Keys(Live(es, now)) <= Keys(es)
    ensures Unique(es) ==> Unique(Live(es, now))
    ensures |Live(es, now)| <= |es|
  {
    if es != [] {
      LiveHas(es[1..], now);
      if now < es[0].expires {
        assert Live(es, now)[1..] == Live(es[1..], now);
      }
    }
  }

  lemma {:induction false} LiveIn<K, V>(es: seq<Entry<K, V>>, now: int, e: Entry<K, V>)
    ensures e in Live(es, now) <==> e in es && now < e.expires
  {
    if es != [] {
      LiveIn(es[1..], now, e);
    }
  }

  lemma {:induction false} AssignHas<K, V>(es: seq<Entry<K, V>>, entry: Entry<K, V>)
    requires Unique(es)
    ensures Keys(Assign(es, entry)) == Keys(es) + {entry.key}
    ensures Unique(Assign(es, entry))
    ensures if entry.key in Keys(es) then |Assign(es, entry)| == |es| else Assign(es, entry) == es + [entry]
  {
    if es != [] {
      AssignHas(es[1..], entry);
      var r := Assign(es, entry);
      if es[0].key != entry.key {
        assert r[1..] == Assign(es[1..], entry);
      } else {
        assert r[1..] == es[1..];
      }
    }
  }

  lemma {:induction false} AssignIn<K, V>(es: seq<Entry<K, V>>, entry: Entry<K, V>, e: Entry<K, V>)
    requires Unique(es)
    ensures e in Assign(es, entry) <==> e == entry || (e in es && e.key != entry.key)
  {
    if es != [] {
      AssignIn(es[1..], entry, e);
      if es[0].key == entry.key && e in es[1..] {
        KeysHas(es[1..], e);
      }
    }
  }

  lemma {:induction false} NewestHas<K, V>(es: seq<Entry<K, V>>, most: nat)
    requires Unique(es)
    ensures Unique(Newest(es, most)) && |Newest(es, most)| <= most
    ensures Keys(Newest(es, most)) <= Keys(es)
  {
    if |es| > most {
      NewestHas(es[1..], most);
      assert Newest(es, most) == Newest(es[1..], most);
    }
  }

  lemma FilledUnique<K, V>(b: Bounds, es: seq<Entry<K, V>>, key: K, value: V, now: int)
    requires Unique(es)
    ensures Unique(Filled(b, es, key, value, now)) && |Filled(b, es, key, value, now)| <= b.most
  {
    LiveHas(es, now);
    AssignHas(Live(es, now), Entry(key, now + b.ttl, value));
    NewestHas(Assign(Live(es, now), Entry(key, now + b.ttl, value)), b.most);
  }

  lemma ApplyUnique<K, V>(b: Bounds, es: seq<Entry<K, V>>, op: Op<K, V>)
    requires Unique(es)
    ensures Unique(Apply(b, es, op))
    ensures |es| <= b.most ==> |Apply(b, es, op)| <= b.most
  {
    match op
    case Get(key, now) => RemoveHas(es, key);
    case Put(key, value, now) => FilledUnique(b, es, key, value, now);
    case Pop(key, _) => RemoveHas(es, key);
    case Purge(now) => LiveHas(es, now);
    case Clear(_) =>
  }

  lemma {:induction false} LiveTwice<K, V>(es: seq<Entry<K, V>>, t: int, now: int)
    requires t <= now
    ensures Live(Live(es, t), now) == Live(es, now)
  {
    if es != [] {
      LiveTwice(es[1..], t, now);
    }
  }

  lemma {:induction false} LiveRemove<K, V>(es: seq<Entry<K, V>>, key: K, t: int)
    ensures Live(Remove(es, key), t) == Remove(Live(es, t), key)
  {
    if es != [] {
      LiveRemove(es[1..], key, t);
    }
  }

  lemma LiveFind<K, V>(es: seq<Entry<K, V>>, key: K, now: int)
    requires Unique(es)
    ensures Answered(Find(Live(es, now), key), now) == Answered(Find(es, key), now)
    ensures key in Keys(Live(es, now)) <==> Answered(Find(es, key), now).Some?
  {
    LiveHas(es, now);
    FindHas(es, key);
    FindHas(Live(es, now), key);
    var f := Find(es, key);
    if f.Some? && now < f.value.expires {
      LiveIn(es, now, f.value);
      FindIn(Live(es, now), f.value);
    } else if key in Keys(Live(es, now)) {
      LiveIn(es, now, Find(Live(es, now), key).value);
      FindIn(es, Find(Live(es, now), key).value);
    }
  }

  // ------------------------------------------------------------------ purging is never seen

  // Two states that hold the same entries alive at `t` answer every later call alike.
  lemma SameAnswer<K, V>(b: Bounds, es: seq<Entry<K, V>>, fs: seq<Entry<K, V>>, op: Op<K, V>, t: int)
    requires Unique(es) && Unique(fs) && Live(es, t) == Live(fs, t) && t <= op.now
    ensures Answers(es, op) == Answers(fs, op)
    ensures Live(Apply(b, es, op), op.now) == Live(Apply(b, fs, op), op.now)
  {
    LiveTwice(es, t, op.now);
    LiveTwice(fs, t, op.now);
    match op
    case Get(key, now) =>
      LiveFind(es, key, now);
      LiveFind(fs, key, now);
      LiveGet(b, es, key, now);
      LiveGet(b, fs, key, now);
    case Put(_, _, _) =>
    case Pop(key, now) =>
      LiveFind(es, key, now);
      LiveFind(fs, key, now);
      LiveRemove(es, key, now);
      LiveRemove(fs, key, now);
    case Purge(_) =>
    case Clear(_) =>
  }

  // The entry `get` deletes is expired, so the live ones stay.
  lemma LiveGet<K, V>(b: Bounds, es: seq<Entry<K, V>>, key: K, now: int)
    requires Unique(es)
    ensures Live(Apply(b, es, Get(key, now)), now) == Live(es, now)
  {
    var f := Find(es, key);
    if f.Some? && Answered(f, now).None? {
      LiveRemove(es, key, now);
      LiveFind(es, key, now);
      RemoveHas(Live(es, now), key);
    }
  }

  lemma {:induction false} SameAnswers<K, V>(
    b: Bounds, es: seq<Entry<K, V>>, fs: seq<Entry<K, V>>, ops: seq<Op<K, V>>, t: int)
    requires Unique(es) && Unique(fs) && Live(es, t) == Live(fs, t) && Monotone(t, ops)
    ensures AllAnswers(b, es, ops) == AllAnswers(b, fs, ops)
    decreases |ops|
  {
    if ops != [] {
      SameAnswer(b, es, fs, ops[0], t);
      ApplyUnique(b, es, ops[0]);
      ApplyUnique(b, fs, ops[0]);
      SameAnswers(b, Apply(b, es, ops[0]), Apply(b, fs, ops[0]), ops[1..], ops[0].now);
    }
  }

  // A purge anywhere in a run changes no answer of any `get` or `pop` after it.
  lemma {:induction false} PurgeIsUnseen<K, V>(
    b: Bounds, es: seq<Entry<K, V>>, before: seq<Op<K, V>>, t: int, after: seq<Op<K, V>>, from: int)
    requires Unique(es) && Monotone(from, before + [Purge(t)] + after)
    ensures AllAnswers(b, es, before + [Purge(t)] + after) == AllAnswers(b, es, before + after)
    decreases |before|
  {
    var with := before + [Purge(t)] + after;
    if before == [] {
      assert with[1..] == after && before + after == after;
      LiveTwice(es, t, t);
      LiveHas(es, t);
      SameAnswers(b, Live(es, t), es, after, t);
    } else {
      assert with[1..] == before[1..] + [Purge(t)] + after;
      assert (before + after)[1..] == before[1..] + after;
      ApplyUnique(b, es, before[0]);
      PurgeIsUnseen(b, Apply(b, es, before[0]), before[1..], t, after, before[0].now);
    }
  }

  // ------------------------------------------------------------------ a hit is the last put

  // What a map without bound or expiry would hold for `key`, newest call last: the value last
  // put with its expiry, gone after a `pop` or a `clear`.
  function LastPut<K(==), V>(b: Bounds, ops: seq<Op<K, V>>, key: K): Option<Entry<K, V>> {
    if ops == [] then None
    else
      var op := ops[|ops| - 1];
      if op.Put? && op.key == key then Some(Entry(key, op.now + b.ttl, op.value))
      else if op.Clear? || (op.Pop? && op.key == key) then None
      else LastPut(b, ops[..|ops| - 1], key)
  }

  lemma {:induction false} AfterLast<K, V>(b: Bounds, es: seq<Entry<K, V>>, ops: seq<Op<K, V>>)
    requires ops != []
    ensures After(b, es, ops) == Apply(b, After(b, es, ops[..|ops| - 1]), ops[|ops| - 1])
    decreases |ops|
  {
    if |ops| > 1 {
      AfterLast(b, Apply(b, es, ops[0]), ops[1..]);
      assert ops[1..][..|ops| - 2] == ops[..|ops| - 1][1..];
    }
  }

  lemma {:induction false} AfterUnique<K, V>(b: Bounds, ops: seq<Op<K, V>>)
    ensures Unique(After(b, [], ops))
    decreases |ops|
  {
    if ops != [] {
      AfterLast(b, [], ops);
      AfterUnique(b, ops[..|ops| - 1]);
      ApplyUnique(b, After(b, [], ops[..|ops| - 1]), ops[|ops| - 1]);
    }
  }

  // Every entry the cache holds, after any run, is exactly the last put of its key.
  lemma {:induction false} HeldIsLastPut<K, V>(b: Bounds, ops: seq<Op<K, V>>, e: Entry<K, V>)
    requires e in After(b, [], ops)
    ensures LastPut(b, ops, e.key) == Some(e)
    decreases |ops|
  {
    if ops != [] {
      var ops', op := ops[..|ops| - 1], ops[|ops| - 1];
      var es := After(b, [], ops');
      AfterLast(b, [], ops);
      AfterUnique(b, ops');
      match op {
        case Put(k, v, now) => PutKeeps(b, es, k, v, now, e);
        case Get(k, _) => RemoveIn(es, k, e);
        case Pop(k, _) => RemoveIn(es, k, e);
        case Purge(now) => LiveIn(es, now, e);
        case Clear(_) =>
      }
      if e in es {
        HeldIsLastPut(b, ops', e);
      }
    }
  }

  // What a put leaves was there alive, under another key, or is the entry just put.
  lemma PutKeeps<K, V>(b: Bounds, es: seq<Entry<K, V>>, key: K, value: V, now: int, e: Entry<K, V>)
    requires Unique(es) && e in Filled(b, es, key, value, now)
    ensures e == Entry(key, now + b.ttl, value) || (e in es && e.key != key && now < e.expires)
  {
    var put := Entry(key, now + b.ttl, value);
    LiveHas(es, now);
    LiveIn(es, now, e);
    AssignIn(Live(es, now), put, e);
    assert e in Assign(Live(es, now), put);
  }

  // So a hit answers the value last put and neither popped nor cleared since, before its expiry.
  lemma HitsAreLastPuts<K, V>(b: Bounds, ops: seq<Op<K, V>>, key: K, now: int)
    ensures var answer := Answered(Find(After(b, [], ops), key), now);
            answer.Some? ==> LastPut(b, ops, key).Some? && now < LastPut(b, ops, key).value.expires
                             && answer.value == LastPut(b, ops, key).value.value
  {
    var f := Find(After(b, [], ops), key);
    FindHas(After(b, [], ops), key);
    if f.Some? {
      HeldIsLastPut(b, ops, f.value);
    }
  }

  // ------------------------------------------------------------------ room

  lemma {:induction false} NeverOverfull<K, V>(b: Bounds, ops: seq<Op<K, V>>)
    ensures |After(b, [], ops)| <= b.most
    decreases |ops|
  {
    if ops != [] {
      AfterLast(b, [], ops);
      AfterUnique(b, ops[..|ops| - 1]);
      NeverOverfull(b, ops[..|ops| - 1]);
      ApplyUnique(b, After(b, [], ops[..|ops| - 1]), ops[|ops| - 1]);
    }
  }

  // After any run, a put leaves at most `most` entries; the value just put is there whenever it
  // can be (a life of more than nothing, room for one).
  lemma PutSurvives<K, V>(b: Bounds, ops: seq<Op<K, V>>, key: K, value: V, now: int)
    ensures var es := Filled(b, After(b, [], ops), key, value, now);
            && |es| <= b.most
            && Answered(Find(es, key), now) == if b.ttl > 0 && b.most >= 1 then Some(value) else None
  {
    NeverOverfull(b, ops);
    AfterUnique(b, ops);
    FilledUnique(b, After(b, [], ops), key, value, now);
    if b.most >= 1 {
      PutIsThere(b, After(b, [], ops), key, value, now);
    }
  }

  ghost predicate Holds<K, V>(es: seq<Entry<K, V>>, e: Entry<K, V>) {
    Unique(es) && e in es
  }

  lemma PutIsThere<K, V>(b: Bounds, es: seq<Entry<K, V>>, key: K, value: V, now: int)
    requires Unique(es) && |es| <= b.most && b.most >= 1
    ensures Find(Filled(b, es, key, value, now), key) == Some(Entry(key, now + b.ttl, value))
  {
    LiveHas(es, now);
    FilledHolds(b, es, key, value, now);
    FindIn(Filled(b, es, key, value, now), Entry(key, now + b.ttl, value));
  }

  lemma FilledHolds<K, V>(b: Bounds, es: seq<Entry<K, V>>, key: K, value: V, now: int)
    requires Unique(Live(es, now)) && |Live(es, now)| <= b.most && b.most >= 1
    ensures Holds(Filled(b, es, key, value, now), Entry(key, now + b.ttl, value))
  {
    NewestHolds(Live(es, now), Entry(key, now + b.ttl, value), b.most);
  }

  lemma NewestHolds<K, V>(live: seq<Entry<K, V>>, put: Entry<K, V>, most: nat)
    requires Unique(live) && |live| <= most && most >= 1
    ensures Holds(Newest(Assign(live, put), most), put)
  {
    var a := Assign(live, put);
    AssignHas(live, put);
    AssignIn(live, put, put);
    NewestHas(a, most);
    if |a| > most {
      assert a == live + [put];
      assert Newest(a, most)[most - 1] == put;
    }
  }

  // ------------------------------------------------------------------ a miss needs `most` others

  // The keys that stand behind `key`.
  ghost function Behind<K, V>(es: seq<Entry<K, V>>, key: K): set<K> {
    if es == [] then {} else if es[0].key == key then Keys(es[1..]) else Behind(es[1..], key)
  }

  // The other keys put since `key` was last put anew, that is, not over a value still alive.
  ghost function PutSince<K, V>(b: Bounds, ops: seq<Op<K, V>>, key: K): set<K> {
    if ops == [] then {}
    else
      var before, op := ops[..|ops| - 1], ops[|ops| - 1];
      if !op.Put? then PutSince(b, before, key)
      else if op.key != key then PutSince(b, before, key) + {op.key}
      else if Answered(LastPut(b, before, key), op.now).Some? then PutSince(b, before, key)
      else {}
  }

  lemma {:induction false} AssignAt<K, V>(es: seq<Entry<K, V>>, i: nat, entry: Entry<K, V>)
    requires Unique(es) && i < |es| && es[i].key == entry.key
    ensures Assign(es, entry) == es[i := entry]
  {
    if i > 0 {
      KeysHas(es[1..], es[i]);
      AssignAt(es[1..], i - 1, entry);
      assert [es[0]] + es[1..][i - 1 := entry] == es[i := entry];
    }
  }

  lemma {:induction false} AssignNew<K, V>(es: seq<Entry<K, V>>, entry: Entry<K, V>)
    requires forall i :: 0 <= i < |es| ==> es[i].key != entry.key
    ensures Assign(es, entry) == es + [entry]
  {
    if es != [] {
      AssignNew(es[1..], entry);
    }
  }

  lemma {:induction false} BehindLive<K, V>(es: seq<Entry<K, V>>, key: K, now: int)
    requires key in Keys(Live(es, now)) && Unique(es)
    ensures Behind(Live(es, now), key) <= Behind(es, key)
  {
    LiveHas(es[1..], now);
    if es[0].key != key {
      BehindLive(es[1..], key, now);
    }
    if now < es[0].expires {
      assert Live(es, now)[1..] == Live(es[1..], now);
    }
  }

  lemma {:induction false} BehindRemove<K, V>(es: seq<Entry<K, V>>, key: K, gone: K)
    requires key in Keys(es) && gone != key
    ensures Behind(Remove(es, gone), key) <= Behind(es, key)
  {
    RemoveHas(es[1..], gone);
    if es[0].key != key {
      BehindRemove(es[1..], key, gone);
    }
    if es[0].key != gone {
      assert Remove(es, gone)[1..] == Remove(es[1..], gone);
    }
  }

  lemma {:induction false} BehindAssign<K, V>(es: seq<Entry<K, V>>, entry: Entry<K, V>, key: K)
    requires key in Keys(es) && Unique(es)
    ensures Behind(Assign(es, entry), key) <= Behind(es, key) + (if entry.key == key then {} else {entry.key})
  {
    if es[0].key == entry.key {
      assert Assign(es, entry)[1..] == es[1..];
    } else {
      AssignHas(es[1..], entry);
      assert Assign(es, entry)[1..] == Assign(es[1..], entry);
      if es[0].key != key {
        BehindAssign(es[1..], entry, key);
      }
    }
  }

  lemma {:induction false} BehindLast<K, V>(es: seq<Entry<K, V>>, entry: Entry<K, V>)
    requires entry.key !in Keys(es)
    ensures Behind(es + [entry], entry.key) == {}
  {
    if es != [] {
      assert (es + [entry])[1..] == es[1..] + [entry];
      BehindLast(es[1..], entry);
    }
  }

  lemma {:induction false} KeysCount<K, V>(es: seq<Entry<K, V>>)
    requires Unique(es)
    ensures |Keys(es)| == |es|
  {
    if es != [] {
      KeysCount(es[1..]);
    }
  }

  // Dropping from the front reaches a key only when `most` keys stand behind it.
  lemma {:induction false} NewestKeeps<K, V>(es: seq<Entry<K, V>>, e: Entry<K, V>, most: nat)
    requires Unique(es) && e in es && |Behind(es, e.key)| < most
    ensures e in Newest(es, most) && Behind(Newest(es, most), e.key) == Behind(es, e.key)
  {
    if |es| > most {
      if es[0].key == e.key {
        KeysCount(es[1..]);
      } else {
        NewestKeeps(es[1..], e, most);
        assert Newest(es, most) == Newest(es[1..], most);
      }
    }
  }

  // No loss before its time: a value put stays until it expires, is popped or is cleared, as
  // long as fewer than `most` other keys were put since its key was put anew.
  lemma {:induction false} HeldWhileFew<K, V>(b: Bounds, ops: seq<Op<K, V>>, key: K, from: int, now: int)
    requires Monotone(from, ops + [Get(key, now)])
    requires LastPut(b, ops, key).Some? && now < LastPut(b, ops, key).value.expires
    requires |PutSince(b, ops, key)| < b.most
    ensures Held(After(b, [], ops), LastPut(b, ops, key).value, PutSince(b, ops, key))
    decreases |ops|, 1
  {
    var before, op := ops[..|ops| - 1], ops[|ops| - 1];
    var es := After(b, [], before);
    AfterLast(b, [], ops);
    AfterUnique(b, before);
    MonotoneFront(from, ops, key, now);
    if op.Put? && op.key == key {
      HeldPut(b, before, op, from);
    } else {
      if op.Put? {
        SubsetSize(PutSince(b, before, key), PutSince(b, ops, key));
      }
      MonotoneLater(from, before, key, op.now, now);
      HeldWhileFew(b, before, key, from, now);
      LastPutKey(b, before, key);
      HeldStep(b, es, op, LastPut(b, before, key).value, PutSince(b, before, key));
    }
  }

  lemma MissNeedsManyOthers<K, V>(b: Bounds, ops: seq<Op<K, V>>, key: K, from: int, now: int)
    requires Monotone(from, ops + [Get(key, now)])
    requires LastPut(b, ops, key).Some? && now < LastPut(b, ops, key).value.expires
    requires |PutSince(b, ops, key)| < b.most
    ensures Answered(Find(After(b, [], ops), key), now) == Some(LastPut(b, ops, key).value.value)
  {
    HeldWhileFew(b, ops, key, from, now);
    AfterUnique(b, ops);
    LastPutKey(b, ops, key);
    FindIn(After(b, [], ops), LastPut(b, ops, key).value);
  }

  lemma {:induction false} LastPutKey<K, V>(b: Bounds, ops: seq<Op<K, V>>, key: K)
    ensures LastPut(b, ops, key).Some? ==> LastPut(b, ops, key).value.key == key
    decreases |ops|
  {
    if ops != [] {
      LastPutKey(b, ops[..|ops| - 1], key);
    }
  }

  ghost predicate Held<K, V>(es: seq<Entry<K, V>>, e: Entry<K, V>, others: set<K>) {
    Unique(es) && e in es && Behind(es, e.key) <= others
  }

  // The call of another key, or one that neither puts nor drops `e`.
  lemma HeldStep<K, V>(b: Bounds, es: seq<Entry<K, V>>, op: Op<K, V>, e: Entry<K, V>, others: set<K>)
    requires Held(es, e, others) && op.now < e.expires
    requires !op.Clear? && ((op.Pop? || op.Put?) ==> op.key != e.key)
    requires |others + (if op.Put? then {op.key} else {})| < b.most
    ensures Held(Apply(b, es, op), e, others + (if op.Put? then {op.key} else {}))
  {
    match op
    case Get(k, now) =>
      FindIn(es, e);
      if k != e.key {
        HeldRemove(es, k, e, others);
      }
    case Pop(k, _) => HeldRemove(es, k, e, others);
    case Purge(now) => HeldLive(es, now, e, others);
    case Put(k, value, now) =>
      HeldLive(es, now, e, others);
      HeldAssign(Live(es, now), Entry(k, now + b.ttl, value), e, others, b.most);
  }

  lemma HeldRemove<K, V>(es: seq<Entry<K, V>>, k: K, e: Entry<K, V>, others: set<K>)
    requires Held(es, e, others) && k != e.key
    ensures Held(Remove(es, k), e, others)
  {
    RemoveHas(es, k);
    RemoveIn(es, k, e);
    KeysHas(es, e);
    BehindRemove(es, e.key, k);
  }

  lemma HeldLive<K, V>(es: seq<Entry<K, V>>, now: int, e: Entry<K, V>, others: set<K>)
    requires Held(es, e, others) && now < e.expires
    ensures Held(Live(es, now), e, others)
  {
    LiveHas(es, now);
    LiveIn(es, now, e);
    KeysHas(Live(es, now), e);
    BehindLive(es, e.key, now);
  }

  lemma HeldAssign<K, V>(live: seq<Entry<K, V>>, put: Entry<K, V>, e: Entry<K, V>, others: set<K>, most: nat)
    requires Held(live, e, others) && put.key != e.key && |others + {put.key}| < most
    ensures Held(Newest(Assign(live, put), most), e, others + {put.key})
  {
    KeysHas(live, e);
    BehindAssign(live, put, e.key);
    AssignHas(live, put);
    AssignIn(live, put, e);
    HeldNewest(Assign(live, put), e, others + {put.key}, most);
  }

  lemma HeldNewest<K, V>(es: seq<Entry<K, V>>, e: Entry<K, V>, others: set<K>, most: nat)
    requires Held(es, e, others) && |others| < most
    ensures Held(Newest(es, most), e, others)
  {
    SubsetSize(Behind(es, e.key), others);
    NewestHas(es, most);
    NewestKeeps(es, e, most);
  }

  // A put of the key itself: over a live value it keeps the place, else it goes last.
  lemma {:induction false} HeldPut<K, V>(b: Bounds, before: seq<Op<K, V>>, op: Op<K, V>, from: int)
    requires op.Put? && Monotone(from, before + [Get(op.key, op.now)])
    requires |PutSince(b, before + [op], op.key)| < b.most
    ensures Held(Filled(b, After(b, [], before), op.key, op.value, op.now),
                 Entry(op.key, op.now + b.ttl, op.value), PutSince(b, before + [op], op.key))
    decreases |before| + 1, 0
  {
    var key, es, live := op.key, After(b, [], before), Live(After(b, [], before), op.now);
    var put := Entry(key, op.now + b.ttl, op.value);
    assert (before + [op])[..|before|] == before;
    AfterUnique(b, before);
    LiveFind(es, key, op.now);
    if Answered(LastPut(b, before, key), op.now).Some? {
      HeldWhileFew(b, before, key, from, op.now);
      LastPutKey(b, before, key);
      HeldLive(es, op.now, LastPut(b, before, key).value, PutSince(b, before, key));
      HeldAgain(live, put, LastPut(b, before, key).value, PutSince(b, before, key), b.most);
    } else {
      HitsAreLastPuts(b, before, key, op.now);
      LiveHas(es, op.now);
      HeldNew(live, put, b.most);
    }
  }

  lemma HeldAgain<K, V>(live: seq<Entry<K, V>>, put: Entry<K, V>, e: Entry<K, V>, others: set<K>, most: nat)
    requires Held(live, e, others) && put.key == e.key && |others| < most
    ensures Held(Newest(Assign(live, put), most), put, others)
  {
    KeysHas(live, e);
    BehindAssign(live, put, e.key);
    AssignHas(live, put);
    AssignIn(live, put, put);
    HeldNewest(Assign(live, put), put, others, most);
  }

  lemma HeldNew<K, V>(live: seq<Entry<K, V>>, put: Entry<K, V>, most: nat)
    requires Unique(live) && put.key !in Keys(live) && most > 0
    ensures Held(Newest(Assign(live, put), most), put, {})
  {
    AssignHas(live, put);
    BehindLast(live, put);
    HeldNewest(Assign(live, put), put, {}, most);
  }

  lemma {:induction false} MonotoneFront<K, V>(from: int, ops: seq<Op<K, V>>, key: K, now: int)
    requires ops != [] && Monotone(from, ops + [Get(key, now)])
    ensures Monotone(from, ops[..|ops| - 1] + [Get(key, ops[|ops| - 1].now)]) && ops[|ops| - 1].now <= now
    decreases |ops|
  {
    var last := ops[|ops| - 1].now;
    assert (ops + [Get(key, now)])[1..] == ops[1..] + [Get(key, now)];
    var shorter := ops[..|ops| - 1] + [Get(key, last)];
    if |ops| > 1 {
      MonotoneFront(ops[0].now, ops[1..], key, now);
      assert shorter[1..] == ops[1..][..|ops| - 2] + [Get(key, last)];
    } else {
      assert shorter == [Get(key, last)];
      assert ops[1..] + [Get(key, now)] == [Get(key, now)];
    }
  }

  lemma {:induction false} MonotoneLater<K, V>(from: int, ops: seq<Op<K, V>>, key: K, t: int, now: int)
    requires Monotone(from, ops + [Get(key, t)]) && t <= now
    ensures Monotone(from, ops + [Get(key, now)])
    decreases |ops|
  {
    if ops != [] {
      assert (ops + [Get(key, t)])[1..] == ops[1..] + [Get(key, t)];
      assert (ops + [Get(key, now)])[1..] == ops[1..] + [Get(key, now)];
      MonotoneLater(ops[0].now, ops[1..], key, t, now);
    }
  }

  // ------------------------------------------------------------------ "the oldest go first"

  // Entries in the order they were put: dropping any number from the front drops the oldest.
  ghost predicate OldestFirst<K, V>(es: seq<Entry<K, V>>) {
    forall i, j :: 0 <= i < j < |es| ==> es[i].expires <= es[j].expires
  }

  ghost predicate NoneAfter<K, V>(es: seq<Entry<K, V>>, bound: int) {
    forall e <- es :: e.expires <= bound
  }

  // A put keeps that order exactly when its key held no live value, or nothing that stands
  // behind it is older than the put.
  lemma OldestFirstIff<K, V>(es: seq<Entry<K, V>>, put: Entry<K, V>)
    requires Unique(es) && OldestFirst(es) && NoneAfter(es, put.expires)
    ensures OldestFirst(Assign(es, put))
       <==> forall i, j :: 0 <= i < j < |es| && es[i].key == put.key ==> es[j].expires == put.expires
  {
    if i :| 0 <= i < |es| && es[i].key == put.key {
      AssignAt(es, i, put);
      OrderAt(es, i, put);
      forall k | 0 <= k < |es| && es[k].key == put.key ensures k == i {
        UniqueAt(es, i, k);
      }
    } else {
      AssignNew(es, put);
      AppendOrder(es, put);
    }
  }

  lemma {:induction false} UniqueAt<K, V>(es: seq<Entry<K, V>>, i: nat, k: nat)
    requires Unique(es) && i < |es| && k < |es| && es[i].key == es[k].key
    ensures i == k
  {
    if i > 0 && k > 0 {
      UniqueAt(es[1..], i - 1, k - 1);
    } else if i != k {
      KeysHas(es[1..], es[if i > k then i else k]);
    }
  }

  lemma OrderAt<K, V>(es: seq<Entry<K, V>>, i: nat, put: Entry<K, V>)
    requires i < |es| && OldestFirst(es) && NoneAfter(es, put.expires)
    ensures OldestFirst(es[i := put]) <==> forall j :: i < j < |es| ==> es[j].expires == put.expires
  {
    var a := es[i := put];
    assert a[i].expires == put.expires;
    assert forall j :: 0 <= j < |es| ==> es[j].expires <= put.expires;
    assert forall j :: 0 <= j < |es| && j != i ==> a[j] == es[j];
  }

  lemma AppendOrder<K, V>(es: seq<Entry<K, V>>, put: Entry<K, V>)
    requires OldestFirst(es) && NoneAfter(es, put.expires)
    ensures OldestFirst(es + [put])
  {
    assert forall j :: 0 <= j < |es| ==> es[j].expires <= put.expires;
  }

  // A put that refreshes a live value makes it the next to go, before an older one: with room
  // for two, 1 is put anew a moment after 2, and still 1 is what the put of 3 drops.
  lemma RefreshedGoesFirst()
    ensures var ops := [Put(1, 'a', 0), Put(2, 'b', 1), Put(1, 'c', 2), Put(3, 'd', 3)];
            && After(Bounds(10, 2), [], ops) == [Entry(2, 11, 'b'), Entry(3, 13, 'd')]
            && LastPut(Bounds(10, 2), ops, 1) == Some(Entry(1, 12, 'c'))
  {
    var b := Bounds(10, 2);
    var p, q, r, s := Put(1, 'a', 0), Put(2, 'b', 1), Put(1, 'c', 2), Put(3, 'd', 3);
    AfterCons(b, [], p, [q, r, s]);
    FirstTwoPuts(b);
    AfterCons(b, [Entry(1, 10, 'a')], q, [r, s]);
    AfterCons(b, [Entry(1, 10, 'a'), Entry(2, 11, 'b')], r, [s]);
    LastTwoPuts(b);
    AfterCons(b, [Entry(1, 12, 'c'), Entry(2, 11, 'b')], s, []);
    assert [p] + [q, r, s] == [p, q, r, s] && [q] + [r, s] == [q, r, s] && [r] + [s] == [r, s] && [s] + [] == [s];
    assert [p, q, r, s][..3][..2] == [p, q] && [p, q, r, s][..3] == [p, q, r];
  }

  lemma FirstTwoPuts(b: Bounds)
    requires b == Bounds(10, 2)
    ensures Filled(b, [], 1, 'a', 0) == [Entry(1, 10, 'a')]
    ensures Filled(b, [Entry(1, 10, 'a')], 2, 'b', 1) == [Entry(1, 10, 'a'), Entry(2, 11, 'b')]
  {
    var none: seq<Entry<int, char>> := [];
    var one, two := Entry(1, 10, 'a'), Entry(2, 11, 'b');
    PutNew(b, none, one, 0);
    assert none + [one] == [one];
    PutNew(b, [one], two, 1);
    assert [one] + [two] == [one, two] && Newest([one, two], 2) == [one, two];
  }

  lemma LastTwoPuts(b: Bounds)
    requires b == Bounds(10, 2)
    ensures Filled(b, [Entry(1, 10, 'a'), Entry(2, 11, 'b')], 1, 'c', 2) == [Entry(1, 12, 'c'), Entry(2, 11, 'b')]
    ensures Filled(b, [Entry(1, 12, 'c'), Entry(2, 11, 'b')], 3, 'd', 3) == [Entry(2, 11, 'b'), Entry(3, 13, 'd')]
  {
    var two := [Entry(1, 10, 'a'), Entry(2, 11, 'b')];
    PutAgain(b, two, Entry(1, 12, 'c'), 2);
    assert [Entry(1, 12, 'c')] + two[1..] == [Entry(1, 12, 'c'), Entry(2, 11, 'b')];
    PutNew(b, [Entry(1, 12, 'c'), Entry(2, 11, 'b')], Entry(3, 13, 'd'), 3);
    var last := Entry(3, 13, 'd');
    assert ([Entry(1, 12, 'c'), Entry(2, 11, 'b')] + [last])[1..] == [Entry(2, 11, 'b'), last];
  }

  lemma AfterCons<K, V>(b: Bounds, es: seq<Entry<K, V>>, op: Op<K, V>, rest: seq<Op<K, V>>)
    ensures After(b, es, [op] + rest) == After(b, Apply(b, es, op), rest)
  {
    assert ([op] + rest)[1..] == rest;
  }

  lemma PutNew(b: Bounds, es: seq<Entry<int, char>>, put: Entry<int, char>, now: int)
    requires forall i :: 0 <= i < |es| ==> now < es[i].expires && es[i].key != put.key
    requires put.expires == now + b.ttl
    ensures Filled(b, es, put.key, put.value, now) == Newest(es + [put], b.most)
  {
    AllLive(es, now);
    AssignNew(es, put);
  }

  lemma PutAgain(b: Bounds, es: seq<Entry<int, char>>, put: Entry<int, char>, now: int)
    requires forall i :: 0 <= i < |es| ==> now < es[i].expires
    requires es != [] && es[0].key == put.key && put.expires == now + b.ttl
    ensures Filled(b, es, put.key, put.value, now) == Newest([put] + es[1..], b.most)
  {
    AllLive(es, now);
  }

  lemma {:induction false} AllLive<K, V>(es: seq<Entry<K, V>>, now: int)
    requires forall e <- es :: now < e.expires
    ensures Live(es, now) == es
  {
    if es != [] {
      AllLive(es[1..], now);
    }
  }

  // The puts of a run that never replace a live value.
  ghost predicate NeverRefreshes<K, V>(b: Bounds, es: seq<Entry<K, V>>, ops: seq<Op<K, V>>)
    decreases |ops|
  {
    ops == [] ||
    (&& (ops[0].Put? ==> ops[0].key !in Keys(Live(es, ops[0].now)))
     && NeverRefreshes(b, Apply(b, es, ops[0]), ops[1..]))
  }

  lemma {:induction false} LiveOrder<K, V>(es: seq<Entry<K, V>>, now: int)
    requires OldestFirst(es)
    ensures OldestFirst(Live(es, now))
  {
    if es != [] {
      LiveOrder(es[1..], now);
      var rest := Live(es[1..], now);
      forall j | 0 <= j < |rest| ensures es[0].expires <= rest[j].expires {
        LiveIn(es[1..], now, rest[j]);
      }
    }
  }

  lemma {:induction false} RemoveOrder<K, V>(es: seq<Entry<K, V>>, key: K)
    requires OldestFirst(es)
    ensures OldestFirst(Remove(es, key))
  {
    if es != [] {
      RemoveOrder(es[1..], key);
      var rest := Remove(es[1..], key);
      forall j | 0 <= j < |rest| ensures es[0].expires <= rest[j].expires {
        RemoveIn(es[1..], key, rest[j]);
      }
    }
  }

  lemma OrderNew<K, V>(live: seq<Entry<K, V>>, put: Entry<K, V>, most: nat)
    requires OldestFirst(live) && NoneAfter(live, put.expires) && put.key !in Keys(live)
    ensures OldestFirst(Newest(Assign(live, put), most))
  {
    forall i | 0 <= i < |live| ensures live[i].key != put.key {
      KeysHas(live, live[i]);
    }
    AssignNew(live, put);
    AppendOrder(live, put);
  }

  lemma ApplyNoneAfter<K, V>(b: Bounds, es: seq<Entry<K, V>>, op: Op<K, V>, bound: int)
    requires Unique(es) && NoneAfter(es, bound) && op.now + b.ttl <= bound
    ensures NoneAfter(Apply(b, es, op), bound)
  {
    forall e | e in Apply(b, es, op) ensures e.expires <= bound {
      match op
      case Put(k, v, now) => PutKeeps(b, es, k, v, now, e);
      case Get(k, _) => RemoveIn(es, k, e);
      case Pop(k, _) => RemoveIn(es, k, e);
      case Purge(now) => LiveIn(es, now, e);
      case Clear(_) =>
    }
  }

  // In such a run the oldest do go first, throughout.
  lemma {:induction false} OldestGoFirst<K, V>(b: Bounds, es: seq<Entry<K, V>>, ops: seq<Op<K, V>>, from: int)
    requires Monotone(from, ops) && NeverRefreshes(b, es, ops)
    requires Unique(es) && OldestFirst(es) && NoneAfter(es, from + b.ttl)
    ensures OldestFirst(After(b, es, ops))
    decreases |ops|
  {
    if ops != [] {
      var op := ops[0];
      ApplyUnique(b, es, op);
      ApplyNoneAfter(b, es, op, op.now + b.ttl);
      match op {
        case Get(key, now) => RemoveOrder(es, key);
        case Put(key, value, now) =>
          LiveOrder(es, now);
          ApplyNoneAfter(b, es, Purge(now), now + b.ttl);
          OrderNew(Live(es, now), Entry(key, now + b.ttl, value), b.most);
        case Pop(key, _) => RemoveOrder(es, key);
        case Purge(now) => LiveOrder(es, now);
        case Clear(_) =>
      }
      OldestGoFirst(b, Apply(b, es, op), ops[1..], op.now);
    }
  }

  // ------------------------------------------------------------------ the cache

  lemma {:induction false} FirstExpired<K, V>(es: seq<Entry<K, V>>, now: int)
    requires Unique(es)
    ensures forall k <- ExpiredKeys(es, now) :: k in Keys(es)
    ensures var ks := ExpiredKeys(es, now);
            if ks == [] then Live(es, now) == es
            else && Live(Remove(es, ks[0]), now) == Live(es, now)
                 && ExpiredKeys(Remove(es, ks[0]), now) == ks[1..]
  {
    if es != [] {
      FirstExpired(es[1..], now);
      if es[0].expires <= now {
        RemoveHas(es[1..], es[0].key);
        assert Remove(es, es[0].key) == es[1..];
      } else if ExpiredKeys(es[1..], now) != [] {
        var k := ExpiredKeys(es[1..], now)[0];
        var rest := Remove(es[1..], k);
        assert Remove(es, k) == [es[0]] + rest;
        assert ([es[0]] + rest)[1..] == rest;
      }
    }
  }

  class TtlCache<K(==), V> {
    const bounds: Bounds
    var entries: seq<Entry<K, V>>

    constructor (ttl: int, most: nat)
      ensures bounds == Bounds(ttl, most) && entries == []
    {
      bounds := Bounds(ttl, most);
      entries := [];
    }

    method Get(key: K, now: int) returns (value: Option<V>)
      modifies this
      ensures entries == Apply(bounds, old(entries), Op.Get(key, now))
      ensures [value] == Answers(old(entries), Op.Get(key, now))
      ensures value.None? ==> key !in Keys(entries)
    {
      FindHas(entries, key);
      RemoveHas(entries, key);
      var entry := Find(entries, key);
      if entry.None? {
        return None;
      }
      if entry.value.expires <= now {
        entries := Remove(entries, key);
        return None;
      }
      return Some(entry.value.value);
    }

    // Expired entries go, then the value takes its place and the first ones go while too many.
    method Put(key: K, value: V, now: int)
      requires Unique(entries)
      modifies this
      ensures entries == Apply(bounds, old(entries), Op.Put(key, value, now))
    {
      var _ := PurgeLocked(now);
      entries := Assign(entries, Entry(key, now + bounds.ttl, value));
      ghost var all := entries;
      while |entries| > bounds.most
        invariant |entries| <= |all| && entries == all[|all| - |entries|..]
        invariant |entries| < |all| ==> |entries| >= bounds.most
      {
        assert all[|all| - |entries|..][1..] == all[|all| - |entries| + 1..];
        entries := entries[1..];
      }
    }

    method Pop(key: K, now: int) returns (value: Option<V>)
      modifies this
      ensures entries == Apply(bounds, old(entries), Op.Pop(key, now))
      ensures [value] == Answers(old(entries), Op.Pop(key, now))
      ensures key !in Keys(entries)
    {
      FindHas(entries, key);
      RemoveHas(entries, key);
      var entry := Find(entries, key);
      if entry.None? {
        return None;
      }
      entries := Remove(entries, key);
      return if entry.value.expires > now then Some(entry.value.value) else None;
    }

    method Purge(now: int) returns (removed: nat)
      requires Unique(entries)
      modifies this
      ensures entries == Apply(bounds, old(entries), Op.Purge(now))
      ensures forall e :: e in entries <==> e in old(entries) && now < e.expires
      ensures removed == |old(entries)| - |entries|
    {
      removed := PurgeLocked(now);
      forall e ensures e in entries <==> e in old(entries) && now < e.expires {
        LiveIn(old(entries), now, e);
      }
    }

    method Clear(ghost now: int)
      modifies this
      ensures entries == Apply(bounds, old(entries), Op.Clear(now)) == []
    {
      entries := [];
    }

    method PurgeLocked(now: int) returns (removed: nat)
      requires Unique(entries)
      modifies this
      ensures entries == Live(old(entries), now)
      ensures removed == |old(entries)| - |entries|
    {
      var expired := ExpiredKeys(entries, now);
      for i := 0 to |expired|
        invariant Unique(entries)
        invariant Live(entries, now) == Live(old(entries), now)
        invariant ExpiredKeys(entries, now) == expired[i..]
      {
        FirstExpired(entries, now);
        RemoveHas(entries, expired[i]);
        entries := Remove(entries, expired[i]);
      }
      FirstExpired(entries, now);
      return |expired|;
    }
  }
}
