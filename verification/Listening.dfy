/**
 Where each Episode was left (web/src/stores/listening.ts): the last 500 positions, as one map in
 the browser's storage. A write the storage refuses changes nothing.
 */
module Listening {
  import opened Basics

  const MAX_ENTRIES := 500
  const RESUME_MIN_SECONDS := 10.0
  const FINISHED_TAIL_SECONDS := 30.0
  const MINUTE_MS := 60_000
  const HOUR_MS := 60 * MINUTE_MS
  const DAY_MS := 24 * HOUR_MS

  datatype Entry = Entry(t: real, d: Option<real>, at: int, finished: bool)

  // What a stored value must be to be read back as an entry.
  predicate IsEntry(e: Entry) {
    e.t >= 0.0 && (e.d.None? || e.d.value > 0.0)
  }

  function Find(entries: map<string, Entry>, itemId: string): Option<Entry> {
    if itemId in entries then Some(entries[itemId]) else None
  }

  // An Episode starts over when it is Finished, barely started or nearly over.
  predicate StartsOver(e: Entry) {
    e.finished || e.t < RESUME_MIN_SECONDS || (e.d.Some? && e.d.value - e.t < FINISHED_TAIL_SECONDS)
  }

  // The auto-rewind grows with the time away.
  function Rewind(idle: int): real {
    if idle > DAY_MS then 20.0 else if idle > HOUR_MS then 10.0 else if idle > MINUTE_MS then 3.0 else 0.0
  }

  function ResumeAt(entry: Option<Entry>, nowMs: int): real {
    if entry.None? || entry.value.finished || entry.value.t < RESUME_MIN_SECONDS then 0.0
    else if entry.value.d.Some? && entry.value.d.value - entry.value.t < FINISHED_TAIL_SECONDS then 0.0
    else
      var rewind := Rewind(nowMs - entry.value.at);
      if entry.value.t - rewind > 0.0 then entry.value.t - rewind else 0.0
  }

  // The rewind is at most 20 s, grows with the time away, and needs a minute of it.
  lemma ResumeBounds(e: Entry, nowMs: int, later: int)
    requires nowMs <= later
    ensures 0.0 <= ResumeAt(Some(e), nowMs) && (e.t >= 0.0 ==> ResumeAt(Some(e), nowMs) <= e.t)
    ensures StartsOver(e) ==> ResumeAt(Some(e), nowMs) == 0.0
    ensures !StartsOver(e) ==> ResumeAt(Some(e), nowMs) >= e.t - 20.0
    ensures !StartsOver(e) && nowMs <= e.at + MINUTE_MS ==> ResumeAt(Some(e), nowMs) == e.t
    ensures ResumeAt(Some(e), later) <= ResumeAt(Some(e), nowMs)
  {
  }

  // What may be kept of too many entries: 500 of them, none saved before one that goes.
  ghost predicate Trimmed(all: map<string, Entry>, kept: map<string, Entry>) {
    && (forall id <- kept :: id in all && kept[id] == all[id])
    && if |all| <= MAX_ENTRIES then kept == all
       else |kept| == MAX_ENTRIES && forall a, b :: a in kept && b in all && b !in kept ==> all[b].at <= all[a].at
  }

  ghost predicate Written(before: map<string, Entry>, itemId: string, e: Entry, after: map<string, Entry>) {
    after == before || Trimmed(before[itemId := e], after)
  }

  // An entry is only dropped when 500 others were saved no earlier.
  lemma DroppedWhenOld(all: map<string, Entry>, kept: map<string, Entry>, id: string)
    requires Trimmed(all, kept) && id in all
    requires |set k <- all | k != id && all[k].at >= all[id].at| < MAX_ENTRIES
    ensures id in kept
  {
    if id !in kept {
      var others := set k <- all | k != id && all[k].at >= all[id].at;
      assert kept.Keys <= others;
      SubsetSize(kept.Keys, others);
    }
  }

  // ------------------------------------------------------------------ the store

  ghost predicate LatestFirst(entries: map<string, Entry>, ids: seq<string>) {
    && (forall i :: 0 <= i < |ids| ==> ids[i] in entries)
    && (forall i, j :: 0 <= i < j < |ids| ==> ids[i] != ids[j] && entries[ids[i]].at >= entries[ids[j]].at)
  }

  function IdsOf(ids: seq<string>): set<string> {
    set id <- ids
  }

  lemma {:induction false} DistinctSize(entries: map<string, Entry>, ids: seq<string>)
    requires LatestFirst(entries, ids)
    ensures |IdsOf(ids)| == |ids|
  {
    if ids != [] {
      DistinctSize(entries, ids[1..]);
      assert IdsOf(ids) == {ids[0]} + IdsOf(ids[1..]);
    }
  }

  lemma InsertIds(ids: seq<string>, i: nat, id: string)
    requires i <= |ids|
    ensures IdsOf(ids[..i] + [id] + ids[i..]) == IdsOf(ids) + {id}
  {
    assert forall x :: x in ids <==> x in ids[..i] || x in ids[i..];
  }

  lemma InsertKeeps(entries: map<string, Entry>, ids: seq<string>, i: nat, id: string)
    requires LatestFirst(entries, ids) && i <= |ids| && id in entries && id !in IdsOf(ids)
    requires forall k :: i <= k < |ids| ==> entries[ids[k]].at < entries[id].at
    requires i > 0 ==> entries[id].at <= entries[ids[i - 1]].at
    ensures LatestFirst(entries, ids[..i] + [id] + ids[i..])
  {
    var r := ids[..i] + [id] + ids[i..];
    forall a | 0 <= a < |r| ensures r[a] == (if a < i then ids[a] else if a == i then id else ids[a - 1]) {
    }
    forall a, b | 0 <= a < b < |r| ensures r[a] != r[b] && entries[r[a]].at >= entries[r[b]].at {
      if a == i {
        assert ids[b - 1] in IdsOf(ids);
      } else if b == i {
        NoneLater(entries, ids, i, a, id);
        assert ids[a] in IdsOf(ids);
      }
    }
  }

  // What stands before place i was saved no earlier.
  lemma NoneLater(entries: map<string, Entry>, ids: seq<string>, i: nat, a: nat, id: string)
    requires LatestFirst(entries, ids) && a < i <= |ids| && id in entries
    requires entries[id].at <= entries[ids[i - 1]].at
    ensures entries[id].at <= entries[ids[a]].at
  {
    if a < i - 1 {
      assert entries[ids[a]].at >= entries[ids[i - 1]].at;
    }
  }

  method SortByAt(entries: map<string, Entry>) returns (ids: seq<string>)
    ensures LatestFirst(entries, ids) && IdsOf(ids) == entries.Keys
  {
    ids := [];
    var left := entries.Keys;
    while left != {}
      invariant left <= entries.Keys && IdsOf(ids) == entries.Keys - left
      invariant LatestFirst(entries, ids)
    {
      var id :| id in left;
      left := left - {id};
      var i := |ids|;
      while i > 0 && entries[ids[i - 1]].at < entries[id].at
        invariant 0 <= i <= |ids|
        invariant forall k :: i <= k < |ids| ==> entries[ids[k]].at < entries[id].at
      {
        i := i - 1;
      }
      InsertKeeps(entries, ids, i, id);
      InsertIds(ids, i, id);
      ids := ids[..i] + [id] + ids[i..];
    }
  }

  lemma FirstAreTrimmed(all: map<string, Entry>, ids: seq<string>, kept: map<string, Entry>)
    requires |all| > MAX_ENTRIES && LatestFirst(all, ids) && IdsOf(ids) == all.Keys
    requires |ids| > MAX_ENTRIES
    requires kept == map id <- ids[..MAX_ENTRIES] :: all[id]
    ensures Trimmed(all, kept)
  {
    var first := ids[..MAX_ENTRIES];
    assert LatestFirst(all, first);
    DistinctSize(all, first);
    assert kept.Keys == IdsOf(first);
    assert |kept| == |kept.Keys|;
    forall a, b | a in kept && b in all && b !in kept ensures all[b].at <= all[a].at {
      assert b in IdsOf(ids);
      var i :| 0 <= i < MAX_ENTRIES && ids[i] == a;
      var j :| 0 <= j < |ids| && ids[j] == b;
      assert forall k :: 0 <= k < MAX_ENTRIES ==> first[k] == ids[k] && ids[k] in IdsOf(first);
    }
  }

  class ListeningStore {
    var entries: map<string, Entry>

    constructor ()
      ensures entries == map[]
    {
      entries := map[];
    }

    // Save one Episode's entry; the least recently saved go beyond the cap.
    method WriteListening(itemId: string, entry: Entry, accepted: bool)
      modifies this
      ensures Written(old(entries), itemId, entry, entries)
      ensures if accepted then Trimmed(old(entries)[itemId := entry], entries) else entries == old(entries)
      ensures var all := |old(entries)[itemId := entry]|; accepted ==> |entries| == if all > 500 then 500 else all
    {
      var all := entries[itemId := entry];
      var kept := all;
      if |all| > MAX_ENTRIES {
        var ids := SortByAt(all);
        DistinctSize(all, ids);
        assert |all| == |all.Keys|;
        kept := map id <- ids[..MAX_ENTRIES] :: all[id];
        FirstAreTrimmed(all, ids, kept);
      }
      if accepted {
        entries := kept;
      }
    }
  }
}
