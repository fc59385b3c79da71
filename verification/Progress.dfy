/**
 The live progress store (web/src/stores/progress.ts): one entry for each running job, found by
 job and by the Episode the job works on.
 */
module Progress {
  import opened Basics

  datatype Entry<P> = Entry(jobId: string, itemId: Option<string>, progress: P, at: int)

  datatype Store<P> = Store(byJob: map<string, Entry<P>>, byItem: map<string, Entry<P>>)

  function Nothing<P>(): Store<P> {
    Store(map[], map[])
  }

  // An Episode id counts unless it is null or empty.
  predicate HasItem<P>(e: Entry<P>) {
    e.itemId.Some? && e.itemId.value != ""
  }

  function Recorded<P>(s: Store<P>, e: Entry<P>): Store<P> {
    Store(s.byJob[e.jobId := e], if HasItem(e) then s.byItem[e.itemId.value := e] else s.byItem)
  }

  function Cleared<P>(s: Store<P>, jobId: string): Store<P> {
    if jobId !in s.byJob then s
    else
      var e := s.byJob[jobId];
      Store(s.byJob - {jobId},
            if HasItem(e) && e.itemId.value in s.byItem && s.byItem[e.itemId.value].jobId == jobId
            then s.byItem - {e.itemId.value} else s.byItem)
  }

  function Stale<P>(s: Store<P>, now: int, ttl: int): set<string> {
    set j <- s.byJob | now - s.byJob[j].at > ttl
  }

  // ------------------------------------------------------------------ the two indexes agree

  // Every job stands under its own id, every Episode's entry is its job's.
  ghost predicate Agrees<P>(s: Store<P>) {
    && (forall j <- s.byJob :: s.byJob[j].jobId == j)
    && (forall i <- s.byItem ::
          && s.byItem[i].itemId == Some(i) && i != ""
          && s.byItem[i].jobId in s.byJob && s.byJob[s.byItem[i].jobId] == s.byItem[i])
  }

  // A report keeps them agreeing exactly when its job holds no other Episode.
  lemma RecordAgreesIff<P>(s: Store<P>, e: Entry<P>)
    requires Agrees(s)
    ensures Agrees(Recorded(s, e))
       <==> forall i :: i in s.byItem && s.byItem[i].jobId == e.jobId && About(s.byJob[e.jobId], i) ==> About(e, i)
  {
    var r := Recorded(s, e);
    if e.jobId in s.byJob && HasItem(s.byJob[e.jobId]) && s.byJob[e.jobId].itemId != e.itemId {
      var i := s.byJob[e.jobId].itemId.value;
      if i in s.byItem && s.byItem[i].jobId == e.jobId {
        assert r.byItem[i] == s.byItem[i];
        assert r.byJob[e.jobId] == e;
      }
    }
  }

  lemma ClearAgrees<P>(s: Store<P>, jobId: string)
    requires Agrees(s)
    ensures Agrees(Cleared(s, jobId))
    ensures jobId !in Cleared(s, jobId).byJob
    ensures forall i <- Cleared(s, jobId).byItem :: Cleared(s, jobId).byItem[i].jobId != jobId
    ensures forall i <- s.byItem :: s.byItem[i].jobId != jobId ==>
              i in Cleared(s, jobId).byItem && Cleared(s, jobId).byItem[i] == s.byItem[i]
  {
    var c := Cleared(s, jobId);
    assert forall i <- c.byItem :: c.byItem[i] == s.byItem[i] && s.byItem[i].itemId == Some(i);
  }

  // A job that changes its Episode leaves the old one pointing at it, even once it is cleared.
  lemma ChangedItemStays()
    ensures var s := Recorded(Recorded(Nothing(), Entry("job", Some("a"), 1, 0)), Entry("job", Some("b"), 2, 1));
            !Agrees(s) && Cleared(s, "job").byJob == map[]
            && Cleared(s, "job").byItem == map["a" := Entry("job", Some("a"), 1, 0)]
  {
    var s := Recorded(Recorded(Nothing(), Entry("job", Some("a"), 1, 0)), Entry("job", Some("b"), 2, 1));
    assert s.byItem["a"].jobId == "job" && s.byItem["a"] != s.byJob["job"];
  }

  // Nothing stale is left in either index, and nothing else is gone.
  ghost predicate Swept<P>(before: Store<P>, s: Store<P>, now: int, ttl: int) {
    && s.byJob == (map j <- before.byJob | now - before.byJob[j].at <= ttl :: before.byJob[j])
    && s.byItem == (map i <- before.byItem | now - before.byItem[i].at <= ttl :: before.byItem[i])
  }

  // ------------------------------------------------------------------ whole runs

  datatype Call<P> = Record(entry: Entry<P>) | Clear(jobId: string) | Sweep(now: int, ttl: int) | Reset

  // `sweepProgress` on values: every stale job is cleared.
  function SweptAll<P>(s: Store<P>, now: int, ttl: int): Store<P> {
    var stale := Stale(s, now, ttl);
    Store(map j <- s.byJob | j !in stale :: s.byJob[j],
          map i <- s.byItem | !(s.byItem[i].jobId in stale && s.byJob[s.byItem[i].jobId].itemId == Some(i)) ::
            s.byItem[i])
  }

  function After<P>(s: Store<P>, call: Call<P>): Store<P> {
    match call
    case Record(e) => Recorded(s, e)
    case Clear(j) => Cleared(s, j)
    case Sweep(now, ttl) => SweptAll(s, now, ttl)
    case Reset => Nothing()
  }

  function AfterAll<P>(calls: seq<Call<P>>): Store<P> {
    if calls == [] then Nothing() else After(AfterAll(calls[..|calls| - 1]), calls[|calls| - 1])
  }

  // Each job always reports the same Episode.
  ghost predicate ConstantItems<P>(calls: seq<Call<P>>) {
    forall i, k :: 0 <= i < |calls| && 0 <= k < |calls| && calls[i].Record? && calls[k].Record?
                   && calls[i].entry.jobId == calls[k].entry.jobId
                   ==> calls[i].entry.itemId == calls[k].entry.itemId
  }

  // What a job holds was reported by some call of the run.
  lemma {:induction false} HeldWasReported<P>(calls: seq<Call<P>>, j: string)
    requires j in AfterAll(calls).byJob
    ensures exists k :: 0 <= k < |calls| && calls[k] == Record(AfterAll(calls).byJob[j])
                        && AfterAll(calls).byJob[j].jobId == j
    decreases |calls|
  {
    var before, call := calls[..|calls| - 1], calls[|calls| - 1];
    if call.Record? && call.entry.jobId == j {
      assert calls[|calls| - 1] == Record(AfterAll(calls).byJob[j]);
    } else {
      assert j in AfterAll(before).byJob && AfterAll(calls).byJob[j] == AfterAll(before).byJob[j];
      HeldWasReported(before, j);
      var k :| 0 <= k < |before| && before[k] == Record(AfterAll(before).byJob[j]);
      assert calls[k] == before[k];
    }
  }

  // So the two indexes agree after every run of reports, clears, sweeps and resets in which each
  // job keeps its Episode.
  lemma {:induction false} AlwaysAgree<P>(calls: seq<Call<P>>)
    requires ConstantItems(calls)
    ensures Agrees(AfterAll(calls))
    decreases |calls|
  {
    if calls != [] {
      var before, call := calls[..|calls| - 1], calls[|calls| - 1];
      assert forall k :: 0 <= k < |before| ==> before[k] == calls[k];
      AlwaysAgree(before);
      var s := AfterAll(before);
      match call
      case Record(e) =>
        if e.jobId in s.byJob {
          HeldWasReported(before, e.jobId);
          var k :| 0 <= k < |before| && before[k] == Record(s.byJob[e.jobId]);
          assert calls[k].entry.itemId == calls[|calls| - 1].entry.itemId;
        }
        RecordAgreesIff(s, e);
      case Clear(j) => ClearAgrees(s, j);
      case Sweep(now, ttl) =>
      case Reset =>
    }
  }

  // In such a run a sweep leaves nothing stale in either index and keeps all the rest.
  lemma SweepLeavesNoTrace<P>(calls: seq<Call<P>>, now: int, ttl: int)
    requires ConstantItems(calls)
    ensures Swept(AfterAll(calls), SweptAll(AfterAll(calls), now, ttl), now, ttl)
  {
    AlwaysAgree(calls);
  }

  // Every entry stands under its job's id; no Episode has an empty id.
  ghost predicate Keyed<P>(s: Store<P>) {
    (forall j <- s.byJob :: s.byJob[j].jobId == j) && (forall i <- s.byItem :: i != "")
  }

  lemma ClearKeyed<P>(s: Store<P>, j: string)
    requires Keyed(s)
    ensures Keyed(Cleared(s, j))
  {
  }

  lemma {:induction false} AlwaysKeyed<P>(calls: seq<Call<P>>)
    ensures Keyed(AfterAll(calls))
    decreases |calls|
  {
    if calls != [] {
      AlwaysKeyed(calls[..|calls| - 1]);
    }
  }

  // Each Episode is reported by one job only.
  ghost predicate OwnItems<P>(calls: seq<Call<P>>) {
    forall i, k, item :: 0 <= i < |calls| && 0 <= k < |calls| && calls[i].Record? && calls[k].Record?
                         && About(calls[i].entry, item) && About(calls[k].entry, item)
                         ==> calls[i].entry.jobId == calls[k].entry.jobId
  }

  // The entry is about this Episode; an empty id is none.
  predicate About<P>(e: Entry<P>, item: string) {
    e.itemId == Some(item) && item != ""
  }

  // No job's Episode is missing: its entry is the job's own.
  ghost predicate Shown<P>(s: Store<P>) {
    forall j, i :: j in s.byJob && About(s.byJob[j], i) ==> i in s.byItem && s.byItem[i] == s.byJob[j]
  }

  // No job but the reporting one holds the Episode reported.
  ghost predicate OnlyItsJob<P>(s: Store<P>, e: Entry<P>) {
    forall j, i :: j in s.byJob && About(s.byJob[j], i) && About(e, i) ==> j == e.jobId
  }

  // A report leaves every running job's Episode shown exactly when no other job holds its Episode.
  lemma ShownAfterRecordIff<P>(s: Store<P>, e: Entry<P>)
    requires Keyed(s) && Shown(s)
    ensures Shown(Recorded(s, e)) <==> OnlyItsJob(s, e)
  {
    var r := Recorded(s, e);
    if !OnlyItsJob(s, e) {
      var j, i :| j in s.byJob && About(s.byJob[j], i) && About(e, i) && j != e.jobId;
      assert r.byJob[j] == s.byJob[j] && r.byItem[i] == e;
    } else {
      forall j, i | j in r.byJob && About(r.byJob[j], i) ensures i in r.byItem && r.byItem[i] == r.byJob[j] {
        if j != e.jobId {
          assert About(s.byJob[j], i) && !About(e, i);
        }
      }
    }
  }

  // Where the indexes agree, clearing a job takes the entry of an Episode with it exactly when the
  // entry is that job's, so it hides the Episode of another job on it when the other reported it
  // earlier.
  lemma ClearHidesIff<P>(s: Store<P>, jobId: string, i: string)
    requires Agrees(s)
    ensures i in Cleared(s, jobId).byItem <==> i in s.byItem && s.byItem[i].jobId != jobId
    ensures Shown(Cleared(s, jobId)) <==> OthersShown(s, jobId)
  {
    ShownAfterClearIff(s, jobId);
  }

  // The Episode of every job but one is shown.
  ghost predicate OthersShown<P>(s: Store<P>, jobId: string) {
    forall j, i :: j in s.byJob && j != jobId && About(s.byJob[j], i) ==> i in s.byItem && s.byItem[i] == s.byJob[j]
  }

  // In any store, clearing a job leaves every running Episode shown exactly when those of the other
  // jobs were.
  lemma ShownAfterClearIff<P>(s: Store<P>, jobId: string)
    requires Keyed(s)
    ensures Shown(Cleared(s, jobId)) <==> OthersShown(s, jobId)
  {
    var c := Cleared(s, jobId);
    assert forall j <- s.byJob :: j != jobId ==> j in c.byJob && c.byJob[j] == s.byJob[j];
    assert forall k <- c.byItem :: k in s.byItem && c.byItem[k] == s.byItem[k];
    assert forall k <- s.byItem :: s.byItem[k].jobId != jobId ==> k in c.byItem;
  }

  lemma ShownAfterSweep<P>(s: Store<P>, now: int, ttl: int)
    requires Keyed(s) && Shown(s)
    ensures Shown(SweptAll(s, now, ttl))
  {
  }

  // Then no running job's Episode is missing, after every run.
  lemma {:induction false} ItemsAreShown<P>(calls: seq<Call<P>>)
    requires OwnItems(calls)
    ensures Shown(AfterAll(calls))
    decreases |calls|
  {
    if calls != [] {
      var before, call := calls[..|calls| - 1], calls[|calls| - 1];
      assert forall k :: 0 <= k < |before| ==> before[k] == calls[k];
      ItemsAreShown(before);
      var s := AfterAll(before);
      if call.Record? {
        var e := call.entry;
        forall j, i | j in s.byJob && About(s.byJob[j], i) && About(e, i) ensures j == e.jobId {
          HeldWasReported(before, j);
          var k :| 0 <= k < |before| && before[k] == Record(s.byJob[j]);
          assert calls[k] == Record(s.byJob[j]) && calls[|calls| - 1] == call;
        }
      }
      LastCallShown(calls);
    }
  }

  // At every moment of the run every running job's Episode is shown.
  ghost predicate ShownThroughout<P>(calls: seq<Call<P>>) {
    forall n :: 0 <= n <= |calls| ==> Shown(AfterAll(calls[..n]))
  }

  // Every report finds its Episode held by no other job.
  ghost predicate NoTakeover<P>(calls: seq<Call<P>>) {
    forall n :: 0 <= n < |calls| && calls[n].Record? ==> OnlyItsJob(AfterAll(calls[..n]), calls[n].entry)
  }

  // Over whole runs: that is so exactly when no report ever takes an Episode over from another
  // job still held.
  lemma {:induction false} ShownThroughoutIff<P>(calls: seq<Call<P>>)
    ensures ShownThroughout(calls) <==> NoTakeover(calls)
    decreases |calls|
  {
    assert calls[..|calls|] == calls;
    if calls == [] {
      assert AfterAll(calls[..0]) == Nothing();
    } else {
      var m := |calls| - 1;
      var before := calls[..m];
      ShownThroughoutIff(before);
      forall n | 0 <= n <= m ensures calls[..n] == before[..n] {
      }
      LastCallShown(calls);
      assert ShownThroughout(calls) <==> ShownThroughout(before) && Shown(AfterAll(calls));
      assert NoTakeover(calls) <==>
             NoTakeover(before) && (calls[m].Record? ==> OnlyItsJob(AfterAll(before), calls[m].entry));
    }
  }

  lemma LastCallShown<P>(calls: seq<Call<P>>)
    requires calls != []
    ensures var before, call := calls[..|calls| - 1], calls[|calls| - 1];
            Shown(AfterAll(before)) ==>
              (Shown(AfterAll(calls)) <==> (call.Record? ==> OnlyItsJob(AfterAll(before), call.entry)))
  {
    var before, call := calls[..|calls| - 1], calls[|calls| - 1];
    var s := AfterAll(before);
    AlwaysKeyed(before);
    if Shown(s) {
      match call
      case Record(e) => ShownAfterRecordIff(s, e);
      case Clear(j) => ShownAfterClearIff(s, j);
      case Sweep(now, ttl) => ShownAfterSweep(s, now, ttl);
      case Reset =>
    }
  }

  // With two jobs on one Episode, clearing the later one hides the Episode of the other.
  lemma SharedItemIsHidden()
    ensures var a, b := Entry("a", Some("x"), 1, 0), Entry("b", Some("x"), 2, 1);
            var s := AfterAll([Record(a), Record(b), Clear("b")]);
            s.byJob == map["a" := a] && s.byItem == map[]
  {
    var a, b := Entry("a", Some("x"), 1, 0), Entry("b", Some("x"), 2, 1);
    var calls := [Record(a), Record(b), Clear("b")];
    assert calls[..2] == [Record(a), Record(b)] && calls[..2][..1] == [Record(a)];
    assert AfterAll([Record(a)]) == Recorded(Nothing(), a);
    assert AfterAll(calls[..2]) == Recorded(Recorded(Nothing(), a), b);
  }

  // ------------------------------------------------------------------ the store

  // What is still to do when some stale jobs are cleared comes to the same in the end.
  lemma SweepOnce<P>(s: Store<P>, j: string, now: int, ttl: int)
    requires Keyed(s)
    requires j in Stale(s, now, ttl)
    ensures SweptAll(Cleared(s, j), now, ttl) == SweptAll(s, now, ttl)
    ensures Stale(Cleared(s, j), now, ttl) == Stale(s, now, ttl) - {j}
  {
    var c := Cleared(s, j);
    assert Stale(c, now, ttl) == Stale(s, now, ttl) - {j};
    forall i | i in s.byItem
      ensures i in SweptAll(c, now, ttl).byItem <==> i in SweptAll(s, now, ttl).byItem
    {
    }
  }

  lemma NothingToSweep<P>(s: Store<P>, now: int, ttl: int)
    requires Stale(s, now, ttl) == {}
    ensures SweptAll(s, now, ttl) == s
  {
  }

  class ProgressStore<P> {
    var byJob: map<string, Entry<P>>
    var byItem: map<string, Entry<P>>
    var version: nat

    function State(): Store<P>
      reads this
    {
      Store(byJob, byItem)
    }

    ghost predicate Valid()
      reads this
    {
      Keyed(State())
    }

    constructor ()
      ensures Valid() && State() == Store(map[], map[])
    {
      byJob, byItem, version := map[], map[], 0;
    }

    method RecordProgress(entry: Entry<P>)
      requires Valid()
      modifies this
      ensures Valid() && State() == Recorded(old(State()), entry) && version == old(version) + 1
      ensures byJob == old(byJob)[entry.jobId := entry]
      ensures forall i :: About(entry, i) ==> byItem == old(byItem)[i := entry]
      ensures (forall i :: !About(entry, i)) ==> byItem == old(byItem)
    {
      byJob := byJob[entry.jobId := entry];
      if HasItem(entry) {
        assert About(entry, entry.itemId.value);
        byItem := byItem[entry.itemId.value := entry];
      }
      version := version + 1;
    }

    method ClearProgress(jobId: string)
      requires Valid()
      modifies this
      ensures Valid() && State() == Cleared(old(State()), jobId)
      ensures byJob == old(byJob) - {jobId}
      ensures byItem == map i <- old(byItem) | !(jobId in old(byJob) && About(old(byJob)[jobId], i)
                                                 && old(byItem)[i].jobId == jobId) :: old(byItem)[i]
      ensures version == old(version) + if jobId in old(byJob) then 1 else 0
    {
      if jobId !in byJob {
        return;
      }
      Delete(jobId);
      version := version + 1;
    }

    method Delete(jobId: string)
      requires jobId in byJob
      modifies this`byJob, this`byItem
      ensures State() == Cleared(old(State()), jobId)
    {
      var entry := byJob[jobId];
      byJob := byJob - {jobId};
      if HasItem(entry) && entry.itemId.value in byItem && byItem[entry.itemId.value].jobId == jobId {
        byItem := byItem - {entry.itemId.value};
      }
    }

    // The stale entries go one by one; the answer is how many jobs went.
    method SweepProgress(now: int, ttl: int) returns (removed: nat)
      requires Valid()
      modifies this
      ensures Valid() && State() == SweptAll(old(State()), now, ttl)
      ensures Agrees(old(State())) ==> Agrees(State()) && Swept(old(State()), State(), now, ttl)
      ensures removed == |old(byJob)| - |byJob|
      ensures version == old(version) + if removed > 0 then 1 else 0
    {
      removed := 0;
      var jobs := byJob.Keys;
      while jobs != {}
        invariant Valid()
        invariant SweptAll(State(), now, ttl) == SweptAll(old(State()), now, ttl)
        invariant Stale(State(), now, ttl) <= jobs <= byJob.Keys
        invariant removed + |byJob| == |old(byJob)| && version == old(version)
      {
        var jobId :| jobId in jobs;
        if now - byJob[jobId].at > ttl {
          SweepOnce(State(), jobId, now, ttl);
          ClearKeyed(State(), jobId);
          assert byJob.Keys == (byJob - {jobId}).Keys + {jobId};
          Delete(jobId);
          removed := removed + 1;
        }
        jobs := jobs - {jobId};
      }
      NothingToSweep(State(), now, ttl);
      if removed > 0 {
        version := version + 1;
      }
    }

    method ResetProgress()
      modifies this
      ensures Valid() && State() == Store(map[], map[]) && version == old(version) + 1
    {
      byJob, byItem := map[], map[];
      version := version + 1;
    }
  }
}
