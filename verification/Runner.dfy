/**
 The runner as the worker process runs it, proved to take the steps of RunnerModel.dfy
 (src/copycast/worker/runner.py:252-606).
 */
module Runner {
  import opened Basics
  import opened RunnerAttempts
  import opened RunnerExclusion
  import opened RunnerModel
  import opened RunnerSafety

  // `ORDER BY priority, run_after, id`
  predicate Before(t: Table, a: nat, b: nat)
    requires a in t && b in t
  {
    || t[a].priority < t[b].priority
    || (t[a].priority == t[b].priority && t[a].runAfter < t[b].runAfter)
    || (t[a].priority == t[b].priority && t[a].runAfter == t[b].runAfter && a < b)
  }

  predicate IsFirst(t: Table, id: nat, among: set<nat>)
    requires among <= t.Keys
  {
    id in among && forall other :: other in among && other != id ==> Before(t, id, other)
  }

  lemma FirstExists(t: Table, among: set<nat>)
    requires among <= t.Keys && among != {}
    ensures exists id :: IsFirst(t, id, among)
  {
    var x :| x in among;
    if among == {x} {
      assert IsFirst(t, x, among);
    } else {
      FirstExists(t, among - {x});
      var y :| IsFirst(t, y, among - {x});
      var first := if Before(t, x, y) then x else y;
      forall other | other in among && other != first ensures Before(t, first, other) {
        if other != x && other != y {
          assert Before(t, y, other);
        }
      }
      assert IsFirst(t, first, among);
    }
  }

  function Candidates(t: Table, now: Time, onDemandOnly: bool): set<nat> {
    set id | id in t && Claimable(t, id, now, onDemandOnly)
  }

  lemma EligibleAreCandidates(t: Table, now: Time, reserved: bool)
    ensures forall id :: Eligible(t, id, now, reserved) <==> id in Candidates(t, now, reserved)
  {
    forall id ensures Eligible(t, id, now, reserved) <==> id in Candidates(t, now, reserved) {
      EligibleIsClaimable(t, id, now, reserved);
    }
  }

  lemma FirstPrecedes(t: Table, id: nat, now: Time, reserved: bool)
    requires IsFirst(t, id, Candidates(t, now, reserved))
    ensures Eligible(t, id, now, reserved)
    ensures forall other :: other in t && other != id && Eligible(t, other, now, reserved) ==> Precedes(t, id, other)
  {
    EligibleAreCandidates(t, now, reserved);
    forall other | other in t && other != id && Eligible(t, other, now, reserved) ensures Precedes(t, id, other) {
      assert Before(t, id, other);
    }
  }

  // The rows a claim at `now` could take: what every turn of the claim loop uses up.
  function Due(t: Table, now: Time): set<nat> {
    set id | id in t && t[id].status.Queued? && t[id].runAfter <= now
  }

  // What one turn of the loop does to a row: nothing, a start, or a deferral to later.
  predicate Turned(before: Job, after: Job, started: bool, worker: string, now: Time) {
    if started then before.status.Queued? && before.runAfter <= now && after == Claimed(before, worker)
    else
      || after == before
      || (before.status.Queued? && before.runAfter <= now && after.runAfter > now
          && after == before.(runAfter := after.runAfter, claimedBy := None))
  }

  lemma DueShrinks(before: Table, after: Table, id: nat, now: Time)
    requires id in Due(before, now) && after.Keys == before.Keys
    requires forall k :: k in before && k != id ==> after[k] == before[k]
    requires !(after[id].status.Queued? && after[id].runAfter <= now)
    ensures Due(after, now) == Due(before, now) - {id} && |Due(after, now)| < |Due(before, now)|
  {
  }

  // A turn that gave a due job back for later, and changed nothing else that matters here.
  ghost predicate GaveBack(s: State, s': State, id: nat, now: Time) {
    && id in Due(s.table, now) && SameConfig(s, s') && s'.running == s.running
    && s'.table.Keys == s.table.Keys
    && (forall k :: k in s.table && k != id ==> s'.table[k] == s.table[k])
    && s'.table[id].runAfter > now
    && s'.table[id] == s.table[id].(runAfter := s'.table[id].runAfter, claimedBy := None)
  }

  // A turn that started a due job the check let through.
  ghost predicate Began(s: State, s': State, claim: Claim, now: Time) {
    && claim.id in Due(s.table, now) && SameConfig(s, s') && claim.id !in s.running
    && claim.job == Claimed(s.table[claim.id], s.worker)
    && !Quarantined(s, claim.job) && !Paused(s, claim.job, now)
    && s'.running == s.running[claim.id := Entry(claim, false)]
    && s'.table == s.table[claim.id := claim.job]
  }

  ghost predicate SameConfig(s: State, s': State) {
    && s'.loop.Idle? && s'.worker == s.worker && s'.concurrency == s.concurrency
    && s'.stuck == s.stuck && s'.quarantined == s.quarantined
    && s'.storageFullUntil == s.storageFullUntil && s'.stopped == s.stopped
  }

  lemma DeferEffect(s: State, reserved: bool, id: nat, now: Time)
    requires Enabled(s, Ask(reserved)) && Claimable(s.table, id, now, reserved)
    requires var job := Claimed(s.table[id], s.worker); Quarantined(s, job) || Paused(s, job, now)
    ensures GaveBack(s, Next(Next(Next(s, Ask(reserved)), Take(id, now)), Check(now)), id, now)
  {
  }

  // Asking, taking, and the check's deferral, with nothing in between.
  lemma DeferTurn(s: State, reserved: bool, id: nat, now: Time)
    requires Enabled(s, Ask(reserved)) && Claimable(s.table, id, now, reserved)
    requires var job := Claimed(s.table[id], s.worker); Quarantined(s, job) || Paused(s, job, now)
    ensures var s' := Next(Next(Next(s, Ask(reserved)), Take(id, now)), Check(now));
            Reaches(s, s') && GaveBack(s, s', id, now)
  {
    DeferEffect(s, reserved, id, now);
    var a := Next(s, Ask(reserved));
    var b := Next(a, Take(id, now));
    ReachesItself(s);
    ReachesNext(s, s, Ask(reserved));
    ReachesNext(s, a, Take(id, now));
    ReachesNext(s, b, Check(now));
  }

  function StartedTurn(s: State, reserved: bool, id: nat): State
    requires id in s.table
  {
    var job := Claimed(s.table[id], s.worker);
    var claim := Claim(id, job, reserved, s.stats.claimed);
    Started(Taken(s.(loop := Asking(reserved)), id).(loop := Cleared(claim)), claim)
  }

  lemma StartReaches(s: State, reserved: bool, id: nat, now: Time)
    requires Enabled(s, Ask(reserved)) && Claimable(s.table, id, now, reserved)
    requires var job := Claimed(s.table[id], s.worker); !Quarantined(s, job) && !Paused(s, job, now)
    ensures Reaches(s, StartedTurn(s, reserved, id))
  {
    var a := Next(s, Ask(reserved));
    var b := Next(a, Take(id, now));
    var c := Next(b, Check(now));
    ReachesItself(s);
    ReachesNext(s, s, Ask(reserved));
    ReachesNext(s, a, Take(id, now));
    ReachesNext(s, b, Check(now));
    if c.loop.Cleared? {
      ReachesNext(s, c, Begin);
    }
  }

  // Asking, taking, and the start of a job the check let through, with nothing in between.
  lemma StartTurn(s: State, reserved: bool, id: nat, now: Time)
    requires Reachable(s) && Enabled(s, Ask(reserved)) && Claimable(s.table, id, now, reserved)
    requires var job := Claimed(s.table[id], s.worker); !Quarantined(s, job) && !Paused(s, job, now)
    ensures var claim := Claim(id, Claimed(s.table[id], s.worker), reserved, s.stats.claimed);
            var s' := StartedTurn(s, reserved, id);
            Reaches(s, s') && Began(s, s', claim, now)
  {
    StartReaches(s, reserved, id, now);
    QueuedIsNotRunning(s, id);
    StartEffect(s, reserved, id, now);
  }

  lemma StartEffect(s: State, reserved: bool, id: nat, now: Time)
    requires s.loop.Idle? && Claimable(s.table, id, now, reserved) && id !in s.running
    requires var job := Claimed(s.table[id], s.worker); !Quarantined(s, job) && !Paused(s, job, now)
    ensures var claim := Claim(id, Claimed(s.table[id], s.worker), reserved, s.stats.claimed);
            Began(s, StartedTurn(s, reserved, id), claim, now)
  {
  }

  ghost predicate FilledRows(s: State, s': State, claimed: seq<nat>, now: Time) {
    && s'.table.Keys == s.table.Keys
    && (forall id :: id in s.table ==> Turned(s.table[id], s'.table[id], id in claimed, s.worker, now))
  }

  ghost predicate FilledSlots(s: State, s': State, claimed: seq<nat>, now: Time) {
    && (forall id :: id in claimed ==> id in s.table && id !in s.running)
    && (forall i, j :: 0 <= i < j < |claimed| ==> claimed[i] != claimed[j])
    && (forall id :: id in s'.running <==> id in s.running || id in claimed)
    && (forall id :: id in s.running ==> s'.running[id] == s.running[id])
    && (forall id :: id in claimed ==>
          && s'.running[id].claim.job == Claimed(s.table[id], s.worker)
          && !Quarantined(s, s'.running[id].claim.job)
          && !Paused(s, s'.running[id].claim.job, now))
  }

  // What filling one lane (or both) of the slots did, all at `now`: the rows it claimed run,
  // each once, none of them quarantined or paused; the other rows are as they were, or put
  // off to later.
  ghost predicate Filled(s: State, s': State, claimed: seq<nat>, now: Time) {
    SameConfig(s, s') && FilledRows(s, s', claimed, now) && FilledSlots(s, s', claimed, now)
  }

  lemma FilledNone(s: State, now: Time)
    requires s.loop.Idle?
    ensures Filled(s, s, [], now)
  {
  }

  lemma FilledThenDeferred(s: State, s1: State, s2: State, claimed: seq<nat>, id: nat, now: Time)
    requires Filled(s, s1, claimed, now) && GaveBack(s1, s2, id, now)
    ensures Filled(s, s2, claimed, now)
  {
    assert Turned(s.table[id], s1.table[id], id in claimed, s.worker, now);
    assert s1.table[id] == s.table[id];
    forall k | k in s.table ensures Turned(s.table[k], s2.table[k], k in claimed, s.worker, now) {
      assert Turned(s.table[k], s1.table[k], k in claimed, s.worker, now);
    }
  }

  lemma FilledThenStarted(s: State, s1: State, s2: State, claimed: seq<nat>, claim: Claim, now: Time)
    requires Filled(s, s1, claimed, now) && Began(s1, s2, claim, now)
    ensures Filled(s, s2, claimed + [claim.id], now)
  {
    var id := claim.id;
    assert Turned(s.table[id], s1.table[id], id in claimed, s.worker, now);
    assert s1.table[id] == s.table[id] && id !in claimed;
    var claimed' := claimed + [id];
    assert forall k :: k in claimed' <==> k in claimed || k == id;
    forall k | k in s.table ensures Turned(s.table[k], s2.table[k], k in claimed', s.worker, now) {
      assert Turned(s.table[k], s1.table[k], k in claimed, s.worker, now);
    }
  }

  lemma FilledRowsTwice(s: State, s1: State, s2: State, c1: seq<nat>, c2: seq<nat>, now: Time)
    requires s1.worker == s.worker && FilledRows(s, s1, c1, now) && FilledRows(s1, s2, c2, now)
    requires forall k :: k in c2 ==> k in s1.table
    ensures FilledRows(s, s2, c1 + c2, now)
    ensures forall k :: k in c2 ==> s1.table[k] == s.table[k] && k !in c1
  {
    forall k | k in s.table
      ensures Turned(s.table[k], s2.table[k], k in c1 + c2, s.worker, now)
      ensures k in c2 ==> s1.table[k] == s.table[k] && k !in c1
    {
      assert Turned(s.table[k], s1.table[k], k in c1, s.worker, now);
      assert Turned(s1.table[k], s2.table[k], k in c2, s.worker, now);
    }
  }

  lemma FilledSlotsTwice(s: State, s1: State, s2: State, c1: seq<nat>, c2: seq<nat>, now: Time)
    requires s1.worker == s.worker && s1.quarantined == s.quarantined && s1.storageFullUntil == s.storageFullUntil
    requires FilledSlots(s, s1, c1, now) && FilledSlots(s1, s2, c2, now)
    requires forall k :: k in c2 ==> k in s.table && s1.table[k] == s.table[k] && k !in c1
    ensures FilledSlots(s, s2, c1 + c2, now)
  {
    var c := c1 + c2;
    assert forall k :: k in c <==> k in c1 || k in c2;
    forall i, j | 0 <= i < j < |c| ensures c[i] != c[j] {
      if i < |c1| <= j {
        assert c[i] in c1 && c[j] in c2;
      }
    }
  }

  lemma FilledTwice(s: State, s1: State, s2: State, c1: seq<nat>, c2: seq<nat>, now: Time)
    requires Filled(s, s1, c1, now) && Filled(s1, s2, c2, now)
    ensures Filled(s, s2, c1 + c2, now)
  {
    FilledRowsTwice(s, s1, s2, c1, c2, now);
    FilledSlotsTwice(s, s1, s2, c1, c2, now);
  }

  // The jobs that hold no reserved slot, with the stuck ones, take up the concurrency.
  ghost predicate GeneralFull(s: State) {
    |set id | id in s.running && !s.running[id].claim.reserved| + s.stuck >= s.concurrency
  }

  ghost predicate ReservedFull(s: State) {
    |set id | id in s.running && s.running[id].claim.reserved| >= 1
  }

  lemma FullLanes(s: State)
    ensures RunnerModel.FreeSlots(s) == 0 <==> GeneralFull(s)
    ensures RunnerModel.FreeOnDemandSlots(s) == 0 <==> ReservedFull(s)
  {
    assert Lane(s.running, false) == set id | id in s.running && !s.running[id].claim.reserved;
    assert Lane(s.running, true) == set id | id in s.running && s.running[id].claim.reserved;
  }

  class Runner {
    const worker: string
    const concurrency: nat
    var table: Table
    var running: map<nat, Entry>
    var stuck: nat
    var quarantined: set<string>
    var storageFullUntil: Option<Time>
    var stopped: bool
    var stats: Stats
    ghost var loop: Loop
    ghost var stuckGeneral: nat
    ghost var ledger: seq<Option<Ending>>

    ghost function State(): State
      reads this
    {
      RunnerModel.State(worker, concurrency, table, running, stuck, quarantined, storageFullUntil, stopped,
                        stats, loop, stuckGeneral, ledger)
    }

    constructor (worker: string, concurrency: nat, table: Table)
      ensures State() == NewRunner(worker, concurrency, table)
    {
      this.worker, this.concurrency, this.table := worker, concurrency, table;
      running, stuck, quarantined, storageFullUntil, stopped := map[], 0, {}, None, false;
      stats := Stats(0, 0, 0, 0, 0, 0);
      loop, stuckGeneral, ledger := Idle, 0, [];
    }

    method FreeSlots() returns (free: nat)
      ensures free == RunnerModel.FreeSlots(State())
      ensures free == 0 <==> GeneralFull(State())
    {
      var general := |set id | id in running && !running[id].claim.reserved|;
      assert Lane(running, false) == set id | id in running && !running[id].claim.reserved;
      free := if concurrency - general - stuck > 0 then concurrency - general - stuck else 0;
    }

    method FreeOnDemandSlots() returns (free: nat)
      ensures free == RunnerModel.FreeOnDemandSlots(State())
      ensures free == 0 <==> ReservedFull(State())
    {
      var reserved := |set id | id in running && running[id].claim.reserved|;
      assert Lane(running, true) == set id | id in running && running[id].claim.reserved;
      free := if ON_DEMAND_SLOTS - reserved > 0 then ON_DEMAND_SLOTS - reserved else 0;
    }

    // The claim's transaction: the first eligible row by priority, then by when it was due, now
    // running at one attempt more; None exactly when no row is eligible.
    method ClaimOne(reserved: bool, now: Time) returns (claim: Option<Claim>)
      requires loop == Asking(reserved)
      modifies this
      ensures claim.None? <==> forall id :: id in old(table) ==> !Eligible(old(table), id, now, reserved)
      ensures claim.Some? ==>
                && Eligible(old(table), claim.value.id, now, reserved)
                && (forall other :: other in old(table) && other != claim.value.id
                                    && Eligible(old(table), other, now, reserved) ==>
                      Precedes(old(table), claim.value.id, other))
                && var row := old(table)[claim.value.id];
                   var job := row.(status := Running, claimedBy := Some(worker), attempt := row.attempt + 1);
                   claim.value.job == job && table == old(table)[claim.value.id := job]
      ensures claim.None? ==> State() == Next(old(State()), NothingToClaim) && Candidates(table, now, reserved) == {}
      ensures claim.Some? ==>
                && IsFirst(old(table), claim.value.id, Candidates(old(table), now, reserved))
                && State() == Taken(old(State()), claim.value.id)
                && loop == Holding(claim.value)
    {
      var candidates := Candidates(table, now, reserved);
      EligibleAreCandidates(table, now, reserved);
      if candidates == {} {
        loop := Idle;
        return None;
      }
      FirstExists(table, candidates);
      var id :| IsFirst(table, id, candidates);
      FirstPrecedes(table, id, now, reserved);
      var job := Claimed(table[id], worker);
      claim := Some(Claim(id, job, reserved, stats.claimed));
      table := table[id := job];
      stats := stats.(claimed := stats.claimed + 1);
      loop := Holding(claim.value);
      ledger := ledger + [None];
    }

    // The transaction that gives a claimed job back for later, its attempt uncounted.
    method GiveBack(claim: Claim, until: Time)
      requires loop == Holding(claim)
      modifies this
      ensures State() == Deferred(old(State()), claim, until)
    {
      table := Requeued(table, claim.id, until, false);
      stats := stats.(requeued := stats.requeued + 1);
      ledger := if claim.number < |ledger| then ledger[claim.number := Some(Deferral)] else ledger;
      loop := Idle;
    }

    method DeferIfNeeded(claim: Claim, now: Time) returns (deferred: bool)
      requires loop == Holding(claim)
      modifies this
      ensures deferred <==> Quarantined(old(State()), claim.job) || Paused(old(State()), claim.job, now)
      ensures State() == if deferred then Next(old(State()), Check(now)) else old(State()).(loop := Cleared(claim))
    {
      var job := claim.job;
      if job.feed.Some? && job.feed.value in quarantined {
        GiveBack(claim, now + QUARANTINE_RETRY);
        return true;
      }
      if job.kind.ArchiveItem? && storageFullUntil.Some? && now < storageFullUntil.value {
        GiveBack(claim, storageFullUntil.value);
        return true;
      }
      loop := Cleared(claim);
      return false;
    }

    method Start(claim: Claim)
      requires loop == Cleared(claim)
      modifies this
      ensures State() == Started(old(State()), claim)
    {
      running := running[claim.id := Entry(claim, false)];
      loop := Idle;
    }

    method SlotFree(reserved: bool) returns (free: bool)
      ensures free <==>
              (if reserved then RunnerModel.FreeOnDemandSlots(State()) else RunnerModel.FreeSlots(State())) > 0
    {
      if reserved {
        var slots := FreeOnDemandSlots();
        free := slots > 0;
      } else {
        var slots := FreeSlots();
        free := slots > 0;
      }
    }

    // One turn of the loop of `claim_available` with no other task in between: None when
    // there is nothing to claim, else the claim and whether it started.
    method Turn(reserved: bool, now: Time) returns (claim: Option<Claim>, started: bool)
      requires Reachable(State()) && Enabled(State(), Ask(reserved))
      modifies this
      ensures Reaches(old(State()), State())
      ensures claim.None? ==> State() == old(State()) && Candidates(table, now, reserved) == {}
      ensures claim.Some? ==> claim.value.id in Candidates(old(table), now, reserved)
                              && |Due(table, now)| < |Due(old(table), now)| && claim.value.reserved == reserved
      ensures claim.Some? && started ==> Began(old(State()), State(), claim.value, now)
      ensures claim.Some? && !started ==> GaveBack(old(State()), State(), claim.value.id, now)
    {
      loop := Asking(reserved);
      started := false;
      claim := ClaimOne(reserved, now);
      if claim.None? {
        ReachesItself(old(State()));
        return;
      }
      var deferred := DeferIfNeeded(claim.value, now);
      if deferred {
        DeferTurn(old(State()), reserved, claim.value.id, now);
      } else {
        Start(claim.value);
        started := true;
        assert State() == StartedTurn(old(State()), reserved, claim.value.id);
        StartTurn(old(State()), reserved, claim.value.id, now);
      }
      DueShrinks(old(table), table, claim.value.id, now);
    }

    // The inner loop of `claim_available`, run at one instant.
    method FillLane(reserved: bool, now: Time) returns (claimed: seq<nat>)
      requires Reachable(State()) && loop.Idle?
      modifies this
      ensures Reaches(old(State()), State())
      ensures Filled(old(State()), State(), claimed, now)
      ensures forall id :: id in claimed ==> running[id].claim.reserved == reserved
      ensures stopped
              || (if reserved then RunnerModel.FreeOnDemandSlots(State()) else RunnerModel.FreeSlots(State())) == 0
              || Candidates(table, now, reserved) == {}
      ensures Candidates(old(table), now, reserved) == {} ==> State() == old(State())
    {
      claimed := [];
      FilledNone(State(), now);
      ReachesItself(State());
      while !stopped
        invariant Reaches(old(State()), State()) && Filled(old(State()), State(), claimed, now)
        invariant forall id :: id in claimed ==> running[id].claim.reserved == reserved
        invariant Candidates(old(table), now, reserved) == {} ==> State() == old(State())
        decreases |Due(table, now)|
      {
        var free := SlotFree(reserved);
        if !free {
          return;
        }
        ghost var before := State();
        ReachableOn(old(State()), before);
        var claim, started := Turn(reserved, now);
        ReachesOn(old(State()), before, State());
        if claim.None? {
          return;
        }
        if started {
          FilledThenStarted(old(State()), before, State(), claimed, claim.value, now);
          claimed := claimed + [claim.value.id];
        } else {
          FilledThenDeferred(old(State()), before, State(), claimed, claim.value.id, now);
        }
      }
    }

    // Fill the general slots, then the reserved one. It ends, and leaves no slot idle that a
    // claimable job could use: unless stopping, each lane is full or has nothing to claim.
    method ClaimAvailable(now: Time) returns (claimed: seq<nat>)
      requires Reachable(State()) && loop.Idle?
      modifies this
      ensures Reaches(old(State()), State())
      ensures Filled(old(State()), State(), claimed, now)
      ensures stopped || GeneralFull(State()) || forall id :: !Eligible(table, id, now, false)
      ensures stopped || ReservedFull(State()) || forall id :: !Eligible(table, id, now, true)
    {
      var general := FillLane(false, now);
      ghost var s1 := State();
      ReachableOn(old(State()), s1);
      var onDemand := FillLane(true, now);
      ReachesOn(old(State()), s1, State());
      GeneralLaneKept(s1, State(), onDemand, now);
      OnDemandIsClaimable(s1.table, now);
      FilledTwice(old(State()), s1, State(), general, onDemand, now);
      claimed := general + onDemand;
      EligibleAreCandidates(table, now, false);
      EligibleAreCandidates(table, now, true);
      FullLanes(State());
    }

    ghost method Record(number: nat, e: Ending)
      modifies this`ledger
      ensures ledger == if number < |old(ledger)| then old(ledger)[number := Some(e)] else old(ledger)
    {
      if number < |ledger| {
        ledger := ledger[number := Some(e)];
      }
    }

    // The claim's row is finished, its counter goes up and it leaves the running jobs.
    method Conclude(claim: Claim, status: Status, e: Ending)
      modifies this
      ensures State() == Concluded(old(State()), claim, status, e)
    {
      table := Finished(table, claim.id, status);
      stats := Counted(stats, e);
      Record(claim.number, e);
      running := running - {claim.id};
    }

    // The same with its row queued again.
    method Retry(claim: Claim, runAfter: Time, counted: bool)
      modifies this
      ensures State() == Retried(old(State()), claim, runAfter, counted)
    {
      table := Requeued(table, claim.id, runAfter, counted);
      stats := stats.(requeued := stats.requeued + 1);
      Record(claim.number, Ending.Retry);
      running := running - {claim.id};
    }

    // The job's task ended; `failure` says how. Its row and the counters are settled together.
    method Settle(id: nat, result: Result, now: Time)
      requires id in running
      modifies this
      ensures State() == Settled(old(State()), id, result, now)
      ensures SettlesRow(old(State()), State(), id, result, now)
    {
      SettledSettlesRow(State(), id, result, now);
      var entry := running[id];
      var job := entry.claim.job;
      match result {
        case Completed => Conclude(entry.claim, Succeeded, Success);
        case WasCancelled =>
          if stopped && !entry.userCancelled {
            Retry(entry.claim, now, false);
          } else {
            Conclude(entry.claim, Cancelled, Cancel);
          }
        case StorageFull =>
          if job.kind.ArchiveItem? {
            storageFullUntil := Some(now + STORAGE_FULL_RETRY);
          }
          Retry(entry.claim, now + STORAGE_FULL_RETRY, false);
        case NotReady(retryAfter) =>
          Retry(entry.claim, now + LiveRetryDelay(retryAfter, job.createdAt, now), false);
        case Permanent => Conclude(entry.claim, Failed, Failure);
        case Transient(jitter) =>
          if job.attempt < job.maxAttempts {
            Retry(entry.claim, now + BackoffSeconds(job.attempt, jitter), true);
          } else {
            Conclude(entry.claim, Failed, Failure);
          }
      }
    }

    // The thread ignored its token past the grace period.
    method MarkStuck(id: nat)
      requires id in running
      modifies this
      ensures State() == Abandon(old(State()), id)
    {
      var claim := running[id].claim;
      stuck := stuck + 1;
      stuckGeneral := if claim.reserved then stuckGeneral else stuckGeneral + 1;
      if claim.job.feed.Some? {
        quarantined := quarantined + {claim.job.feed.value};
      }
      Conclude(claim, Failed, Abandoned);
    }

    method HandBack(id: nat, now: Time)
      requires id in running
      modifies this
      ensures State() == Drained(old(State()), id, now)
    {
      var claim := running[id].claim;
      table := Requeued(table, claim.id, now, false);
      stats := stats.(requeued := stats.requeued + 1);
      running := running - {claim.id};
      Record(claim.number, Handback);
    }

    // Hand every job still running back to the queue, its attempt uncounted.
    method Drain(now: Time)
      requires Reachable(State()) && stopped && loop.Idle?
      modifies this
      ensures Reaches(old(State()), State())
      ensures running == map[]
      ensures HandedBack(old(State()), State(), now)
    {
      ReachesItself(State());
      HandedBackNone(State(), now);
      var leftovers := running.Keys;
      while leftovers != {}
        invariant leftovers == running.Keys
        invariant stopped && loop.Idle?
        invariant Reaches(old(State()), State())
        invariant HandedBack(old(State()), State(), now)
        decreases |leftovers|
      {
        ghost var before := State();
        var id :| id in leftovers;
        ReachableOn(old(State()), before);
        RunningIsMine(before, id);
        HandBack(id, now);
        leftovers := leftovers - {id};
        ReachesNext(old(State()), before, DrainOne(id, now));
        HandedBackOne(old(State()), before, State(), id, now);
      }
    }
  }

  // The drain so far: what it removed is queued again at the attempt it had before its claim,
  // one requeue each; nothing else changed.
  ghost predicate HandedBack(s: State, s': State, now: Time) {
    && s'.running.Keys <= s.running.Keys
    && (forall id :: id in s'.running ==> s'.running[id] == s.running[id])
    && s'.table.Keys == s.table.Keys
    && (forall id :: id in s.table ==>
          s'.table[id] ==
          if id in s.running && id !in s'.running
          then s.table[id].(status := Queued, runAfter := now, claimedBy := None,
                            attempt := if s.table[id].attempt == 0 then 0 else s.table[id].attempt - 1)
          else s.table[id])
    && s'.stats == s.stats.(requeued := s'.stats.requeued)
    && s'.stats.requeued + |s'.running| == s.stats.requeued + |s.running|
    && s'.stuck == s.stuck && s'.quarantined == s.quarantined
  }

  lemma HandedBackNone(s: State, now: Time)
    ensures HandedBack(s, s, now)
  {
  }

  lemma RunningIsMine(s: State, id: nat)
    requires Reachable(s) && id in s.running
    ensures s.running[id].claim.id == id && id in s.table && s.table[id].status.Running?
  {
    ReachableInv(s);
    assert RowOf(s, s.running[id].claim);
  }

  lemma HandedBackOne(s: State, s1: State, s2: State, id: nat, now: Time)
    requires HandedBack(s, s1, now) && id in s1.running && s1.running[id].claim.id == id
    requires id in s1.table && s1.table[id].status.Running? && s2 == Drained(s1, id, now)
    ensures HandedBack(s, s2, now)
  {
    assert s2.running.Keys == s1.running.Keys - {id};
    assert |s2.running| == |s1.running| - 1;
  }

  lemma OnDemandIsClaimable(t: Table, now: Time)
    ensures Candidates(t, now, true) <= Candidates(t, now, false)
  {
  }

  // Filling the reserved slot leaves the general ones as they are.
  lemma GeneralLaneKept(s: State, s': State, claimed: seq<nat>, now: Time)
    requires Filled(s, s', claimed, now)
    requires forall id :: id in claimed ==> s'.running[id].claim.reserved
    ensures RunnerModel.FreeSlots(s') == RunnerModel.FreeSlots(s)
  {
    assert Lane(s'.running, false) == Lane(s.running, false);
  }
}
