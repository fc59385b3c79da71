/** What every run of the worker keeps: each claim is accounted for and no slot is oversold. */
module RunnerSafety {
  import opened Basics
  import opened RunnerModel

  // The claim the loop carries, if any.
  function InHand(s: State): set<Claim> {
    if s.loop.Holding? || s.loop.Cleared? then {s.loop.claim} else {}
  }

  predicate Carries(s: State, id: nat) {
    (s.loop.Holding? || s.loop.Cleared?) && s.loop.claim.id == id
  }

  // The claims not yet ended.
  predicate Open(s: State, number: nat) {
    || ((s.loop.Holding? || s.loop.Cleared?) && s.loop.claim.number == number)
    || exists id :: id in s.running && s.running[id].claim.number == number
  }

  function Count(ledger: seq<Option<Ending>>, e: Option<Ending>): nat {
    if ledger == [] then 0 else (if ledger[0] == e then 1 else 0) + Count(ledger[1..], e)
  }

  function CountEnded(s: State, e: Ending): nat {
    Count(s.ledger, Some(e))
  }

  // The table agrees with the runner: the rows running under this worker are exactly the
  // jobs it runs or carries, at the attempt their claim counted.
  ghost predicate RowsAgree(s: State) {
    && (forall id :: id in s.running ==> s.running[id].claim.id == id && !Carries(s, id))
    && (forall id :: id in s.table && Mine(s, s.table[id]) ==> id in s.running || Carries(s, id))
    && (forall id :: id in s.running ==> RowOf(s, s.running[id].claim))
    && (forall c :: c in InHand(s) ==> RowOf(s, c))
  }

  ghost predicate RowOf(s: State, c: Claim) {
    && c.id in s.table
    && Mine(s, s.table[c.id])
    && s.table[c.id] == c.job.(cancelRequested := s.table[c.id].cancelRequested)
    && c.job.attempt > 0
  }

  // Every claim has a number of its own, and has ended unless it is still open.
  ghost predicate LedgerAgrees(s: State) {
    && |s.ledger| == s.stats.claimed
    && (forall k :: 0 <= k < |s.ledger| ==> (s.ledger[k].None? <==> Open(s, k)))
    && (forall id :: id in s.running ==> s.running[id].claim.number < |s.ledger|)
    && (forall c :: c in InHand(s) ==> c.number < |s.ledger|)
    && (forall a, b :: a in s.running && b in s.running && a != b ==>
          s.running[a].claim.number != s.running[b].claim.number)
    && (forall id, c :: id in s.running && c in InHand(s) ==> s.running[id].claim.number != c.number)
  }

  ghost predicate StatsAgree(s: State) {
    && s.stats.succeeded == CountEnded(s, Success)
    && s.stats.failed == CountEnded(s, Failure)
    && s.stats.cancelled == CountEnded(s, Cancel)
    && s.stats.stuck == CountEnded(s, Abandoned)
    && s.stats.requeued == CountEnded(s, Retry) + CountEnded(s, Deferral) + CountEnded(s, Handback)
  }

  ghost predicate Conserved(s: State) {
    s.stats.claimed ==
    s.stats.succeeded + s.stats.failed + s.stats.requeued + s.stats.cancelled + s.stats.stuck
    + |s.running| + |InHand(s)|
  }

  // A claim in progress already takes the slot it was asked for.
  ghost predicate SlotsKept(s: State) {
    var general := |Lane(s.running, false)| + s.stuckGeneral;
    var reserved := |Lane(s.running, true)|;
    var busy := !s.loop.Idle?;
    var forReserved := busy && (if s.loop.Asking? then s.loop.reserved else s.loop.claim.reserved);
    && general + (if busy && !forReserved then 1 else 0) <= s.concurrency
    && reserved + (if forReserved then 1 else 0) <= ON_DEMAND_SLOTS
    && s.stuckGeneral <= s.stuck == s.stats.stuck
  }

  ghost predicate Inv(s: State) {
    RowsAgree(s) && LedgerAgrees(s) && StatsAgree(s) && Conserved(s) && SlotsKept(s)
  }

  // ------------------------------------------------------------------ counting

  lemma {:induction false} CountEnd(ledger: seq<Option<Ending>>, k: nat, e: Ending, f: Ending)
    requires k < |ledger| && ledger[k].None?
    ensures Count(ledger[k := Some(e)], Some(f)) == Count(ledger, Some(f)) + if e == f then 1 else 0
  {
    if k > 0 {
      assert ledger[k := Some(e)][1..] == ledger[1..][k - 1 := Some(e)];
      CountEnd(ledger[1..], k - 1, e, f);
    } else {
      assert ledger[k := Some(e)][1..] == ledger[1..];
    }
  }

  lemma {:induction false} CountOpened(ledger: seq<Option<Ending>>, f: Ending)
    ensures Count(ledger + [None], Some(f)) == Count(ledger, Some(f))
  {
    if ledger == [] {
      assert (ledger + [None])[1..] == [];
    } else {
      assert (ledger + [None])[1..] == ledger[1..] + [None];
      CountOpened(ledger[1..], f);
    }
  }

  lemma LaneShrinks(running: map<nat, Entry>, id: nat, reserved: bool)
    requires id in running
    ensures |running - {id}| == |running| - 1
    ensures |Lane(running - {id}, reserved)| ==
            |Lane(running, reserved)| - (if running[id].claim.reserved == reserved then 1 else 0)
  {
    assert (running - {id}).Keys == running.Keys - {id};
    assert Lane(running - {id}, reserved) == Lane(running, reserved) - {id};
  }

  lemma LaneAdds(running: map<nat, Entry>, id: nat, e: Entry, reserved: bool)
    requires id !in running
    ensures Lane(running[id := e], reserved) ==
            if e.claim.reserved == reserved then Lane(running, reserved) + {id} else Lane(running, reserved)
  {
  }

  lemma LaneGrows(running: map<nat, Entry>, id: nat, e: Entry, reserved: bool)
    requires id !in running
    ensures |running[id := e]| == |running| + 1
    ensures |Lane(running[id := e], reserved)| ==
            |Lane(running, reserved)| + (if e.claim.reserved == reserved then 1 else 0)
  {
    assert running[id := e].Keys == running.Keys + {id};
    LaneAdds(running, id, e, reserved);
    assert id !in Lane(running, reserved);
  }

  // ------------------------------------------------------------------ ending a running claim

  // What the endings of a running claim have in common.
  ghost predicate Ends(s: State, s': State, id: nat, e: Ending) {
    && id in s.running
    && s'.worker == s.worker && s'.concurrency == s.concurrency && s'.loop == s.loop
    && s'.running == s.running - {id}
    && s.running[id].claim.number < |s.ledger|
    && s'.ledger == s.ledger[s.running[id].claim.number := Some(e)]
    && (forall k :: k != id ==> (k in s'.table <==> k in s.table) && (k in s.table ==> s'.table[k] == s.table[k]))
    && (id in s'.table ==> !s'.table[id].status.Running?)
    && s'.stats == Counted(s.stats, e)
    && s'.stuck == s.stuck + (if e.Abandoned? then 1 else 0)
    && s'.stuckGeneral == s.stuckGeneral + (if e.Abandoned? && !s.running[id].claim.reserved then 1 else 0)
    && !e.Deferral?
  }

  lemma EndsRows(s: State, s': State, id: nat, e: Ending)
    requires RowsAgree(s) && Ends(s, s', id, e)
    ensures RowsAgree(s')
  {
    assert InHand(s') == InHand(s);
    forall k | k in s'.running ensures RowOf(s', s'.running[k].claim) {
      assert RowOf(s, s.running[k].claim);
    }
  }

  lemma EndsLedger(s: State, s': State, id: nat, e: Ending)
    requires LedgerAgrees(s) && Ends(s, s', id, e)
    ensures LedgerAgrees(s')
  {
    assert InHand(s') == InHand(s);
    var n := s.running[id].claim.number;
    forall k | 0 <= k < |s'.ledger| ensures s'.ledger[k].None? <==> Open(s', k) {
      if k == n {
        if s.loop.Holding? || s.loop.Cleared? {
          assert s.loop.claim in InHand(s);
        }
        assert !Open(s', k);
      } else if exists a :: a in s.running && s.running[a].claim.number == k {
        var a :| a in s.running && s.running[a].claim.number == k;
        assert s'.running[a].claim.number == k;
      }
    }
  }

  lemma EndsStats(s: State, s': State, id: nat, e: Ending)
    requires LedgerAgrees(s) && StatsAgree(s) && Ends(s, s', id, e)
    ensures StatsAgree(s')
  {
    var n := s.running[id].claim.number;
    assert Open(s, n);
    forall f: Ending {
      CountEnd(s.ledger, n, e, f);
    }
  }

  lemma EndsConserved(s: State, s': State, id: nat, e: Ending)
    requires Conserved(s) && Ends(s, s', id, e)
    ensures Conserved(s')
  {
    LaneShrinks(s.running, id, false);
    assert InHand(s') == InHand(s);
  }

  lemma EndsSlots(s: State, s': State, id: nat, e: Ending)
    requires SlotsKept(s) && Ends(s, s', id, e)
    ensures SlotsKept(s')
  {
    LaneShrinks(s.running, id, false);
    LaneShrinks(s.running, id, true);
  }

  lemma EndsInv(s: State, s': State, id: nat, e: Ending)
    requires Inv(s) && Ends(s, s', id, e)
    ensures Inv(s')
  {
    EndsRows(s, s', id, e);
    EndsLedger(s, s', id, e);
    EndsStats(s, s', id, e);
    EndsConserved(s, s', id, e);
    EndsSlots(s, s', id, e);
  }

  function EndingOf(s: State, id: nat, result: Result): Ending
    requires id in s.running
  {
    match result
    case Completed => Success
    case WasCancelled => if s.stopped && !s.running[id].userCancelled then Retry else Cancel
    case StorageFull => Retry
    case NotReady(_) => Retry
    case Permanent => Failure
    case Transient(_) =>
      if s.running[id].claim.job.attempt < s.running[id].claim.job.maxAttempts then Retry else Failure
  }

  lemma RetriedEnds(s: State, until: Option<Time>, id: nat, runAfter: Time, counted: bool)
    requires Inv(s) && id in s.running
    ensures Ends(s, Retried(s.(storageFullUntil := until), s.running[id].claim, runAfter, counted), id, Retry)
  {
    assert RowOf(s, s.running[id].claim);
  }

  lemma ConcludedEnds(s: State, id: nat, status: Status, e: Ending)
    requires Inv(s) && id in s.running && !status.Running? && !e.Deferral? && !e.Abandoned?
    ensures Ends(s, Concluded(s, s.running[id].claim, status, e), id, e)
  {
    assert RowOf(s, s.running[id].claim);
  }

  lemma SettleEnds(s: State, id: nat, result: Result, now: Time)
    requires Inv(s) && id in s.running
    ensures Ends(s, Settled(s, id, result, now), id, EndingOf(s, id, result))
  {
    var job := s.running[id].claim.job;
    match result
    case Completed => ConcludedEnds(s, id, Succeeded, Success);
    case WasCancelled =>
      RetriedEnds(s, s.storageFullUntil, id, now, false);
      ConcludedEnds(s, id, Cancelled, Cancel);
    case StorageFull =>
      var until := now + STORAGE_FULL_RETRY;
      RetriedEnds(s, if job.kind.ArchiveItem? then Some(until) else s.storageFullUntil, id, until, false);
    case NotReady(retryAfter) =>
      RetriedEnds(s, s.storageFullUntil, id, now + LiveRetryDelay(retryAfter, job.createdAt, now), false);
    case Permanent => ConcludedEnds(s, id, Failed, Failure);
    case Transient(jitter) =>
      RetriedEnds(s, s.storageFullUntil, id, now + BackoffSeconds(job.attempt, jitter), true);
      ConcludedEnds(s, id, Failed, Failure);
  }

  lemma MarkStuckEnds(s: State, id: nat)
    requires Inv(s) && id in s.running
    ensures Ends(s, Abandon(s, id), id, Abandoned)
    ensures id in s.table && Abandon(s, id).table[id] == s.table[id].(status := Failed)
    ensures var feed := s.running[id].claim.job.feed;
            Abandon(s, id).quarantined == s.quarantined + if feed.Some? then {feed.value} else {}
  {
    assert RowOf(s, s.running[id].claim);
  }

  lemma DrainEnds(s: State, id: nat, now: Time)
    requires Inv(s) && id in s.running
    ensures Ends(s, Drained(s, id, now), id, Handback)
    ensures id in s.table && s.table[id].attempt > 0
    ensures Drained(s, id, now).table[id] ==
            s.table[id].(status := Queued, runAfter := now, claimedBy := None, attempt := s.table[id].attempt - 1)
  {
    assert RowOf(s, s.running[id].claim);
  }

  // ------------------------------------------------------------------ claiming

  lemma TakeRows(s: State, id: nat, now: Time)
    requires RowsAgree(s) && Enabled(s, Take(id, now))
    ensures RowsAgree(Taken(s, id)) && id !in s.running
  {
    var s' := Taken(s, id);
    forall k | k in s.running ensures s.table[k].status.Running? {
      assert RowOf(s, s.running[k].claim);
    }
    assert id !in s.running;
    forall k | k in s'.running ensures RowOf(s', s'.running[k].claim) {
      assert RowOf(s, s.running[k].claim);
    }
  }

  lemma TakeLedger(s: State, id: nat, now: Time)
    requires LedgerAgrees(s) && Enabled(s, Take(id, now))
    ensures LedgerAgrees(Taken(s, id))
  {
    var s' := Taken(s, id);
    forall k | 0 <= k < |s'.ledger| ensures s'.ledger[k].None? <==> Open(s', k) {
      if k < |s.ledger| {
        assert Open(s', k) <==> Open(s, k);
      }
    }
  }

  lemma TakeInv(s: State, id: nat, now: Time)
    requires Inv(s) && Enabled(s, Take(id, now))
    ensures Inv(Taken(s, id))
  {
    var s' := Taken(s, id);
    TakeRows(s, id, now);
    TakeLedger(s, id, now);
    assert InHand(s') == {s'.loop.claim} && InHand(s) == {};
    forall f: Ending {
      CountOpened(s.ledger, f);
    }
  }

  // What leaving the loop's hand has in common, for a start (None) or a deferral.
  ghost predicate Leaves(s: State, s': State, claim: Claim, e: Option<Ending>) {
    && (s.loop.Holding? || s.loop.Cleared?) && s.loop.claim == claim && s'.loop.Idle?
    && s'.worker == s.worker && s'.concurrency == s.concurrency
    && s'.stuck == s.stuck && s'.stuckGeneral == s.stuckGeneral
    && claim.number < |s.ledger|
    && (if e.None? then
          && s'.running == s.running[claim.id := Entry(claim, false)]
          && s'.table == s.table && s'.stats == s.stats && s'.ledger == s.ledger
        else
          && e.value.Deferral?
          && s'.running == s.running
          && (forall k :: k != claim.id ==>
                (k in s'.table <==> k in s.table) && (k in s.table ==> s'.table[k] == s.table[k]))
          && (claim.id in s'.table ==> !s'.table[claim.id].status.Running?)
          && s'.stats == Counted(s.stats, Deferral)
          && s'.ledger == s.ledger[claim.number := e])
  }

  lemma LeavesRows(s: State, s': State, claim: Claim, e: Option<Ending>)
    requires RowsAgree(s) && Leaves(s, s', claim, e)
    ensures RowsAgree(s')
  {
    assert claim in InHand(s);
    forall k | k in s'.running ensures RowOf(s', s'.running[k].claim) {
      if k in s.running {
        assert RowOf(s, s.running[k].claim);
      }
    }
  }

  lemma LeavesOpen(s: State, s': State, claim: Claim, e: Option<Ending>, k: nat)
    requires RowsAgree(s) && LedgerAgrees(s) && Leaves(s, s', claim, e)
    ensures Open(s', k) <==> Open(s, k) && !(e.Some? && k == claim.number)
  {
    assert claim in InHand(s);
    if exists a :: a in s.running && s.running[a].claim.number == k {
      var a :| a in s.running && s.running[a].claim.number == k;
      assert a != claim.id && s'.running[a].claim.number == k;
    } else if k == claim.number && e.None? {
      assert s'.running[claim.id].claim.number == k;
    }
  }

  lemma LeavesLedger(s: State, s': State, claim: Claim, e: Option<Ending>)
    requires RowsAgree(s) && LedgerAgrees(s) && Leaves(s, s', claim, e)
    ensures LedgerAgrees(s')
  {
    assert claim in InHand(s);
    forall k | 0 <= k < |s'.ledger| ensures s'.ledger[k].None? <==> Open(s', k) {
      LeavesOpen(s, s', claim, e, k);
    }
    assert InHand(s') == {};
  }

  lemma LeavesCounts(s: State, s': State, claim: Claim, e: Option<Ending>)
    requires RowsAgree(s) && LedgerAgrees(s) && StatsAgree(s) && Conserved(s) && SlotsKept(s)
    requires Leaves(s, s', claim, e)
    ensures StatsAgree(s') && Conserved(s') && SlotsKept(s')
  {
    assert InHand(s) == {claim} && InHand(s') == {};
    if e.None? {
      LaneGrows(s.running, claim.id, Entry(claim, false), false);
      LaneGrows(s.running, claim.id, Entry(claim, false), true);
    } else {
      assert Open(s, claim.number);
      forall f: Ending {
        CountEnd(s.ledger, claim.number, Deferral, f);
      }
    }
  }

  lemma StartInv(s: State, claim: Claim)
    requires Inv(s) && (s.loop.Holding? || s.loop.Cleared?) && s.loop.claim == claim
    ensures Inv(Started(s, claim))
  {
    var s' := Started(s, claim);
    assert claim in InHand(s);
    LeavesRows(s, s', claim, None);
    LeavesLedger(s, s', claim, None);
    LeavesCounts(s, s', claim, None);
  }

  lemma DeferInv(s: State, claim: Claim, until: Time)
    requires Inv(s) && s.loop.Holding? && s.loop.claim == claim
    ensures Inv(Deferred(s, claim, until))
  {
    var s' := Deferred(s, claim, until);
    assert claim in InHand(s) && RowOf(s, claim);
    LeavesRows(s, s', claim, Some(Deferral));
    LeavesLedger(s, s', claim, Some(Deferral));
    LeavesCounts(s, s', claim, Some(Deferral));
  }

  // ------------------------------------------------------------------ every step, every run

  // The ledger still agrees when the claims in hand are the same.
  lemma SteadyLedger(s: State, s': State)
    requires LedgerAgrees(s) && InHand(s') == InHand(s)
    requires s'.running == s.running && s'.ledger == s.ledger && s'.stats == s.stats
    ensures LedgerAgrees(s')
  {
    forall k ensures Open(s', k) <==> Open(s, k) {
      assert (exists c :: c in InHand(s') && c.number == k) <==> (exists c :: c in InHand(s) && c.number == k);
      InHandNumber(s, k);
      InHandNumber(s', k);
    }
  }

  lemma InHandNumber(s: State, k: nat)
    ensures ((s.loop.Holding? || s.loop.Cleared?) && s.loop.claim.number == k)
       <==> exists c :: c in InHand(s) && c.number == k
  {
    if s.loop.Holding? || s.loop.Cleared? {
      assert s.loop.claim in InHand(s);
    }
  }

  lemma EnvironmentRows(s: State, t: Table)
    requires RowsAgree(s) && Foreign(s, t)
    ensures RowsAgree(s.(table := t))
  {
    var s' := s.(table := t);
    assert InHand(s') == InHand(s);
    forall k | k in s'.running ensures RowOf(s', s'.running[k].claim) {
      assert RowOf(s, s.running[k].claim);
    }
    forall c | c in InHand(s') ensures RowOf(s', c) {
      assert RowOf(s, c);
    }
  }

  lemma EnvironmentInv(s: State, t: Table)
    requires Inv(s) && Foreign(s, t)
    ensures Inv(s.(table := t))
  {
    var s' := s.(table := t);
    assert InHand(s') == InHand(s);
    EnvironmentRows(s, t);
    SteadyLedger(s, s');
  }

  lemma LoopRows(s: State, loop: Loop)
    requires RowsAgree(s) && InHand(s.(loop := loop)) == InHand(s)
    ensures RowsAgree(s.(loop := loop))
  {
    var s' := s.(loop := loop);
    forall id ensures Carries(s', id) <==> Carries(s, id) {
      CarriedInHand(s, id);
      CarriedInHand(s', id);
    }
    forall k | k in s'.running ensures RowOf(s', s'.running[k].claim) {
      assert RowOf(s, s.running[k].claim);
    }
    forall c | c in InHand(s') ensures RowOf(s', c) {
      assert RowOf(s, c);
    }
  }

  lemma CarriedInHand(s: State, id: nat)
    ensures Carries(s, id) <==> exists c :: c in InHand(s) && c.id == id
  {
    if s.loop.Holding? || s.loop.Cleared? {
      assert s.loop.claim in InHand(s);
    }
  }

  lemma LoopInv(s: State, loop: Loop)
    requires Inv(s)
    requires (s.loop.Holding? && loop == Cleared(s.loop.claim)) ||
             (s.loop.Asking? && loop.Idle?) ||
             (s.loop.Idle? && loop.Asking? && Enabled(s, Ask(loop.reserved)))
    ensures Inv(s.(loop := loop))
  {
    var s' := s.(loop := loop);
    assert InHand(s') == InHand(s);
    LoopRows(s, loop);
    SteadyLedger(s, s');
  }

  // Steps that change no claim: only flags of the running jobs, or of the runner.
  ghost predicate SameClaims(s: State, s': State) {
    && s'.worker == s.worker && s'.concurrency == s.concurrency && s'.table == s.table
    && s'.stuck == s.stuck && s'.stuckGeneral == s.stuckGeneral && s'.stats == s.stats
    && s'.ledger == s.ledger && s'.loop == s.loop
    && s'.running.Keys == s.running.Keys
    && forall a :: a in s.running ==> s'.running[a].claim == s.running[a].claim
  }

  lemma SameClaimsInv(s: State, s': State)
    requires Inv(s) && SameClaims(s, s')
    ensures Inv(s')
  {
    assert InHand(s') == InHand(s);
    assert Lane(s'.running, false) == Lane(s.running, false) && Lane(s'.running, true) == Lane(s.running, true);
    SameClaimsRows(s, s');
    SameClaimsLedger(s, s');
    assert |s'.running| == |s'.running.Keys| == |s.running|;
  }

  lemma SameClaimsRows(s: State, s': State)
    requires RowsAgree(s) && SameClaims(s, s')
    ensures RowsAgree(s')
  {
    assert InHand(s') == InHand(s);
    forall k | k in s'.running ensures RowOf(s', s'.running[k].claim) {
      assert RowOf(s, s.running[k].claim);
    }
    forall c | c in InHand(s') ensures RowOf(s', c) {
      assert RowOf(s, c);
    }
  }

  lemma SameClaimsLedger(s: State, s': State)
    requires LedgerAgrees(s) && SameClaims(s, s')
    ensures LedgerAgrees(s')
  {
    assert InHand(s') == InHand(s);
    forall k | 0 <= k < |s.ledger| ensures Open(s', k) <==> Open(s, k) {
      if exists a :: a in s.running && s.running[a].claim.number == k {
        var a :| a in s.running && s.running[a].claim.number == k;
        assert s'.running[a].claim.number == k;
      }
    }
  }

  lemma CheckInv(s: State, now: Time)
    requires Inv(s) && s.loop.Holding?
    ensures Inv(Checked(s, s.loop.claim, now))
  {
    var claim := s.loop.claim;
    if Quarantined(s, claim.job) {
      DeferInv(s, claim, now + QUARANTINE_RETRY);
    } else if Paused(s, claim.job, now) {
      DeferInv(s, claim, s.storageFullUntil.value);
    } else if claim.job.attempt <= 1 {
      StartInv(s, claim);
    } else {
      LoopInv(s, Cleared(claim));
    }
  }

  lemma EndingInv(s: State, step: Step)
    requires Inv(s) && Enabled(s, step) && (step.Settle? || step.MarkStuck? || step.DrainOne?)
    ensures Inv(Next(s, step))
  {
    if step.Settle? {
      SettleEnds(s, step.id, step.result, step.now);
      EndsInv(s, Settled(s, step.id, step.result, step.now), step.id, EndingOf(s, step.id, step.result));
    } else if step.MarkStuck? {
      MarkStuckEnds(s, step.id);
      EndsInv(s, Abandon(s, step.id), step.id, Abandoned);
    } else {
      DrainEnds(s, step.id, step.now);
      EndsInv(s, Drained(s, step.id, step.now), step.id, Handback);
    }
  }

  lemma NextInv(s: State, step: Step)
    requires Inv(s) && Enabled(s, step)
    ensures Inv(Next(s, step))
  {
    if step.Settle? || step.MarkStuck? || step.DrainOne? {
      EndingInv(s, step);
    } else if step.UserCancel? || step.RequestStop? {
      SameClaimsInv(s, Next(s, step));
    } else if step.Environment? {
      EnvironmentInv(s, step.table);
    } else {
      ClaimingInv(s, step);
    }
  }

  lemma ClaimingInv(s: State, step: Step)
    requires Inv(s) && Enabled(s, step)
    requires step.Ask? || step.NothingToClaim? || step.Take? || step.Check? || step.Begin?
    ensures Inv(Next(s, step))
  {
    match step
    case Ask(reserved) => LoopInv(s, Asking(reserved));
    case NothingToClaim => LoopInv(s, Idle);
    case Take(id, now) => TakeInv(s, id, now);
    case Check(now) => CheckInv(s, now);
    case Begin => StartInv(s, s.loop.claim);
  }

  ghost predicate Fresh(worker: string, table: Table) {
    forall id :: id in table ==> !(table[id].status.Running? && table[id].claimedBy == Some(worker))
  }

  lemma {:induction false} RunInv(s: State, steps: seq<Step>)
    requires Inv(s) && Runs(s, steps)
    ensures Inv(Run(s, steps))
    decreases |steps|
  {
    if steps != [] {
      NextInv(s, steps[0]);
      RunInv(Next(s, steps[0]), steps[1..]);
    }
  }

  lemma NewRunnerInv(worker: string, concurrency: nat, table: Table)
    requires Fresh(worker, table)
    ensures Inv(NewRunner(worker, concurrency, table))
  {
  }

  // ------------------------------------------------------------------ conservation

  // Over every run, claimed = succeeded + failed + requeued + cancelled + stuck + in hand.
  lemma ClaimsAreConserved(worker: string, concurrency: nat, table: Table, steps: seq<Step>)
    requires Fresh(worker, table) && Runs(NewRunner(worker, concurrency, table), steps)
    ensures var s := Run(NewRunner(worker, concurrency, table), steps);
            && s.stats.claimed ==
               s.stats.succeeded + s.stats.failed + s.stats.requeued + s.stats.cancelled + s.stats.stuck
               + |s.running| + (if s.loop.Holding? || s.loop.Cleared? then 1 else 0)
            && StatsAgree(s)
  {
    NewRunnerInv(worker, concurrency, table);
    RunInv(NewRunner(worker, concurrency, table), steps);
    var s := Run(NewRunner(worker, concurrency, table), steps);
    assert |InHand(s)| == if s.loop.Holding? || s.loop.Cleared? then 1 else 0;
  }

  lemma EndedByOther(s: State, id: nat, k: nat)
    requires Inv(s) && id in s.running && k < |s.ledger| && s.ledger[k].Some?
    ensures s.running[id].claim.number != k
  {
    assert !Open(s, k);
  }

  // How a claim ended is settled once.
  lemma EndedOnce(s: State, step: Step, k: nat)
    requires Inv(s) && Enabled(s, step) && k < |s.ledger| && s.ledger[k].Some?
    ensures k < |Next(s, step).ledger| && Next(s, step).ledger[k] == s.ledger[k]
  {
    if step.Settle? || step.MarkStuck? || step.DrainOne? {
      EndedBefore(s, step, k);
    } else if step.Check? {
      EndedUnchecked(s, step.now, k);
    }
  }

  lemma EndedUnchecked(s: State, now: Time, k: nat)
    requires Inv(s) && s.loop.Holding? && k < |s.ledger| && s.ledger[k].Some?
    ensures k < |Next(s, Check(now)).ledger| && Next(s, Check(now)).ledger[k] == s.ledger[k]
  {
    assert !Open(s, k);
    CheckedLedger(s, now);
  }

  lemma CheckedLedger(s: State, now: Time)
    requires s.loop.Holding?
    ensures var n, ledger := s.loop.claim.number, Next(s, Check(now)).ledger;
            ledger == s.ledger || (n < |s.ledger| && ledger == s.ledger[n := Some(Deferral)])
  {
  }

  lemma EndedBefore(s: State, step: Step, k: nat)
    requires Inv(s) && Enabled(s, step) && k < |s.ledger| && s.ledger[k].Some?
    requires step.Settle? || step.MarkStuck? || step.DrainOne?
    ensures k < |Next(s, step).ledger| && Next(s, step).ledger[k] == s.ledger[k]
  {
    EndedByOther(s, step.id, k);
    match step
    case Settle(id, result, now) => SettleEnds(s, id, result, now);
    case MarkStuck(id) => MarkStuckEnds(s, id);
    case DrainOne(id, now) => DrainEnds(s, id, now);
  }

  lemma {:induction false} EndedForever(s: State, steps: seq<Step>, k: nat)
    requires Inv(s) && Runs(s, steps) && k < |s.ledger| && s.ledger[k].Some?
    ensures k < |Run(s, steps).ledger| && Run(s, steps).ledger[k] == s.ledger[k]
    decreases |steps|
  {
    if steps != [] {
      EndedOnce(s, steps[0], k);
      NextInv(s, steps[0]);
      EndedForever(Next(s, steps[0]), steps[1..], k);
    }
  }

  // No two running jobs hold the claim, nor a running job and the loop.
  ghost predicate InOnePlace(s: State, number: nat) {
    && (forall a, b :: a in s.running && b in s.running ==>
          s.running[a].claim.number == s.running[b].claim.number == number ==> a == b)
    && (forall a :: a in s.running && s.running[a].claim.number == number ==>
          forall c :: c in InHand(s) ==> c.number != number)
  }

  // Every claim the runner ever made is either still open, in exactly one place, or ended in
  // exactly one way, which no later step changes.
  lemma EachClaimEndsOnce(
    worker: string, concurrency: nat, table: Table, steps: seq<Step>, more: seq<Step>, k: nat)
    requires Fresh(worker, table) && Runs(NewRunner(worker, concurrency, table), steps)
    requires var s := Run(NewRunner(worker, concurrency, table), steps);
             Runs(s, more) && k < s.stats.claimed
    ensures var s := Run(NewRunner(worker, concurrency, table), steps);
            var s' := Run(s, more);
            && k < |s.ledger| && k < |s'.ledger|
            && (s.ledger[k].None? <==> Open(s, k))
            && InOnePlace(s, k)
            && (s.ledger[k].Some? ==> s'.ledger[k] == s.ledger[k] && !Open(s', k))
  {
    NewRunnerInv(worker, concurrency, table);
    RunInv(NewRunner(worker, concurrency, table), steps);
    var s := Run(NewRunner(worker, concurrency, table), steps);
    RunInv(s, more);
    LedgerGrows(s, more);
    if s.ledger[k].Some? {
      EndedForever(s, more, k);
    }
  }

  lemma {:induction false} LedgerGrows(s: State, steps: seq<Step>)
    requires Runs(s, steps)
    ensures |s.ledger| <= |Run(s, steps).ledger|
    decreases |steps|
  {
    if steps != [] {
      LedgerGrows(Next(s, steps[0]), steps[1..]);
    }
  }

  // The rows the table shows running under this worker are exactly the jobs it has in hand,
  // so ending a claim always leaves its row queued or finished, never lost as running.
  lemma NoJobIsLost(worker: string, concurrency: nat, table: Table, steps: seq<Step>, id: nat)
    requires Fresh(worker, table) && Runs(NewRunner(worker, concurrency, table), steps)
    ensures var s := Run(NewRunner(worker, concurrency, table), steps);
            id in s.table && Mine(s, s.table[id]) <==> id in s.running || Carries(s, id)
  {
    NewRunnerInv(worker, concurrency, table);
    RunInv(NewRunner(worker, concurrency, table), steps);
    var s := Run(NewRunner(worker, concurrency, table), steps);
    if id in s.running {
      assert RowOf(s, s.running[id].claim);
    } else if Carries(s, id) {
      assert s.loop.claim in InHand(s);
    }
  }

  // A requeue that does not count gives the claim's attempt back: the row is as it was before
  // the claim, but for when it runs again (and a cancellation asked meanwhile).
  lemma UncountedRequeueUndoesTheClaim(
    t: Table, worker: string, id: nat, now: Time, onDemandOnly: bool, runAfter: Time)
    requires Claimable(t, id, now, onDemandOnly) && t[id].claimedBy.None?
    ensures Requeued(t[id := Claimed(t[id], worker)], id, runAfter, false) == t[id := t[id].(runAfter := runAfter)]
    ensures var counted := Requeued(t[id := Claimed(t[id], worker)], id, runAfter, true);
            counted == t[id := t[id].(runAfter := runAfter, attempt := t[id].attempt + 1)]
  {
    var claimed := t[id := Claimed(t[id], worker)];
    assert Requeued(claimed, id, runAfter, false)[id] == t[id].(runAfter := runAfter);
  }

  // ------------------------------------------------------------------ slots

  lemma SlotsAreKept(worker: string, concurrency: nat, table: Table, steps: seq<Step>)
    requires Fresh(worker, table) && Runs(NewRunner(worker, concurrency, table), steps)
    ensures var s := Run(NewRunner(worker, concurrency, table), steps);
            && |Lane(s.running, false)| + s.stuckGeneral <= concurrency
            && |Lane(s.running, true)| <= ON_DEMAND_SLOTS
            && s.stuckGeneral <= s.stuck
  {
    NewRunnerInv(worker, concurrency, table);
    RunInv(NewRunner(worker, concurrency, table), steps);
    RunConcurrency(NewRunner(worker, concurrency, table), steps);
  }

  lemma {:induction false} RunConcurrency(s: State, steps: seq<Step>)
    requires Runs(s, steps)
    ensures Run(s, steps).concurrency == s.concurrency
    decreases |steps|
  {
    if steps != [] {
      RunConcurrency(Next(s, steps[0]), steps[1..]);
    }
  }

  // ------------------------------------------------------------------ runs, one step longer

  lemma {:induction false} RunsOneMore(s: State, steps: seq<Step>, step: Step)
    requires Runs(s, steps) && Enabled(Run(s, steps), step)
    ensures Runs(s, steps + [step]) && Run(s, steps + [step]) == Next(Run(s, steps), step)
    decreases |steps|
  {
    if steps == [] {
      assert steps + [step] == [step];
      assert [step][1..] == [];
    } else {
      assert (steps + [step])[1..] == steps[1..] + [step];
      RunsOneMore(Next(s, steps[0]), steps[1..], step);
    }
  }

  ghost predicate Reaches(s: State, s': State) {
    exists steps :: Runs(s, steps) && Run(s, steps) == s'
  }

  lemma ReachesItself(s: State)
    ensures Reaches(s, s)
  {
    assert Runs(s, []) && Run(s, []) == s;
  }

  lemma ReachesNext(s: State, s': State, step: Step)
    requires Reaches(s, s') && Enabled(s', step)
    ensures Reaches(s, Next(s', step))
  {
    var steps :| Runs(s, steps) && Run(s, steps) == s';
    RunsOneMore(s, steps, step);
  }

  lemma {:induction false} RunsOn(s: State, a: seq<Step>, b: seq<Step>)
    requires Runs(s, a) && Runs(Run(s, a), b)
    ensures Runs(s, a + b) && Run(s, a + b) == Run(Run(s, a), b)
    decreases |a|
  {
    if a == [] {
      assert a + b == b;
    } else {
      assert (a + b)[1..] == a[1..] + b;
      RunsOn(Next(s, a[0]), a[1..], b);
    }
  }

  lemma ReachesOn(s: State, s1: State, s2: State)
    requires Reaches(s, s1) && Reaches(s1, s2)
    ensures Reaches(s, s2)
  {
    var a :| Runs(s, a) && Run(s, a) == s1;
    var b :| Runs(s1, b) && Run(s1, b) == s2;
    RunsOn(s, a, b);
  }

  // A state some run of a worker leads to.
  ghost predicate Reachable(s: State) {
    exists worker, concurrency, table :: Fresh(worker, table) && Reaches(NewRunner(worker, concurrency, table), s)
  }

  lemma ReachableInv(s: State)
    requires Reachable(s)
    ensures Inv(s)
  {
    var worker, concurrency, table :| Fresh(worker, table) && Reaches(NewRunner(worker, concurrency, table), s);
    var s0 := NewRunner(worker, concurrency, table);
    var steps :| Runs(s0, steps) && Run(s0, steps) == s;
    NewRunnerInv(worker, concurrency, table);
    RunInv(NewRunner(worker, concurrency, table), steps);
  }

  lemma ReachableOn(s: State, s': State)
    requires Reachable(s) && Reaches(s, s')
    ensures Reachable(s')
  {
    var worker, concurrency, table :| Fresh(worker, table) && Reaches(NewRunner(worker, concurrency, table), s);
    ReachesOn(NewRunner(worker, concurrency, table), s, s');
  }

  lemma QueuedIsNotRunning(s: State, id: nat)
    requires Reachable(s) && id in s.table && s.table[id].status.Queued?
    ensures id !in s.running
  {
    ReachableInv(s);
    forall k | k in s.running ensures s.table[k].status.Running? {
      assert RowOf(s, s.running[k].claim);
    }
  }
}
