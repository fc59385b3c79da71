/**
 Which jobs may run beside each other, in terms of their rows alone
 (src/copycast/adapters/db/repositories/jobs.py:231-281).
 */
module RunnerExclusion {
  import opened Basics
  import opened RunnerModel
  import opened RunnerSafety

  // An archive a podcast app holds the line for.
  predicate AppWaits(job: Job) {
    job.kind == ArchiveItem && job.feedFetch
  }

  predicate SharesFeed(a: Job, b: Job) {
    a.feed.Some? && b.feed == a.feed
  }

  predicate SharesItem(a: Job, b: Job) {
    a.item.Some? && b.item == a.item
  }

  // A due row that may start: one an app waits for beside no other of its Episode, any other row
  // beside none of its Feed; the reserved slot takes only those an app waits for.
  predicate Eligible(t: Table, id: nat, now: Time, reserved: bool) {
    && id in t && t[id].status == Queued && t[id].runAfter <= now
    && (reserved ==> AppWaits(t[id]))
    && forall r :: r in t && t[r].status == Running ==>
         if AppWaits(t[id]) then !SharesItem(t[id], t[r]) else !SharesFeed(t[id], t[r])
  }

  lemma EligibleIsClaimable(t: Table, id: nat, now: Time, reserved: bool)
    ensures Claimable(t, id, now, reserved) <==> Eligible(t, id, now, reserved)
  {
  }

  // `a` goes before `b`: the smaller priority, then the earlier run time, then the smaller id.
  predicate Precedes(t: Table, a: nat, b: nat)
    requires a in t && b in t
  {
    if t[a].priority != t[b].priority then t[a].priority < t[b].priority
    else if t[a].runAfter != t[b].runAfter then t[a].runAfter < t[b].runAfter
    else a < b
  }

  // ------------------------------------------------------------------ over runs

  // No two running rows of one Feed, unless an app waits for one of them.
  ghost predicate OneOfAFeed(t: Table) {
    forall a, b :: a in t && b in t && a != b && t[a].status == Running && t[b].status == Running ==>
                   AppWaits(t[a]) || AppWaits(t[b]) || !SharesFeed(t[a], t[b])
  }

  // No two running rows of one Episode.
  ghost predicate OneOfAnItem(t: Table) {
    forall a, b :: a in t && b in t && a != b && t[a].status == Running && t[b].status == Running ==>
                   !SharesItem(t[a], t[b])
  }

  // An Episode is of one Feed.
  ghost predicate ItemsHaveOneFeed(t: Table) {
    forall a, b :: a in t && b in t && SharesItem(t[a], t[b]) ==> SharesFeed(t[a], t[b])
  }

  // What else writes to the table keeps to `rule`.
  ghost predicate OthersKeep(s: State, steps: seq<Step>, rule: Table -> bool)
    requires Runs(s, steps)
    decreases |steps|
  {
    steps == [] ||
    ((steps[0].Environment? && rule(s.table) ==> rule(steps[0].table))
     && OthersKeep(Next(s, steps[0]), steps[1..], rule))
  }

  // The row a step starts, if it starts one, was eligible; the running rows are otherwise no more
  // than before, and no row changes what it is of.
  ghost predicate StartsOne(t: Table, t': Table, started: Option<nat>) {
    && t'.Keys == t.Keys
    && (forall id :: id in t ==>
          && t'[id].kind == t[id].kind && t'[id].feed == t[id].feed && t'[id].item == t[id].item
          && t'[id].feedFetch == t[id].feedFetch
          && (t'[id].status == Running ==> t[id].status == Running || started == Some(id)))
    && (started.Some? ==> exists now, reserved :: Eligible(t, started.value, now, reserved))
  }

  lemma StepStartsOne(s: State, step: Step)
    requires Enabled(s, step) && !step.Environment?
    ensures StartsOne(s.table, Next(s, step).table, if step.Take? then Some(step.id) else None)
  {
    if step.Take? {
      TakeStartsOne(s, step.id, step.now);
    } else if step.Settle? {
      SettleStartsNone(s, step.id, step.result, step.now);
    } else if step.MarkStuck? {
      FinishStartsNone(s.table, s.running[step.id].claim.id, Failed);
    } else if step.DrainOne? {
      RequeueStartsNone(s.table, s.running[step.id].claim.id, step.now, false);
    } else if step.Check? {
      CheckStartsNone(s, step.now);
    } else {
      assert Next(s, step).table == s.table;
    }
  }

  lemma TakeStartsOne(s: State, id: nat, now: Time)
    requires Enabled(s, Take(id, now))
    ensures StartsOne(s.table, Taken(s, id).table, Some(id))
  {
    EligibleIsClaimable(s.table, id, now, s.loop.reserved);
  }

  lemma CheckStartsNone(s: State, now: Time)
    requires s.loop.Holding?
    ensures StartsOne(s.table, Checked(s, s.loop.claim, now).table, None)
  {
    var claim := s.loop.claim;
    if Quarantined(s, claim.job) {
      RequeueStartsNone(s.table, claim.id, now + QUARANTINE_RETRY, false);
    } else if Paused(s, claim.job, now) {
      RequeueStartsNone(s.table, claim.id, s.storageFullUntil.value, false);
    }
  }

  lemma RequeueStartsNone(t: Table, id: nat, runAfter: Time, counted: bool)
    ensures StartsOne(t, Requeued(t, id, runAfter, counted), None)
  {
  }

  lemma FinishStartsNone(t: Table, id: nat, status: Status)
    requires status != Running
    ensures StartsOne(t, Finished(t, id, status), None)
  {
  }

  // A settlement requeues or finishes the claim's row.
  lemma SettledTable(s: State, id: nat, result: Result, now: Time)
    requires id in s.running
    ensures var row, t' := s.running[id].claim.id, Settled(s, id, result, now).table;
            || (exists runAfter, counted :: t' == Requeued(s.table, row, runAfter, counted))
            || (exists status :: status != Running && t' == Finished(s.table, row, status))
  {
    var claim, t' := s.running[id].claim, Settled(s, id, result, now).table;
    var job := claim.job;
    match result
    case Completed => assert t' == Finished(s.table, claim.id, Succeeded);
    case WasCancelled =>
      if s.stopped && !s.running[id].userCancelled {
        assert t' == Requeued(s.table, claim.id, now, false);
      } else {
        assert t' == Finished(s.table, claim.id, Cancelled);
      }
    case StorageFull => assert t' == Requeued(s.table, claim.id, now + STORAGE_FULL_RETRY, false);
    case NotReady(retryAfter) =>
      var runAfter := now + LiveRetryDelay(retryAfter, job.createdAt, now);
      assert t' == Requeued(s.table, claim.id, runAfter, false);
    case Permanent => assert t' == Finished(s.table, claim.id, Failed);
    case Transient(jitter) =>
      if job.attempt < job.maxAttempts {
        var runAfter := now + BackoffSeconds(job.attempt, jitter);
        assert t' == Requeued(s.table, claim.id, runAfter, true);
      } else {
        assert t' == Finished(s.table, claim.id, Failed);
      }
  }

  lemma SettleStartsNone(s: State, id: nat, result: Result, now: Time)
    requires id in s.running
    ensures StartsOne(s.table, Settled(s, id, result, now).table, None)
  {
    var row, t' := s.running[id].claim.id, Settled(s, id, result, now).table;
    SettledTable(s, id, result, now);
    if runAfter, counted :| t' == Requeued(s.table, row, runAfter, counted) {
      RequeueStartsNone(s.table, row, runAfter, counted);
    } else {
      var status :| status != Running && t' == Finished(s.table, row, status);
      FinishStartsNone(s.table, row, status);
    }
  }

  lemma StartKeepsFeeds(t: Table, t': Table, started: Option<nat>)
    requires OneOfAFeed(t) && StartsOne(t, t', started)
    ensures OneOfAFeed(t')
  {
  }

  lemma StartKeepsItems(t: Table, t': Table, started: Option<nat>)
    requires OneOfAnItem(t) && ItemsHaveOneFeed(t) && StartsOne(t, t', started)
    ensures OneOfAnItem(t') && ItemsHaveOneFeed(t')
  {
    assert forall a, b :: a in t && b in t && SharesItem(t[a], t[b]) ==> SharesFeed(t[a], t[b]);
  }

  // Over every run, as long as the others keep to it too: of one Feed no two jobs run at once but
  // those a podcast app waits for.
  lemma {:induction false} FeedsRunOneJob(s: State, steps: seq<Step>)
    requires OneOfAFeed(s.table) && Runs(s, steps) && OthersKeep(s, steps, t => OneOfAFeed(t))
    ensures OneOfAFeed(Run(s, steps).table)
    decreases |steps|
  {
    if steps != [] {
      if !steps[0].Environment? {
        StepStartsOne(s, steps[0]);
        StartKeepsFeeds(s.table, Next(s, steps[0]).table, if steps[0].Take? then Some(steps[0].id) else None);
      }
      FeedsRunOneJob(Next(s, steps[0]), steps[1..]);
    }
  }

  // And no two jobs of one Episode run at once at all.
  lemma {:induction false} ItemsRunOneJob(s: State, steps: seq<Step>)
    requires OneOfAnItem(s.table) && ItemsHaveOneFeed(s.table) && Runs(s, steps)
    requires OthersKeep(s, steps, t => OneOfAnItem(t) && ItemsHaveOneFeed(t))
    ensures OneOfAnItem(Run(s, steps).table) && ItemsHaveOneFeed(Run(s, steps).table)
    decreases |steps|
  {
    if steps != [] {
      if !steps[0].Environment? {
        StepStartsOne(s, steps[0]);
        StartKeepsItems(s.table, Next(s, steps[0]).table, if steps[0].Take? then Some(steps[0].id) else None);
      }
      ItemsRunOneJob(Next(s, steps[0]), steps[1..]);
    }
  }

  // At every claim of every run, the row claimed shares its Feed with no running row, or, when an
  // app waits for it, its Episode with none.
  lemma TakesAreExclusive(s: State, steps: seq<Step>, id: nat, now: Time)
    requires Runs(s, steps) && Enabled(Run(s, steps), Take(id, now))
    ensures var t := Run(s, steps).table;
            && id in t && t[id].status == Queued && t[id].runAfter <= now
            && forall r :: r in t && t[r].status == Running ==>
                 && (!AppWaits(t[id]) ==> !SharesFeed(t[id], t[r]))
                 && (AppWaits(t[id]) ==> !SharesItem(t[id], t[r]))
  {
    EligibleIsClaimable(Run(s, steps).table, id, now, Run(s, steps).loop.reserved);
  }

  // ------------------------------------------------------------------ the reserved slot

  ghost predicate ReservedForApps(s: State) {
    && (forall id :: id in s.running && s.running[id].claim.reserved ==> AppWaits(s.running[id].claim.job))
    && ((s.loop.Holding? || s.loop.Cleared?) && s.loop.claim.reserved ==> AppWaits(s.loop.claim.job))
  }

  // The reserved slot runs nothing but archives a podcast app waits for, over every run.
  lemma {:induction false} ReservedSlotIsForApps(s: State, steps: seq<Step>)
    requires ReservedForApps(s) && Runs(s, steps)
    ensures ReservedForApps(Run(s, steps))
    decreases |steps|
  {
    if steps != [] {
      StepReserves(s, steps[0]);
      ReservedSlotIsForApps(Next(s, steps[0]), steps[1..]);
    }
  }

  lemma StepReserves(s: State, step: Step)
    requires ReservedForApps(s) && Enabled(s, step)
    ensures ReservedForApps(Next(s, step))
  {
  }
}
