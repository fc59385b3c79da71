/**
 What a settlement leaves of the job's row, and how often a job is tried
 (src/copycast/worker/runner.py:362-476, src/copycast/adapters/db/repositories/jobs.py:333-365).
 */
module RunnerAttempts {
  import opened Basics
  import opened RunnerModel
  import opened RunnerSafety
  import opened RunnerWaits

  // ------------------------------------------------------------------ the row a settlement leaves

  // 60 s, doubled by every attempt, up to 6 h.
  lemma BackoffDoubles(attempt: int)
    ensures attempt <= 0 ==> BackoffBase(attempt) == 60.0
    ensures attempt >= 0 ==>
              var twice := 2.0 * BackoffBase(attempt);
              BackoffBase(attempt + 1) == if twice < 21600.0 then twice else 21600.0
  {
  }

  // Half an hour or the Engine's longer estimate, cut at two days after the job was created, and
  // at once when those are over.
  lemma NotReadyDelay(retryAfter: Option<real>, createdAt: Time, now: Time)
    ensures var delay := LiveRetryDelay(retryAfter, createdAt, now);
            var wanted := if retryAfter.Some? && retryAfter.value > 1800.0 then retryAfter.value else 1800.0;
            if now >= createdAt + 172800.0 then delay == 0.0
            else if now + wanted <= createdAt + 172800.0 then delay == wanted
            else now + delay == createdAt + 172800.0
  {
  }

  // The row queued again for later, as it was before the claim or with the claim's attempt kept.
  predicate QueuedAgain(before: Job, after: Job, runAfter: Time, attempt: int) {
    && after.status == Queued && after.runAfter == runAfter && after.attempt == attempt && after.claimedBy == None
    && after == before.(status := after.status, runAfter := runAfter, attempt := after.attempt, claimedBy := None)
  }

  // What the row becomes, for each way the job's task ends.
  predicate RowSettled(before: Job, after: Job, result: Result, shutdown: bool, now: Time) {
    match result
    case Completed => after == before.(status := Succeeded)
    case WasCancelled =>
      if shutdown then QueuedAgain(before, after, now, before.attempt - 1)
      else after == before.(status := Cancelled)
    case StorageFull => QueuedAgain(before, after, now + 600.0, before.attempt - 1)
    case NotReady(retryAfter) =>
      QueuedAgain(before, after, now + LiveRetryDelay(retryAfter, before.createdAt, now), before.attempt - 1)
    case Permanent => after == before.(status := Failed)
    case Transient(jitter) =>
      if before.attempt < before.maxAttempts
      then QueuedAgain(before, after, now + BackoffBase(before.attempt) * (1.0 + jitter), before.attempt)
      else after == before.(status := Failed)
  }

  lemma RequeuedRow(t: Table, id: nat, runAfter: Time, counted: bool)
    requires id in t && t[id].status.Running? && t[id].attempt > 0
    ensures var t' := Requeued(t, id, runAfter, counted);
            id in t' && QueuedAgain(t[id], t'[id], runAfter, if counted then t[id].attempt else t[id].attempt - 1)
  {
  }

  lemma FinishedRow(t: Table, id: nat, status: Status)
    requires id in t
    ensures id in Finished(t, id, status) && Finished(t, id, status)[id] == t[id].(status := status)
  {
  }

  lemma SettleLeaves(s: State, id: nat, result: Result, now: Time)
    requires Inv(s) && id in s.running
    ensures id in s.table && s.table[id].status == Running && s.table[id].attempt > 0
    ensures var s' := Settled(s, id, result, now);
            && id in s'.table
            && RowSettled(s.table[id], s'.table[id], result, s.stopped && !s.running[id].userCancelled, now)
            && s'.storageFullUntil == (if result.StorageFull? && s.table[id].kind == ArchiveItem
                                       then Some(now + 600.0) else s.storageFullUntil)
  {
    JobOf(s, id);
    assert RowOf(s, s.running[id].claim);
    RowIsSettled(s, id, result, now);
  }

  lemma RowIsSettled(s: State, id: nat, result: Result, now: Time)
    requires id in s.running && s.running[id].claim.id == id && RowOf(s, s.running[id].claim)
    ensures var s' := Settled(s, id, result, now);
            && id in s'.table
            && RowSettled(s.table[id], s'.table[id], result, s.stopped && !s.running[id].userCancelled, now)
  {
    var job := s.running[id].claim.job;
    match result
    case Completed => FinishedRow(s.table, id, Succeeded);
    case WasCancelled =>
      RequeuedRow(s.table, id, now, false);
      FinishedRow(s.table, id, Cancelled);
    case StorageFull => RequeuedRow(s.table, id, now + 600.0, false);
    case NotReady(retryAfter) =>
      RequeuedRow(s.table, id, now + LiveRetryDelay(retryAfter, job.createdAt, now), false);
    case Permanent => FinishedRow(s.table, id, Failed);
    case Transient(jitter) =>
      RequeuedRow(s.table, id, now + BackoffSeconds(job.attempt, jitter), true);
      FinishedRow(s.table, id, Failed);
  }

  // The same of every worker that got there by running.
  ghost predicate SettlesRow(s: State, s': State, id: nat, result: Result, now: Time)
    requires id in s.running
  {
    Reachable(s) ==>
      && id in s.table && id in s'.table
      && RowSettled(s.table[id], s'.table[id], result, s.stopped && !s.running[id].userCancelled, now)
  }

  lemma SettledSettlesRow(s: State, id: nat, result: Result, now: Time)
    requires id in s.running
    ensures SettlesRow(s, Settled(s, id, result, now), id, result, now)
  {
    if Reachable(s) {
      ReachableInv(s);
      SettleLeaves(s, id, result, now);
    }
  }

  // The check before a start: on a quarantined Feed the job goes back for 10 minutes, an archive
  // while storage is full until the pause is over, each as if it had never been claimed; any other
  // keeps its claim.
  lemma CheckLeaves(s: State, now: Time)
    requires Inv(s) && s.loop.Holding?
    ensures var claim, s' := s.loop.claim, Next(s, Check(now));
            && claim.id in s.table && claim.id in s'.table
            && var before, after := s.table[claim.id], s'.table[claim.id];
            if before.feed.Some? && before.feed.value in s.quarantined then
              QueuedAgain(before, after, now + 600.0, before.attempt - 1) && s'.loop.Idle? && s'.running == s.running
            else if before.kind == ArchiveItem && s.storageFullUntil.Some? && now < s.storageFullUntil.value then
              && QueuedAgain(before, after, s.storageFullUntil.value, before.attempt - 1)
              && s'.loop.Idle? && s'.running == s.running
            else
              after == before && (claim.id in s'.running || s'.loop == Cleared(claim))
  {
    CarriedRow(s);
    RequeuedRow(s.table, s.loop.claim.id, now + 600.0, false);
    if s.storageFullUntil.Some? {
      RequeuedRow(s.table, s.loop.claim.id, s.storageFullUntil.value, false);
    }
    RowIsChecked(s, now);
  }

  lemma RowIsChecked(s: State, now: Time)
    requires s.loop.Holding?
    ensures var claim, s' := s.loop.claim, Next(s, Check(now));
            if claim.job.feed.Some? && claim.job.feed.value in s.quarantined then
              && s'.table == Requeued(s.table, claim.id, now + 600.0, false)
              && s'.loop.Idle? && s'.running == s.running
            else if claim.job.kind == ArchiveItem && s.storageFullUntil.Some? && now < s.storageFullUntil.value then
              && s'.table == Requeued(s.table, claim.id, s.storageFullUntil.value, false)
              && s'.loop.Idle? && s'.running == s.running
            else
              s'.table == s.table && (claim.id in s'.running || s'.loop == Cleared(claim))
  {
  }

  // A Feed stays quarantined for the rest of the run.
  lemma {:induction false} QuarantineLasts(s: State, steps: seq<Step>)
    requires Runs(s, steps)
    ensures s.quarantined <= Run(s, steps).quarantined
    decreases |steps|
  {
    if steps != [] {
      StepQuarantines(s, steps[0]);
      QuarantineLasts(Next(s, steps[0]), steps[1..]);
    }
  }

  lemma StepQuarantines(s: State, step: Step)
    requires Enabled(s, step)
    ensures s.quarantined <= Next(s, step).quarantined
  {
  }

  // So once a job of a Feed was given up, no claim of that Feed passes the check again.
  lemma StuckFeedsStayPut(s: State, id: nat, steps: seq<Step>, now: Time)
    requires Inv(s) && id in s.running && s.table[id].feed.Some?
    requires Runs(Next(s, MarkStuck(id)), steps)
    requires var s' := Run(Next(s, MarkStuck(id)), steps);
             s'.loop.Holding? && s'.loop.claim.job.feed == s.table[id].feed
    ensures var s' := Run(Next(s, MarkStuck(id)), steps);
            && Next(s', Check(now)).loop.Idle? && Next(s', Check(now)).running == s'.running
            && s'.loop.claim.id in s'.table && s'.loop.claim.id in Next(s', Check(now)).table
            && var row := s'.table[s'.loop.claim.id];
               QueuedAgain(row, Next(s', Check(now)).table[s'.loop.claim.id], now + 600.0, row.attempt - 1)
  {
    JobOf(s, id);
    assert RowOf(s, s.running[id].claim);
    MarkStuckEnds(s, id);
    NextInv(s, MarkStuck(id));
    RunInv(Next(s, MarkStuck(id)), steps);
    QuarantineLasts(Next(s, MarkStuck(id)), steps);
    var s' := Run(Next(s, MarkStuck(id)), steps);
    assert s'.loop.claim in InHand(s') && RowOf(s', s'.loop.claim);
    CheckLeaves(s', now);
  }

  // ------------------------------------------------------------------ one job's attempts, over runs

  // A run in which nobody but this worker touches the job's row, save to ask its cancellation.
  predicate LeftAlone(s: State, steps: seq<Step>, id: nat)
    decreases |steps|
  {
    steps == [] ||
    (&& Enabled(s, steps[0])
     && (steps[0].Environment? ==>
           && id in s.table && id in steps[0].table
           && steps[0].table[id] == s.table[id].(cancelRequested := steps[0].table[id].cancelRequested))
     && LeftAlone(Next(s, steps[0]), steps[1..], id))
  }

  predicate FailsTransiently(step: Step, id: nat) {
    step.Settle? && step.id == id && step.result.Transient?
  }

  // How often the job failed transiently, and how often it was queued again for that.
  function Failures(steps: seq<Step>, id: nat): nat {
    if steps == [] then 0 else (if FailsTransiently(steps[0], id) then 1 else 0) + Failures(steps[1..], id)
  }

  function Retries(s: State, steps: seq<Step>, id: nat): nat
    requires Runs(s, steps)
    decreases |steps|
  {
    if steps == [] then 0
    else
      (if RetriesNow(s, steps[0], id) then 1 else 0) + Retries(Next(s, steps[0]), steps[1..], id)
  }

  predicate RetriesNow(s: State, step: Step, id: nat)
    requires Enabled(s, step)
  {
    FailsTransiently(step, id) && id in Next(s, step).table && Next(s, step).table[id].status == Queued
  }

  // The row's attempt tells its transient failures so far, `n`, since it stood at `base`, plus the
  // claim it runs under; `r` of them were retried.
  ghost predicate RowCounts(row: Job, base: nat, max: nat, n: nat, r: nat) {
    && row.maxAttempts == max
    && (row.status == Queued ==> row.attempt == base + n)
    && (row.status == Running ==> row.attempt == base + n + 1)
    && (row.status == Queued || row.status == Running ==> n == r && (n > 0 ==> base + n < max))
    && (n > 0 && base + n >= max ==> row.status == Failed && n == r + 1)
    && (n > 0 && base + n < max ==> n == r)
    && (n == 0 ==> r == 0)
    && (n > 1 ==> base + n <= max)
  }

  // While the row runs, it runs under this worker.
  ghost predicate Counts(s: State, id: nat, base: nat, max: nat, n: nat, r: nat) {
    && id in s.table && RowCounts(s.table[id], base, max, n, r)
    && (s.table[id].status == Running ==> s.table[id].claimedBy == Some(s.worker))
  }

  lemma SettledCounts(
    before: Job, after: Job, result: Result, shutdown: bool, now: Time, base: nat, max: nat, n: nat, r: nat)
    requires before.status == Running && RowCounts(before, base, max, n, r)
    requires RowSettled(before, after, result, shutdown, now)
    ensures after.status != Running
    ensures var failed := if result.Transient? then 1 else 0;
            var retried := if result.Transient? && after.status == Queued then 1 else 0;
            RowCounts(after, base, max, n + failed, r + retried)
  {
  }

  lemma SettleCounts(s: State, id: nat, result: Result, now: Time, base: nat, max: nat, n: nat, r: nat)
    requires Inv(s) && id in s.running && Counts(s, id, base, max, n, r)
    ensures var step := Settle(id, result, now);
            Counts(Settled(s, id, result, now), id, base, max,
                   n + (if FailsTransiently(step, id) then 1 else 0), r + (if RetriesNow(s, step, id) then 1 else 0))
  {
    var s' := Settled(s, id, result, now);
    SettleLeaves(s, id, result, now);
    var shutdown := s.stopped && !s.running[id].userCancelled;
    SettledCounts(s.table[id], s'.table[id], result, shutdown, now, base, max, n, r);
    assert s' == Next(s, Settle(id, result, now));
  }

  lemma OthersRow(s: State, step: Step, id: nat)
    requires Inv(s) && Enabled(s, step) && id in s.table && !step.Environment?
    requires !(step.Check? && s.loop.claim.id == id)
    requires step.Take? || step.Settle? || step.MarkStuck? || step.DrainOne? ==> step.id != id
    ensures id in Next(s, step).table && Next(s, step).table[id] == s.table[id]
  {
    if step.Settle? {
      JobOf(s, step.id);
      SettleOthers(s, step.id, step.result, step.now, id);
    } else if step.MarkStuck? || step.DrainOne? {
      EndOthers(s, step, id);
    } else if step.Check? {
      CheckOthers(s, step.now, id);
    }
  }

  lemma CheckOthers(s: State, now: Time, id: nat)
    requires s.loop.Holding? && s.loop.claim.id != id && id in s.table
    ensures id in Next(s, Check(now)).table && Next(s, Check(now)).table[id] == s.table[id]
  {
  }

  lemma EndOthers(s: State, step: Step, id: nat)
    requires Inv(s) && Enabled(s, step) && id in s.table && (step.MarkStuck? || step.DrainOne?) && step.id != id
    ensures id in Next(s, step).table && Next(s, step).table[id] == s.table[id]
  {
    JobOf(s, step.id);
  }

  lemma SettleOthers(s: State, k: nat, result: Result, now: Time, id: nat)
    requires k in s.running && s.running[k].claim.id == k && k != id && id in s.table
    ensures id in Settled(s, k, result, now).table && Settled(s, k, result, now).table[id] == s.table[id]
  {
  }

  lemma CheckCounts(s: State, now: Time, id: nat, base: nat, max: nat, n: nat, r: nat)
    requires Inv(s) && s.loop.Holding? && s.loop.claim.id == id && Counts(s, id, base, max, n, r)
    ensures Counts(Next(s, Check(now)), id, base, max, n, r)
  {
    assert s.loop.claim in InHand(s) && RowOf(s, s.loop.claim);
    CheckLeaves(s, now);
  }

  lemma EndCounts(s: State, step: Step, id: nat, base: nat, max: nat, n: nat, r: nat)
    requires Inv(s) && Enabled(s, step) && Counts(s, id, base, max, n, r)
    requires (step.MarkStuck? || step.DrainOne?) && step.id == id
    ensures Counts(Next(s, step), id, base, max, n, r)
  {
    if step.MarkStuck? {
      MarkStuckEnds(s, id);
      assert Next(s, step).table[id] == s.table[id].(status := Failed);
    } else {
      DrainEnds(s, id, step.now);
    }
    JobOf(s, id);
  }

  predicate AboutRow(s: State, step: Step, id: nat) {
    || ((step.Take? || step.Settle? || step.MarkStuck? || step.DrainOne?) && step.id == id)
    || (step.Check? && (s.loop.Holding? || s.loop.Cleared?) && s.loop.claim.id == id)
  }

  // A step about another row, or another's writing.
  lemma OtherCounts(s: State, step: Step, id: nat, base: nat, max: nat, n: nat, r: nat)
    requires Inv(s) && LeftAlone(s, [step], id) && Counts(s, id, base, max, n, r) && !AboutRow(s, step, id)
    ensures Counts(Next(s, step), id, base, max, n, r)
  {
    if !step.Environment? {
      OthersRow(s, step, id);
    }
    WorkerKept(s, step);
  }

  lemma WorkerKept(s: State, step: Step)
    requires Enabled(s, step)
    ensures Next(s, step).worker == s.worker
  {
  }

  lemma StepCounts(s: State, step: Step, id: nat, base: nat, max: nat, n: nat, r: nat)
    requires Inv(s) && LeftAlone(s, [step], id) && Enabled(s, step) && Counts(s, id, base, max, n, r)
    ensures Counts(Next(s, step), id, base, max,
                   n + (if FailsTransiently(step, id) then 1 else 0), r + (if RetriesNow(s, step, id) then 1 else 0))
  {
    if !AboutRow(s, step, id) {
      OtherCounts(s, step, id, base, max, n, r);
    } else if step.Settle? {
      SettleCounts(s, id, step.result, step.now, base, max, n, r);
    } else if step.Check? {
      CheckCounts(s, step.now, id, base, max, n, r);
    } else if step.MarkStuck? || step.DrainOne? {
      EndCounts(s, step, id, base, max, n, r);
    }
  }

  lemma {:induction false} RunCounts(s: State, steps: seq<Step>, id: nat, base: nat, max: nat, n: nat, r: nat)
    requires Inv(s) && LeftAlone(s, steps, id) && Runs(s, steps) && Counts(s, id, base, max, n, r)
    ensures Counts(Run(s, steps), id, base, max, n + Failures(steps, id), r + Retries(s, steps, id))
    decreases |steps|
  {
    if steps != [] {
      var step := steps[0];
      assert LeftAlone(s, [step], id);
      StepCounts(s, step, id, base, max, n, r);
      NextInv(s, step);
      RunCounts(Next(s, step), steps[1..], id, base, max,
                n + (if FailsTransiently(step, id) then 1 else 0), r + (if RetriesNow(s, step, id) then 1 else 0));
    }
  }

  // Over every run that leaves the job's row to the worker, the row's attempt counts the job's
  // transient failures and the claim it runs under, and nothing else: not the deferrals, the waits,
  // the full storage, the shutdowns or the drains. The failure that reaches `maxAttempts` fails the
  // job; every one before it is retried.
  lemma AttemptsAreFailures(worker: string, concurrency: nat, table: Table, steps: seq<Step>, id: nat)
    requires Fresh(worker, table) && id in table && table[id].status == Queued
    requires var s := NewRunner(worker, concurrency, table); LeftAlone(s, steps, id) && Runs(s, steps)
    ensures var s := NewRunner(worker, concurrency, table);
            var n, base, max := Failures(steps, id), table[id].attempt, table[id].maxAttempts;
            && id in Run(s, steps).table
            && var row := Run(s, steps).table[id];
            && (row.status == Queued ==> row.attempt == base + n)
            && (row.status == Running ==> row.attempt == base + n + 1)
            && (n > 0 && base + n >= max ==> row.status == Failed)
            && (n > 1 ==> base + n <= max)
            && Retries(s, steps, id) == if n > 0 && base + n >= max then n - 1 else n
  {
    var s := NewRunner(worker, concurrency, table);
    NewRunnerInv(worker, concurrency, table);
    RunCounts(s, steps, id, table[id].attempt, table[id].maxAttempts, 0, 0);
  }

  // So a new job is retried for transient failures at most `maxAttempts - 1` times.
  lemma RetriesAreBounded(worker: string, concurrency: nat, table: Table, steps: seq<Step>, id: nat)
    requires Fresh(worker, table) && id in table && table[id].status == Queued && table[id].attempt == 0
    requires var s := NewRunner(worker, concurrency, table); LeftAlone(s, steps, id) && Runs(s, steps)
    ensures var retries := Retries(NewRunner(worker, concurrency, table), steps, id);
            retries == 0 || retries <= table[id].maxAttempts - 1
  {
    AttemptsAreFailures(worker, concurrency, table, steps, id);
  }
}
