/** When a job may start, and what can go wrong between the check and the start. */
module RunnerGuard {
  import opened Basics
  import opened RunnerModel
  import opened RunnerSafety

  // ------------------------------------------------------------------ the start of a job

  predicate Begins(s: State, step: Step, id: nat)
    requires Enabled(s, step)
  {
    id !in s.running && id in Next(s, step).running
  }

  ghost predicate ClearedOnlyRetries(s: State) {
    s.loop.Cleared? ==> s.loop.claim.job.attempt > 1
  }

  lemma NextClearedOnlyRetries(s: State, step: Step)
    requires ClearedOnlyRetries(s) && Enabled(s, step)
    ensures ClearedOnlyRetries(Next(s, step))
  {
  }

  lemma {:induction false} RunClearedOnlyRetries(s: State, steps: seq<Step>)
    requires ClearedOnlyRetries(s) && Runs(s, steps)
    ensures ClearedOnlyRetries(Run(s, steps))
    decreases |steps|
  {
    if steps != [] {
      NextClearedOnlyRetries(s, steps[0]);
      RunClearedOnlyRetries(Next(s, steps[0]), steps[1..]);
    }
  }

  lemma StartIsChecked(s: State, step: Step, id: nat)
    requires ClearedOnlyRetries(s) && Enabled(s, step) && Begins(s, step, id)
    ensures var job := Next(s, step).running[id].claim.job;
            if job.attempt <= 1 then step.Check? && !Quarantined(s, job) && !Paused(s, job, step.now)
            else step.Begin? && s.loop == Cleared(Next(s, step).running[id].claim)
  {
  }

  // In every run a first attempt starts only in the check itself, never for a quarantined Feed,
  // nor an archive during the pause; a retry starts only from a check that had passed.
  lemma StartsAreChecked(worker: string, concurrency: nat, table: Table, steps: seq<Step>, step: Step, id: nat)
    requires Runs(NewRunner(worker, concurrency, table), steps)
    requires var s := Run(NewRunner(worker, concurrency, table), steps); Enabled(s, step) && Begins(s, step, id)
    ensures var s := Run(NewRunner(worker, concurrency, table), steps);
            var job := Next(s, step).running[id].claim.job;
            if job.attempt <= 1 then step.Check? && !Quarantined(s, job) && !Paused(s, job, step.now)
            else step.Begin? && s.loop == Cleared(Next(s, step).running[id].claim)
  {
    RunClearedOnlyRetries(NewRunner(worker, concurrency, table), steps);
    StartIsChecked(Run(NewRunner(worker, concurrency, table), steps), step, id);
  }

  // So a start on a quarantined Feed, or of a paused archive, is a retry's.
  lemma UnguardedStartsAreRetries(
    worker: string, concurrency: nat, table: Table, steps: seq<Step>, step: Step, id: nat, now: Time)
    requires Runs(NewRunner(worker, concurrency, table), steps)
    requires var s := Run(NewRunner(worker, concurrency, table), steps);
             && Enabled(s, step) && Begins(s, step, id) && (step.Check? ==> step.now == now)
             && var job := Next(s, step).running[id].claim.job;
             Quarantined(s, job) || Paused(s, job, now)
    ensures var s := Run(NewRunner(worker, concurrency, table), steps);
            step.Begin? && Next(s, step).running[id].claim.job.attempt > 1
  {
    StartsAreChecked(worker, concurrency, table, steps, step, id);
  }

  // Two jobs of one Feed, or two archives.
  predicate Rivals(a: Job, b: Job) {
    (a.feed.Some? && a.feed == b.feed) || (a.kind.ArchiveItem? && b.kind.ArchiveItem?)
  }

  lemma AbandonQuarantines(s: State, id: nat, job: Job, now: Time)
    requires id in s.running
    ensures var s' := Next(s, MarkStuck(id));
            && (Quarantined(s', job) <==>
                Quarantined(s, job) || (job.feed.Some? && job.feed == s.running[id].claim.job.feed))
            && (Paused(s', job, now) <==> Paused(s, job, now))
  {
  }

  lemma SettlePauses(s: State, id: nat, result: Result, job: Job, now: Time)
    requires id in s.running
    ensures var s' := Next(s, Settle(id, result, now));
            && (Quarantined(s', job) <==> Quarantined(s, job))
            && (Paused(s', job, now) <==>
                (if result.StorageFull? && s.running[id].claim.job.kind.ArchiveItem? then job.kind.ArchiveItem?
                 else Paused(s, job, now)))
  {
  }

  ghost predicate Spoils(s: State, job: Job, now: Time, step: Step) {
    && (step.MarkStuck? || (step.Settle? && step.now == now))
    && Enabled(s, step)
    && (Quarantined(Next(s, step), job) || Paused(Next(s, step), job, now))
  }

  // A retry that passed its check still starts unguarded exactly when, while it reads its last
  // log line, one other job can be abandoned on the same Feed or, for an archive, one other
  // archive can report that storage is full.
  lemma RetryRace(s: State, now: Time)
    requires s.loop.Cleared?
    requires !Quarantined(s, s.loop.claim.job) && !Paused(s, s.loop.claim.job, now)
    ensures (exists step :: Spoils(s, s.loop.claim.job, now, step)) <==>
            (exists id :: id in s.running && Rivals(s.loop.claim.job, s.running[id].claim.job))
  {
    var job := s.loop.claim.job;
    if step :| Spoils(s, job, now, step) {
      if step.MarkStuck? {
        AbandonQuarantines(s, step.id, job, now);
      } else {
        SettlePauses(s, step.id, step.result, job, now);
      }
      assert step.id in s.running && Rivals(job, s.running[step.id].claim.job);
    }
    if id :| id in s.running && Rivals(job, s.running[id].claim.job) {
      AbandonQuarantines(s, id, job, now);
      SettlePauses(s, id, StorageFull, job, now);
      assert Spoils(s, job, now, MarkStuck(id)) || Spoils(s, job, now, Settle(id, StorageFull, now));
    }
  }

  // The run leaves the loop where it is: the retry goes on reading its last log line.
  ghost predicate StaysCleared(s: State, steps: seq<Step>)
    requires Runs(s, steps)
    decreases |steps|
  {
    steps == [] || (Next(s, steps[0]).loop == s.loop && StaysCleared(Next(s, steps[0]), steps[1..]))
  }

  // After which the retry starts on a quarantined Feed, or as an archive during the pause.
  ghost predicate SpoilsRun(s: State, job: Job, steps: seq<Step>, later: Time) {
    && Runs(s, steps) && StaysCleared(s, steps)
    && (Quarantined(Run(s, steps), job) || Paused(Run(s, steps), job, later))
  }

  ghost predicate HasRival(s: State, job: Job) {
    exists id :: id in s.running && Rivals(job, s.running[id].claim.job)
  }

  // While the loop waits no job starts.
  lemma NoneStarts(s: State, step: Step, id: nat)
    requires s.loop.Cleared? && Enabled(s, step) && Next(s, step).loop == s.loop && id in Next(s, step).running
    ensures id in s.running && Next(s, step).running[id].claim == s.running[id].claim
  {
    if step.Settle? {
      SettledRunning(s, step.id, step.result, step.now);
    }
  }

  lemma SettledRunning(s: State, id: nat, result: Result, now: Time)
    requires id in s.running
    ensures Settled(s, id, result, now).running == s.running - {s.running[id].claim.id}
  {
  }

  lemma NoRivalGuard(s: State, step: Step, job: Job, now: Time)
    requires s.loop.Cleared? && Enabled(s, step) && Next(s, step).loop == s.loop
    requires !Quarantined(s, job) && !Paused(s, job, now)
    requires step.MarkStuck? || step.Settle? ==> !Rivals(job, s.running[step.id].claim.job)
    ensures !Quarantined(Next(s, step), job) && !Paused(Next(s, step), job, now)
  {
    match step
    case MarkStuck(id) => AbandonQuarantines(s, id, job, now);
    case Settle(id, result, at) => SettleSpares(s, id, result, at, job, now);
    case _ =>
  }

  lemma SettleSpares(s: State, id: nat, result: Result, at: Time, job: Job, now: Time)
    requires id in s.running && !Rivals(job, s.running[id].claim.job)
    requires !Quarantined(s, job) && !Paused(s, job, now)
    ensures !Quarantined(Settled(s, id, result, at), job) && !Paused(Settled(s, id, result, at), job, now)
  {
  }

  lemma NoRivalStep(s: State, step: Step, now: Time)
    requires s.loop.Cleared? && Enabled(s, step) && Next(s, step).loop == s.loop
    requires var job := s.loop.claim.job; !Quarantined(s, job) && !Paused(s, job, now) && !HasRival(s, job)
    ensures var job := s.loop.claim.job; var s' := Next(s, step);
            !Quarantined(s', job) && !Paused(s', job, now) && !HasRival(s', job)
  {
    var job, s' := s.loop.claim.job, Next(s, step);
    forall id | id in s'.running ensures !Rivals(job, s'.running[id].claim.job) {
      NoneStarts(s, step, id);
    }
    NoRivalGuard(s, step, job, now);
  }

  lemma {:induction false} NoRivalNoSpoil(s: State, steps: seq<Step>, now: Time)
    requires s.loop.Cleared? && Runs(s, steps) && StaysCleared(s, steps)
    requires var job := s.loop.claim.job; !Quarantined(s, job) && !Paused(s, job, now) && !HasRival(s, job)
    ensures !Quarantined(Run(s, steps), s.loop.claim.job) && !Paused(Run(s, steps), s.loop.claim.job, now)
    decreases |steps|
  {
    if steps != [] {
      NoRivalStep(s, steps[0], now);
      NoRivalNoSpoil(Next(s, steps[0]), steps[1..], now);
    }
  }

  // Over whole runs too: some run before the retry starts spoils its check exactly when a rival
  // of it is running as it passes the check.
  lemma RetryRaceOverRuns(s: State, now: Time)
    requires s.loop.Cleared?
    requires !Quarantined(s, s.loop.claim.job) && !Paused(s, s.loop.claim.job, now)
    ensures (exists steps, later :: now <= later && SpoilsRun(s, s.loop.claim.job, steps, later)) <==>
            HasRival(s, s.loop.claim.job)
  {
    var job := s.loop.claim.job;
    if steps, later :| now <= later && SpoilsRun(s, job, steps, later) {
      if !HasRival(s, job) {
        NoRivalNoSpoil(s, steps, later);
      }
    }
    if HasRival(s, job) {
      RetryRace(s, now);
      var step :| Spoils(s, job, now, step);
      assert Run(s, [step]) == Next(s, step) && StaysCleared(s, [step]);
      assert now <= now && SpoilsRun(s, job, [step], now);
    }
  }

  // ------------------------------------------------------------------ a run that goes wrong

  function Row(kind: Kind, feed: string, item: Option<string>, feedFetch: bool, attempt: nat): Job {
    Job(kind, Some(feed), item, feedFetch, 100, 0.0, 5, Queued, 0.0, attempt, None, false)
  }

  lemma StartOne(s0: State, s: State, reserved: bool, id: nat) returns (s': State)
    requires Reaches(s0, s) && Enabled(s, Ask(reserved))
    requires Claimable(s.table, id, 0.0, reserved)
    requires s.quarantined == {} && s.storageFullUntil.None?
    ensures Reaches(s0, s')
    ensures var claim := Claim(id, Claimed(s.table[id], s.worker), reserved, s.stats.claimed);
            && s'.running == (if s.table[id].attempt == 0 then s.running[id := Entry(claim, false)] else s.running)
            && s'.loop == (if s.table[id].attempt == 0 then Idle else Cleared(claim))
            && s'.table == s.table[id := Claimed(s.table[id], s.worker)]
    ensures s'.worker == s.worker && s'.concurrency == s.concurrency && s'.stuck == s.stuck
            && s'.stopped == s.stopped && s'.quarantined == {} && s'.storageFullUntil.None?
  {
    var a := Next(s, Ask(reserved));
    var b := Next(a, Take(id, 0.0));
    s' := Next(b, Check(0.0));
    ReachesNext(s0, s, Ask(reserved));
    ReachesNext(s0, a, Take(id, 0.0));
    ReachesNext(s0, b, Check(0.0));
  }

  // A retry can start on a Feed that is quarantined by then.
  lemma RetryStartsOnQuarantinedFeed() returns (table: Table, s: State)
    ensures Fresh("w", table) && Reaches(NewRunner("w", 2, table), s)
    ensures Enabled(s, Begin) && Begins(s, Begin, 1) && Quarantined(s, Next(s, Begin).running[1].claim.job)
  {
    table := map[0 := Row(Refresh, "f", None, false, 0), 1 := Row(ArchiveItem, "f", Some("i"), true, 1)];
    var s0 := NewRunner("w", 2, table);
    ReachesItself(s0);
    assert Lane(s0.running, false) == {};
    var s1 := StartOne(s0, s0, false, 0);
    assert Lane(s1.running, false) == {0};
    var s2 := StartOne(s0, s1, false, 1);
    s := Next(s2, MarkStuck(0));
    ReachesNext(s0, s2, MarkStuck(0));
  }
}
