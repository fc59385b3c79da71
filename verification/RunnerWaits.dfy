/**
 How long a job waits before it runs again
 (src/copycast/worker/runner.py:89-106, src/copycast/worker/constants.py:40-67).
 */
module RunnerWaits {
  import opened Basics
  import opened RunnerModel
  import opened RunnerSafety

  // ------------------------------------------------------------------ waits

  // One NotReady: when the handler decided the wait goes on, when it was settled, and the
  // Engine's estimate.
  datatype Wait = Wait(decided: Time, settled: Time, retryAfter: Option<real>) {
    function RunAfter(createdAt: Time): Time {
      settled + LiveRetryDelay(retryAfter, createdAt, settled)
    }
  }

  // The NotReady settlements of one job, in order, under a strictly advancing clock.
  predicate Waits(createdAt: Time, ws: seq<Wait>) {
    && (forall k :: 0 <= k < |ws| ==>
          createdAt <= ws[k].decided <= ws[k].settled && !LiveWaitExceeded(createdAt, ws[k].decided))
    && (forall k :: 0 < k < |ws| ==>
          ws[k].decided > ws[k - 1].decided && ws[k].decided >= ws[k - 1].RunAfter(createdAt))
  }

  lemma NotReadyNeverOvershoots(createdAt: Time, w: Wait)
    ensures w.RunAfter(createdAt) >= w.settled
    ensures w.RunAfter(createdAt) <= MaxR(w.settled, createdAt + LIVE_WAIT_MAX)
    ensures w.settled + LIVE_RETRY <= createdAt + LIVE_WAIT_MAX ==> w.RunAfter(createdAt) >= w.settled + LIVE_RETRY
  {
  }

  lemma {:induction false} WaitGrows(createdAt: Time, ws: seq<Wait>, k: nat)
    requires Waits(createdAt, ws) && k < |ws|
    ensures ws[k].decided >= createdAt + MinR(k as real * LIVE_RETRY, LIVE_WAIT_MAX)
  {
    if k > 0 {
      WaitGrows(createdAt, ws, k - 1);
      NotReadyNeverOvershoots(createdAt, ws[k - 1]);
    }
  }

  lemma WaitAdvances(createdAt: Time, ws: seq<Wait>, k: nat)
    requires Waits(createdAt, ws) && 0 < k < |ws|
    ensures ws[k - 1].decided < ws[k].decided <= createdAt + LIVE_WAIT_MAX
  {
  }

  // Such a list holds at most 97 waits.
  lemma WaitListBounded(createdAt: Time, ws: seq<Wait>)
    requires Waits(createdAt, ws)
    ensures |ws| <= 97
  {
    if |ws| > 97 {
      WaitAdvances(createdAt, ws, 97);
      WaitGrows(createdAt, ws, 96);
      assert false;
    }
  }

  // ... and 97 is reached: a try every half hour from the job's creation.
  lemma WaitsReachTheBound(createdAt: Time)
    ensures exists ws :: Waits(createdAt, ws) && |ws| == 97
  {
    var ws := seq(97, k => Wait(createdAt + k as real * LIVE_RETRY, createdAt + k as real * LIVE_RETRY, None));
    assert forall k :: 0 <= k < 97 ==> ws[k].decided == createdAt + k as real * LIVE_RETRY == ws[k].settled;
    assert Waits(createdAt, ws);
  }

  // ------------------------------------------------------------------ one job's waits, over runs

  // What is noted of one job as a run goes on: the time, when the job was last claimed, and its
  // waits so far. A wait counts as decided when the job was claimed, the earliest it could be.
  datatype Watch = Watch(clock: Time, taken: Option<Time>, waits: seq<Wait>)

  function TimeOf(step: Step): Option<Time> {
    match step
    case Take(_, now) => Some(now)
    case Check(now) => Some(now)
    case Settle(_, _, now) => Some(now)
    case DrainOne(_, now) => Some(now)
    case _ => None
  }

  predicate IsWait(step: Step, id: nat) {
    step.Settle? && step.id == id && step.result.NotReady?
  }

  function Noted(w: Watch, step: Step, id: nat): Watch {
    Watch(TimeOf(step).GetOr(w.clock),
          if step.Take? && step.id == id then Some(step.now) else w.taken,
          if IsWait(step, id)
          then w.waits + [Wait(w.taken.GetOr(step.now), step.now, step.result.retryAfter)] else w.waits)
  }

  // Time goes on, strictly from one claim of the job to the next; nobody else touches its row but
  // to ask its cancellation; and its handler raises NotReady only while the wait may go on.
  predicate Allowed(s: State, w: Watch, step: Step, id: nat, createdAt: Time) {
    && Enabled(s, step)
    && (step.Environment? ==>
          && id in s.table && id in step.table
          && step.table[id] == s.table[id].(cancelRequested := step.table[id].cancelRequested))
    && (TimeOf(step).Some? ==> w.clock <= TimeOf(step).value)
    && (step.Take? && step.id == id && w.taken.Some? ==> w.taken.value < step.now)
    && (IsWait(step, id) ==> !LiveWaitExceeded(createdAt, w.taken.GetOr(step.now)))
  }

  predicate Watchable(s: State, w: Watch, steps: seq<Step>, id: nat, createdAt: Time)
    decreases |steps|
  {
    steps == [] ||
    (Allowed(s, w, steps[0], id, createdAt)
     && Watchable(Next(s, steps[0]), Noted(w, steps[0], id), steps[1..], id, createdAt))
  }

  function NotedAll(w: Watch, steps: seq<Step>, id: nat): Watch
    decreases |steps|
  {
    if steps == [] then w else NotedAll(Noted(w, steps[0], id), steps[1..], id)
  }

  // The job's last wait is over, or its row is queued until it is.
  ghost predicate Waited(row: Job, w: Watch, createdAt: Time) {
    w.waits != [] ==>
      var last := w.waits[|w.waits| - 1];
      && w.taken.Some? && last.decided <= w.taken.value
      && (last.RunAfter(createdAt) <= w.clock
          || (row.status.Queued? && row.runAfter == last.RunAfter(createdAt)))
  }

  // A job in hand was claimed after its last wait was over.
  ghost predicate ClaimedLater(w: Watch, createdAt: Time) {
    && w.taken.Some?
    && (w.waits != [] ==>
          var last := w.waits[|w.waits| - 1];
          last.RunAfter(createdAt) <= w.taken.value && last.decided < w.taken.value)
  }

  ghost predicate WatchOk(s: State, w: Watch, id: nat, createdAt: Time) {
    && id in s.table && s.table[id].createdAt == createdAt && createdAt <= w.clock
    && (w.taken.Some? ==> createdAt <= w.taken.value <= w.clock)
    && Waits(createdAt, w.waits)
    && Waited(s.table[id], w, createdAt)
    && (id in s.running || Carries(s, id) ==> ClaimedLater(w, createdAt))
  }

  lemma JobOf(s: State, id: nat)
    requires Inv(s) && id in s.running
    ensures id in s.table && s.running[id].claim.id == id
    ensures s.running[id].claim.job.createdAt == s.table[id].createdAt && s.table[id].status.Running?
  {
    assert RowOf(s, s.running[id].claim);
  }

  // The row of a job the step is not about stays as it is; of one it is about, its creation.
  ghost predicate RowStays(s: State, s': State, step: Step, id: nat) {
    id in s.table ==>
      && id in s'.table
      && s'.table[id].createdAt == s.table[id].createdAt
      && (s.table[id].status.Queued? && !(step.Take? && step.id == id) ==>
            s'.table[id].status.Queued? && s'.table[id].runAfter == s.table[id].runAfter)
  }

  lemma SettledRow(s: State, k: nat, result: Result, now: Time, id: nat)
    requires k in s.running && s.running[k].claim.id == k && k in s.table && s.table[k].status.Running?
    ensures RowStays(s, Settled(s, k, result, now), Settle(k, result, now), id)
  {
  }

  lemma EndingRow(s: State, step: Step, id: nat)
    requires Inv(s) && Enabled(s, step) && (step.Settle? || step.MarkStuck? || step.DrainOne?)
    ensures RowStays(s, Next(s, step), step, id)
  {
    JobOf(s, step.id);
    if step.Settle? {
      SettledRow(s, step.id, step.result, step.now, id);
    }
  }

  lemma CheckedRow(s: State, now: Time, id: nat)
    requires Inv(s) && s.loop.Holding?
    ensures RowStays(s, Next(s, Check(now)), Check(now), id)
  {
    CarriedRow(s);
    if id in s.table {
      var claim := s.loop.claim;
      CheckedTable(s, now);
      RequeuedStays(s.table, claim.id, now + QUARANTINE_RETRY, id);
      if s.storageFullUntil.Some? {
        RequeuedStays(s.table, claim.id, s.storageFullUntil.value, id);
      }
    }
  }

  lemma CarriedRow(s: State)
    requires Inv(s) && s.loop.Holding?
    ensures var claim := s.loop.claim;
            && claim.id in s.table && s.table[claim.id].status.Running? && s.table[claim.id].attempt > 0
            && s.table[claim.id] == claim.job.(cancelRequested := s.table[claim.id].cancelRequested)
  {
    assert s.loop.claim in InHand(s) && RowOf(s, s.loop.claim);
  }

  // The check leaves the table, or requeues the claim's row.
  lemma CheckedTable(s: State, now: Time)
    requires s.loop.Holding?
    ensures var t', id := Next(s, Check(now)).table, s.loop.claim.id;
            || t' == s.table
            || t' == Requeued(s.table, id, now + QUARANTINE_RETRY, false)
            || (s.storageFullUntil.Some? && t' == Requeued(s.table, id, s.storageFullUntil.value, false))
  {
  }

  lemma RequeuedStays(t: Table, k: nat, runAfter: Time, id: nat)
    requires k in t && t[k].status.Running? && id in t
    ensures var t' := Requeued(t, k, runAfter, false);
            && id in t' && t'[id].createdAt == t[id].createdAt
            && (t[id].status.Queued? ==> t'[id].status.Queued? && t'[id].runAfter == t[id].runAfter)
  {
  }

  lemma RowAfter(s: State, w: Watch, step: Step, id: nat, createdAt: Time)
    requires Inv(s) && id in s.table && Allowed(s, w, step, id, createdAt)
    ensures RowStays(s, Next(s, step), step, id)
  {
    if step.Settle? || step.MarkStuck? || step.DrainOne? {
      EndingRow(s, step, id);
    } else if step.Check? {
      CheckedRow(s, step.now, id);
    } else {
      OtherRow(s, w, step, id, createdAt);
    }
  }

  lemma OtherRow(s: State, w: Watch, step: Step, id: nat, createdAt: Time)
    requires id in s.table && Allowed(s, w, step, id, createdAt)
    requires !(step.Settle? || step.MarkStuck? || step.DrainOne? || step.Check?)
    ensures RowStays(s, Next(s, step), step, id)
  {
  }

  lemma InHandAfter(s: State, step: Step, id: nat)
    requires Enabled(s, step) && !(step.Take? && step.id == id)
    requires id in Next(s, step).running || Carries(Next(s, step), id)
    ensures id in s.running || Carries(s, id)
  {
    if step.Settle? {
      assert Next(s, step).running.Keys <= s.running.Keys && Next(s, step).loop == s.loop;
    }
  }

  // A wait: the job leaves the runner's hands with its row queued until the wait is over.
  lemma WaitRow(s: State, id: nat, retryAfter: Option<real>, now: Time)
    requires Inv(s) && id in s.running
    ensures var s' := Next(s, Settle(id, NotReady(retryAfter), now));
            && id in s.table && id in s'.table && s'.table[id].status.Queued?
            && s'.table[id].runAfter == now + LiveRetryDelay(retryAfter, s.table[id].createdAt, now)
            && id !in s'.running && !Carries(s', id)
  {
    JobOf(s, id);
  }

  lemma WaitNoted(s: State, w: Watch, step: Step, id: nat, createdAt: Time)
    requires Inv(s) && WatchOk(s, w, id, createdAt) && Allowed(s, w, step, id, createdAt) && IsWait(step, id)
    ensures WatchOk(Next(s, step), Noted(w, step, id), id, createdAt)
  {
    WaitRow(s, id, step.result.retryAfter, step.now);
    RowAfter(s, w, step, id, createdAt);
    var w' := Noted(w, step, id);
    assert w'.waits == w.waits + [Wait(w.taken.value, step.now, step.result.retryAfter)];
    MoreWaits(createdAt, w.waits, w'.waits[|w.waits|]);
  }

  lemma MoreWaits(createdAt: Time, ws: seq<Wait>, w: Wait)
    requires Waits(createdAt, ws)
    requires createdAt <= w.decided <= w.settled && !LiveWaitExceeded(createdAt, w.decided)
    requires ws != [] ==>
               w.decided > ws[|ws| - 1].decided && w.decided >= ws[|ws| - 1].RunAfter(createdAt)
    ensures Waits(createdAt, ws + [w])
  {
  }

  lemma StepNoted(s: State, w: Watch, step: Step, id: nat, createdAt: Time)
    requires Inv(s) && WatchOk(s, w, id, createdAt) && Allowed(s, w, step, id, createdAt)
    ensures WatchOk(Next(s, step), Noted(w, step, id), id, createdAt)
  {
    if IsWait(step, id) {
      WaitNoted(s, w, step, id, createdAt);
    } else {
      var s', w' := Next(s, step), Noted(w, step, id);
      RowAfter(s, w, step, id, createdAt);
      if (id in s'.running || Carries(s', id)) && !(step.Take? && step.id == id) {
        InHandAfter(s, step, id);
      }
    }
  }

  lemma {:induction false} RunNoted(s: State, w: Watch, steps: seq<Step>, id: nat, createdAt: Time)
    requires Inv(s) && WatchOk(s, w, id, createdAt) && Watchable(s, w, steps, id, createdAt)
    ensures Waits(createdAt, NotedAll(w, steps, id).waits)
    decreases |steps|
  {
    if steps != [] {
      NextInv(s, steps[0]);
      StepNoted(s, w, steps[0], id, createdAt);
      RunNoted(Next(s, steps[0]), Noted(w, steps[0], id), steps[1..], id, createdAt);
    }
  }

  // Over every run of a worker, whatever else happens in it, a job is put off as not ready at
  // most 97 times.
  lemma WaitsAreBounded(worker: string, concurrency: nat, table: Table, start: Time, steps: seq<Step>, id: nat)
    requires Fresh(worker, table) && id in table && table[id].createdAt <= start
    requires Watchable(NewRunner(worker, concurrency, table), Watch(start, None, []), steps, id, table[id].createdAt)
    ensures |NotedAll(Watch(start, None, []), steps, id).waits| <= 97
  {
    var s := NewRunner(worker, concurrency, table);
    NewRunnerInv(worker, concurrency, table);
    RunNoted(s, Watch(start, None, []), steps, id, table[id].createdAt);
    WaitListBounded(table[id].createdAt, NotedAll(Watch(start, None, []), steps, id).waits);
  }

  // ------------------------------------------------------------------ backoff

  lemma {:induction false} Pow2Grows(a: nat, b: nat)
    requires a <= b
    ensures 1.0 <= Pow2(a) <= Pow2(b)
    decreases b
  {
    if a < b {
      Pow2Grows(a, b - 1);
    } else if a > 0 {
      Pow2Grows(a - 1, a - 1);
    }
  }

  lemma BackoffBaseGrows(attempt: int, later: int)
    requires attempt <= later
    ensures 60.0 <= BackoffBase(attempt) <= BackoffBase(later) <= 21600.0
  {
    Pow2Grows(if attempt > 0 then attempt else 0, if later > 0 then later else 0);
  }

  // A transient failure waits between 48 seconds and 7.2 hours, longer with every attempt.
  lemma BackoffBounds(attempt: int, later: int, jitter: real)
    requires attempt <= later && -BACKOFF_JITTER <= jitter <= BACKOFF_JITTER
    ensures 48.0 <= BackoffSeconds(attempt, jitter)
    ensures BackoffSeconds(attempt, jitter) <= BackoffSeconds(later, jitter)
    ensures BackoffSeconds(later, jitter) <= 25920.0
  {
    BackoffBaseGrows(attempt, later);
    ScaleBounds(BackoffBase(attempt), BackoffBase(later), 1.0 + jitter,
                BackoffSeconds(attempt, jitter), BackoffSeconds(later, jitter));
  }

  lemma MulGrows(x: real, y: real, f: real)
    requires x <= y && 0.0 <= f
    ensures x * f <= y * f
  {
    assert y * f - x * f == (y - x) * f;
    MulNonNegative(y - x, f);
  }

  lemma MulNonNegative(x: real, f: real)
    requires 0.0 <= x && 0.0 <= f
    ensures 0.0 <= x * f
  {
  }

  lemma ScaleBounds(x: real, y: real, f: real, p: real, q: real)
    requires 60.0 <= x <= y <= 21600.0 && 0.8 <= f <= 1.2 && p == x * f && q == y * f
    ensures 48.0 <= p <= q <= 25920.0
  {
    assert 60.0 * f >= 48.0 && 21600.0 * f <= 25920.0;
    MulGrows(60.0, x, f);
    assert 60.0 * f <= x * f == p;
    MulGrows(x, y, f);
    assert p == x * f <= y * f == q;
    MulGrows(y, 21600.0, f);
    assert q == y * f <= 21600.0 * f;
  }
}
