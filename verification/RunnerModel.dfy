/**
 The worker's claim loop as a state machine over the job table
 (src/copycast/worker/runner.py, src/copycast/adapters/db/repositories/jobs.py:231-365).
 Each database transaction is one atomic step that succeeds; times are seconds.
 */
module RunnerModel {
  import opened Basics

  type Time = real

  datatype Kind = Refresh | ArchiveItem | ExpandRequest | Prune | Rebuild

  datatype Status = Queued | Running | Succeeded | Failed | Cancelled

  datatype Job = Job(
    kind: Kind,
    feed: Option<string>,
    item: Option<string>,
    feedFetch: bool,
    priority: int,
    createdAt: Time,
    maxAttempts: nat,
    status: Status,
    runAfter: Time,
    attempt: nat,
    claimedBy: Option<string>,
    cancelRequested: bool)
  {
    // A podcast app holds the line for it.
    predicate OnDemand() {
      kind.ArchiveItem? && feedFetch
    }
  }

  type Table = map<nat, Job>

  const ON_DEMAND_SLOTS := 1
  const QUARANTINE_RETRY := 600.0
  const STORAGE_FULL_RETRY := 600.0
  const LIVE_RETRY := 1800.0
  const LIVE_WAIT_MAX := 172800.0
  const BACKOFF_BASE := 60.0
  const BACKOFF_MAX := 21600.0
  const BACKOFF_JITTER := 0.2

  // ------------------------------------------------------------------ waits

  function MinR(a: real, b: real): real { if a < b then a else b }

  function MaxR(a: real, b: real): real { if a > b then a else b }

  function Pow2(n: nat): real {
    if n == 0 then 1.0 else 2.0 * Pow2(n - 1)
  }

  function BackoffBase(attempt: int): real {
    MinR(BACKOFF_BASE * Pow2(if attempt > 0 then attempt else 0), BACKOFF_MAX)
  }

  function BackoffSeconds(attempt: int, jitter: real): real {
    BackoffBase(attempt) * (1.0 + jitter)
  }

  function LiveRetryDelay(retryAfter: Option<real>, createdAt: Time, now: Time): real {
    var wanted := if retryAfter.None? then LIVE_RETRY else MaxR(retryAfter.value, LIVE_RETRY);
    MaxR(MinR(wanted, createdAt + LIVE_WAIT_MAX - now), 0.0)
  }

  predicate LiveWaitExceeded(createdAt: Time, now: Time) {
    now - createdAt > LIVE_WAIT_MAX
  }

  // ------------------------------------------------------------------ the job table

  predicate RunningSameFeed(t: Table, id: nat)
    requires id in t
  {
    t[id].feed.Some? && exists r :: r in t && t[r].status.Running? && t[r].feed == t[id].feed
  }

  predicate RunningSameItem(t: Table, id: nat)
    requires id in t
  {
    t[id].item.Some? && exists r :: r in t && t[r].status.Running? && t[r].item == t[id].item
  }

  predicate Claimable(t: Table, id: nat, now: Time, onDemandOnly: bool) {
    && id in t
    && t[id].status.Queued?
    && t[id].runAfter <= now
    && (if t[id].OnDemand() then !RunningSameItem(t, id) else !RunningSameFeed(t, id))
    && (onDemandOnly ==> t[id].OnDemand())
  }

  function Claimed(job: Job, worker: string): Job {
    job.(status := Running, claimedBy := Some(worker), attempt := job.attempt + 1)
  }

  // `requeue` only touches a running row; `counted` false gives the attempt back.
  function Requeued(t: Table, id: nat, runAfter: Time, counted: bool): Table {
    if id in t && t[id].status.Running? then
      t[id := t[id].(status := Queued, runAfter := runAfter, claimedBy := None,
                     attempt := if counted || t[id].attempt == 0 then t[id].attempt else t[id].attempt - 1)]
    else t
  }

  function Finished(t: Table, id: nat, status: Status): Table {
    if id in t then t[id := t[id].(status := status)] else t
  }

  // ------------------------------------------------------------------ the runner

  datatype Stats = Stats(claimed: nat, succeeded: nat, failed: nat, requeued: nat, cancelled: nat, stuck: nat)

  // A claimed job as the claim returned it; `number` counts the runner's claims.
  datatype Claim = Claim(id: nat, job: Job, reserved: bool, number: nat)

  datatype Entry = Entry(claim: Claim, userCancelled: bool)

  // Where the claim loop is suspended: between turns, in the claim's transaction, before the
  // quarantine check, or (a retry only) reading its last log line after the check.
  datatype Loop = Idle | Asking(reserved: bool) | Holding(claim: Claim) | Cleared(claim: Claim)

  // How a claim ended.
  datatype Ending = Success | Failure | Retry | Cancel | Abandoned | Deferral | Handback

  // `stuckGeneral` (stuck jobs that held a general slot) and `ledger` (how each claim ended)
  // are bookkeeping of the proof; the program keeps neither.
  datatype State = State(
    worker: string,
    concurrency: nat,
    table: Table,
    running: map<nat, Entry>,
    stuck: nat,
    quarantined: set<string>,
    storageFullUntil: Option<Time>,
    stopped: bool,
    stats: Stats,
    loop: Loop,
    stuckGeneral: nat,
    ledger: seq<Option<Ending>>)

  // The running jobs that hold a reserved slot, or a general one.
  function Lane(running: map<nat, Entry>, reserved: bool): set<nat> {
    set id | id in running && running[id].claim.reserved == reserved
  }

  function FreeSlots(s: State): nat {
    var free := s.concurrency - |Lane(s.running, false)| - s.stuck;
    if free > 0 then free else 0
  }

  function FreeOnDemandSlots(s: State): nat {
    var free := ON_DEMAND_SLOTS - |Lane(s.running, true)|;
    if free > 0 then free else 0
  }

  predicate Quarantined(s: State, job: Job) {
    job.feed.Some? && job.feed.value in s.quarantined
  }

  predicate Paused(s: State, job: Job, now: Time) {
    job.kind.ArchiveItem? && s.storageFullUntil.Some? && now < s.storageFullUntil.value
  }

  datatype Result =
    | Completed
    | WasCancelled
    | StorageFull
    | NotReady(retryAfter: Option<real>)
    | Permanent
    | Transient(jitter: real)

  datatype Step =
    | Environment(table: Table)
    | Ask(reserved: bool)
    | NothingToClaim
    | Take(id: nat, now: Time)
    | Check(now: Time)
    | Begin
    | UserCancel(id: nat)
    | Settle(id: nat, result: Result, now: Time)
    | MarkStuck(id: nat)
    | RequestStop
    | DrainOne(id: nat, now: Time)

  predicate Mine(s: State, job: Job) {
    job.status.Running? && job.claimedBy == Some(s.worker)
  }

  // Everyone else (other workers, the api, the scheduler) may do anything to the table but
  // touch the rows this worker runs, save for asking their cancellation.
  predicate Foreign(s: State, t: Table) {
    && (forall id :: id in s.table && Mine(s, s.table[id]) ==>
          id in t && t[id] == s.table[id].(cancelRequested := t[id].cancelRequested))
    && (forall id :: id in t && Mine(s, t[id]) ==> id in s.table && Mine(s, s.table[id]))
  }

  predicate Enabled(s: State, step: Step) {
    match step
    case Environment(t) => Foreign(s, t)
    case Ask(reserved) =>
      s.loop.Idle? && !s.stopped && (if reserved then FreeOnDemandSlots(s) else FreeSlots(s)) > 0
    case NothingToClaim => s.loop.Asking?
    case Take(id, now) => s.loop.Asking? && Claimable(s.table, id, now, s.loop.reserved)
    case Check(_) => s.loop.Holding?
    case Begin => s.loop.Cleared?
    case UserCancel(id) => id in s.running
    case Settle(id, _, _) => id in s.running
    case MarkStuck(id) => id in s.running
    case RequestStop => true
    case DrainOne(id, _) => s.stopped && s.loop.Idle? && id in s.running
  }

  function Counted(t: Stats, e: Ending): Stats {
    match e
    case Success => t.(succeeded := t.succeeded + 1)
    case Failure => t.(failed := t.failed + 1)
    case Cancel => t.(cancelled := t.cancelled + 1)
    case Abandoned => t.(stuck := t.stuck + 1)
    case Retry => t.(requeued := t.requeued + 1)
    case Deferral => t.(requeued := t.requeued + 1)
    case Handback => t.(requeued := t.requeued + 1)
  }

  // One claim ends: the counter of its ending goes up, and the ledger says how it ended.
  function Close(s: State, claim: Claim, e: Ending): State {
    s.(stats := Counted(s.stats, e),
       ledger := if claim.number < |s.ledger| then s.ledger[claim.number := Some(e)] else s.ledger)
  }

  function Taken(s: State, id: nat): State
    requires s.loop.Asking? && id in s.table
  {
    var job := Claimed(s.table[id], s.worker);
    s.(table := s.table[id := job],
       stats := s.stats.(claimed := s.stats.claimed + 1),
       loop := Holding(Claim(id, job, s.loop.reserved, s.stats.claimed)),
       ledger := s.ledger + [None])
  }

  function Deferred(s: State, claim: Claim, until: Time): State {
    Close(s.(table := Requeued(s.table, claim.id, until, false), loop := Idle), claim, Deferral)
  }

  function Started(s: State, claim: Claim): State {
    s.(running := s.running[claim.id := Entry(claim, false)], loop := Idle)
  }

  // The quarantine and storage check; a first attempt starts in the same step, a retry first
  // awaits its last log line.
  function Checked(s: State, claim: Claim, now: Time): State {
    if Quarantined(s, claim.job) then Deferred(s, claim, now + QUARANTINE_RETRY)
    else if Paused(s, claim.job, now) then Deferred(s, claim, s.storageFullUntil.value)
    else if claim.job.attempt <= 1 then Started(s, claim)
    else s.(loop := Cleared(claim))
  }

  function Retried(s: State, claim: Claim, runAfter: Time, counted: bool): State {
    Close(s.(running := s.running - {claim.id}, table := Requeued(s.table, claim.id, runAfter, counted)), claim, Retry)
  }

  function Concluded(s: State, claim: Claim, status: Status, e: Ending): State {
    Close(s.(running := s.running - {claim.id}, table := Finished(s.table, claim.id, status)), claim, e)
  }

  function Settled(s: State, id: nat, result: Result, now: Time): State
    requires id in s.running
  {
    var claim := s.running[id].claim;
    var job := claim.job;
    match result
    case Completed => Concluded(s, claim, Succeeded, Success)
    case WasCancelled =>
      if s.stopped && !s.running[id].userCancelled then Retried(s, claim, now, false)
      else Concluded(s, claim, Cancelled, Cancel)
    case StorageFull =>
      var until := now + STORAGE_FULL_RETRY;
      Retried(if job.kind.ArchiveItem? then s.(storageFullUntil := Some(until)) else s, claim, until, false)
    case NotReady(retryAfter) => Retried(s, claim, now + LiveRetryDelay(retryAfter, job.createdAt, now), false)
    case Permanent => Concluded(s, claim, Failed, Failure)
    case Transient(jitter) =>
      if job.attempt < job.maxAttempts then Retried(s, claim, now + BackoffSeconds(job.attempt, jitter), true)
      else Concluded(s, claim, Failed, Failure)
  }

  // The thread ignored its token: the job fails, its Feed is quarantined, its slot is lost.
  function Abandon(s: State, id: nat): State
    requires id in s.running
  {
    var claim := s.running[id].claim;
    var s' := Concluded(s, claim, Failed, Abandoned);
    s'.(stuck := s.stuck + 1,
        stuckGeneral := if claim.reserved then s.stuckGeneral else s.stuckGeneral + 1,
        quarantined := if claim.job.feed.Some? then s.quarantined + {claim.job.feed.value} else s.quarantined)
  }

  function Drained(s: State, id: nat, now: Time): State
    requires id in s.running
  {
    var claim := s.running[id].claim;
    Close(s.(running := s.running - {claim.id}, table := Requeued(s.table, claim.id, now, false)), claim, Handback)
  }

  function Next(s: State, step: Step): State
    requires Enabled(s, step)
  {
    match step
    case Environment(t) => s.(table := t)
    case Ask(reserved) => s.(loop := Asking(reserved))
    case NothingToClaim => s.(loop := Idle)
    case Take(id, _) => Taken(s, id)
    case Check(now) => Checked(s, s.loop.claim, now)
    case Begin => Started(s, s.loop.claim)
    case UserCancel(id) => s.(running := s.running[id := s.running[id].(userCancelled := true)])
    case Settle(id, result, now) => Settled(s, id, result, now)
    case MarkStuck(id) => Abandon(s, id)
    case RequestStop => s.(stopped := true)
    case DrainOne(id, now) => Drained(s, id, now)
  }

  function NewRunner(worker: string, concurrency: nat, table: Table): State {
    State(worker, concurrency, table, map[], 0, {}, None, false, Stats(0, 0, 0, 0, 0, 0), Idle, 0, [])
  }

  predicate Runs(s: State, steps: seq<Step>)
    decreases |steps|
  {
    steps == [] || (Enabled(s, steps[0]) && Runs(Next(s, steps[0]), steps[1..]))
  }

  function Run(s: State, steps: seq<Step>): State
    requires Runs(s, steps)
    decreases |steps|
  {
    if steps == [] then s else Run(Next(s, steps[0]), steps[1..])
  }
}
