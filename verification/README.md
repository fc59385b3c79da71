# Copycast: a Dafny model of its protocols and transformations

Copycast mirrors podcasts and channels: a worker archives Episodes with yt-dlp, an API serves
feeds and live events, and a web app plays them. This project models the parts of it that are
protocols or transformations rather than plumbing, each in the form the code has (classes whose
methods are proved against a specification where the code updates objects in place, loops with
invariants where it loops, functions and lemmas where it computes), and proves what those parts
are for.

| modules | what they model | main results |
|---|---|---|
| `EventModel`, `EventReference`, `EventRefinement`, `EventDelivery`, `EventReplay`, `EventStreams`, `EventHub` | the hub that numbers, buffers, fans out and replays events | each view refines an append-only log of its own events; exactly the frames any filtered connection gets; non-interference between Owners; complete replay over any number of reconnections, nothing missed that no gap announced; closed streams end |
| `RunnerModel`, `RunnerSafety`, `RunnerSlots`, `RunnerExclusion`, `RunnerAttempts`, `RunnerGuard`, `RunnerWaits`, `Runner` | the worker's claim loop over the job table | conservation of claims, each ended once; no job lost; one running job of a Feed; the attempt counts failures, so retries are bounded; slots kept, and exactly when they are oversold; the claim loop ends and leaves no usable slot idle; bounded waits over every run |
| `CacheModel`, `FeedCache`, `CacheCoherence` | the feed cache: wire form, recency list, render lock across replicas | round trip; refinement of a recency list; every answer is the rendering at its own revision, never older than asked; one render of each revision |
| `CookieText`, `CookieLine`, `CookieJar`, `CookieSplit` | merging cookie files into one jar and splitting it back | exactly what a cookie line is, and every one reaches the jar; write-back of the whole jar; each new key lands in one file; fixed point |
| `Exceptions`, `WalkOrder`, `Classify` | breadth-first walk of exception graphs, and classification | the walk ends on cyclic graphs and is exact; nearest answer wins, by precedence; exactly when that is the documented order |
| `SelectionText`, `SelectionRoundTrip`, `SelectionSpelling`, `SelectionScan`, `SelectionAgreement` | the selection printer and its two parsers | both parsers read every spelling of ranges, and the print back; the print is the shortest; exactly when the parsers agree on any text |
| `Ordinals` | numbering a Catalog | ordinals stay 1..n, for ever; permutation invariance |
| `Totp` | one-time codes | a code is good for three steps, once; accepted steps strictly increase; few sign-ins |
| `TtlCache` | the timed cache of the probe and the search | hits are last puts; a value is lost early only to `max_entries` other keys; purging is unseen |
| `Listening`, `Player`, `PlayerReload` | remembering and resuming positions in the web player | the auto-rewind never compounds; a heard position comes back; exactly when a finished Episode starts over |
| `Progress` | the two-index progress store | the indexes agree over every run, and exactly when every running Episode is shown |
| `EngineOptions`, `Allowlist`, `FetchOptions` | the allowlist and the layering of yt-dlp options | exactly what the allowlist takes; sanitizing is idempotent; last layer wins; a Mirror cannot touch the operator's own arguments |

`Basics`, `Decimal` and `TextOrder` hold what they share. `dafny verify dfyconfig.toml` checks everything.

## Where the code and its promises part

Each of these is a set of lemmas: a concrete input or run where the promise fails, and the exact
condition under which it holds.

- **Classification** (`Classify.DocumentedOrderFails`, `Classify.DocumentedOrderIff`,
  `Classify.DecidedAsDocumented`). The documentation of `classify` ranks, over the whole chain,
  Engine errors, cancellations, storage exhaustion, HTTP statuses, network transport errors,
  expected extractor errors and then the other classes; after storage the code takes the first
  exception of the chain whose class says anything. A post-processing error around a 404 is
  retried. The verdict is the documented one exactly when an Engine error, a cancellation or
  storage exhaustion decides, or no later exception outranks the first classed one. (A download
  cut short is read as a transport error; a refusal counts as an expected one when it is
  permanent.)
- **Timed cache** (`TtlCache.RefreshedGoesFirst`, `TtlCache.OldestFirstIff`). "The oldest go first
  when full" fails: putting a live key again renews its expiry but not its place, so a value just
  renewed can be evicted before an older one. A put keeps the order exactly when its key held no
  live value or everything behind it was put at the same instant.
- **Start guard** (`RunnerGuard.RetryStartsOnQuarantinedFeed`, `RunnerGuard.RetryRaceOverRuns`). A
  retry reads its last log line between the quarantine check and its start; a sibling abandoned
  meanwhile leaves it starting on a quarantined Feed. Some run does that exactly when the runner
  has a rival job as the retry passes its check.
- **Slots** (`RunnerSlots.StuckReservedJobOversells`, `RunnerSlots.OversellsIff`,
  `RunnerSlots.RunsOversellIff`, `RunnerSlots.RunsOverspeakIff`). General running jobs plus all stuck
  jobs may exceed the concurrency, because a stuck job that held the reserved slot counts too. A
  step does it, and so does a whole run, exactly when with those at the concurrency it gives up a
  job of the reserved slot or starts that of a general claim. With the claim in progress counted
  too, a run stays within the concurrency exactly when it never gives up a job of the reserved slot
  while they fill it. General running plus stuck jobs that held general slots never exceed it
  (`RunnerSafety.SlotsAreKept`).
- **Replay gaps** (`EventReplay.GapBreaksIds`, `EventReplay.GapBreaksIdsIff`,
  `EventReplay.ReconnectionBreaksIdsIff`, `EventReplay.CompleteReplay`). The replay-gap frame carries
  the last id of the view, so the ids a client sees break off just before such a frame as well as
  just after it, and nowhere else. A reconnection goes on from the last id received exactly when
  what follows it is still buffered or is one event at most; else it opens with the gap.
- **Overflow after a gap** (`EventReplay.OverflowAfterGapLoses`, `EventReplay.ReconnectOwesIff`,
  `EventReplay.ReconnectionOwesIff`). "A queue overflow never loses an event still buffered" fails
  when the last frame received is a gap: the client then names the gap's id, which skips buffered
  events that were to follow it. A reconnection whose stream stays open brings every buffered event
  after the last one received exactly when the last frame is no gap with such an event before its
  id. The gap itself told the client of the loss.
- **Cache entries** (`CacheModel.RoundTrip`). An entry with an empty gzip body reads back with none;
  every other entry reads back as it was. `build_entry` never makes the former.
- **Finished Episodes** (`Player.FinishedIsLost`, `Player.FinishedStartsOverIff`,
  `Player.FinishedRunStartsOverIff`). "Played to the end starts over" fails after a save in between,
  with a length that is not known: the save un-finishes the Episode, which resumes at its end. After
  any run of calls that leaves the position where it is, it starts over exactly when nothing was
  saved, it stood in its first 10 s, its end was known to be within 30 s at the last save, or the
  auto-rewind takes it back to its start.
- **Progress** (`Progress.ChangedItemStays`, `Progress.RecordAgreesIff`, `Progress.SharedItemIsHidden`,
  `Progress.ShownAfterRecordIff`, `Progress.ShownAfterClearIff`, `Progress.ShownThroughoutIff`). A job
  that changes its Episode leaves the old one pointing at it for ever; two jobs on one Episode hide
  it when the later is cleared. Over any run, jobs that change their Episode included, every running
  job's Episode is shown throughout exactly when no report takes an Episode over from another job.
- **Parsers** (`SelectionRoundTrip.ParsersDisagree`, `SelectionAgreement.LimitsDisagree`,
  `SelectionAgreement.TokensAgreeIff`, `SelectionAgreement.VerdictsAgreeIff`,
  `SelectionAgreement.VerdictsDifferIff`). `1  -2` is a range on the server and is refused in the
  browser, and one range of 100001 numbers the other way round. On text whose blanks both sides
  know, they read the same tokens exactly when no range operator has two blanks or more, or a line
  break, between it and what it ranges over. What the browser accepts the server accepts exactly
  when its limit on all the numbers lets it through; what the server accepts the browser accepts
  exactly when no operator is broken off so. Those are the only ways their verdicts differ.

## Model

| member | source | states |
|---|---|---|
| EventRefinement.PublishedRefines | src/copycast/adapters/api/events.py:270-292 | a publish is, in each view, one append to that view's own log, or nothing when it does not concern the view |
| EventRefinement.SubscribedRefines | src/copycast/adapters/api/events.py:305-342 | a subscription reads exactly what the view's own log gives from its last id on, or the replay-gap resync |
| EventRefinement.Simulation | src/copycast/adapters/api/events.py:205-346 | over every history from any state, a view's connections receive exactly what its own acts on its own log give |
| EventRefinement.PublishedNumbers | src/copycast/adapters/api/events.py:194-202 | a view's next id is one more than the number of events of its log |
| EventRefinement.NextInv | src/copycast/adapters/api/events.py:205-346 | every step keeps each view's buffer and each queue to envelopes that have an id in that view |
| EventRefinement.NextRefines | src/copycast/adapters/api/events.py:205-346 | every step keeps each view's buffer within its size, the numbered tail of the view's own log, and its readers those of the log |
| EventRefinement.OfferSeen | src/copycast/adapters/api/events.py:150-157 | offering an envelope is, in the subscriber's view, offering that view's frame |
| EventDelivery.NonInterference | src/copycast/adapters/api/events.py:18-26 | two histories that agree on a narrow Principal's own events, the resyncs and its own connections give those connections the same frames, ids, replay-gap answers and closures |
| EventDelivery.ForeignStepsVanish | src/copycast/adapters/api/events.py:270-292 | another Owner's event and another view's connections are no step of a view |
| EventDelivery.QueuedEnvelopesHaveIds | src/copycast/adapters/api/events.py:146-157 | every waiting envelope has an id in its subscriber's view |
| EventDelivery.EndingKept | src/copycast/adapters/api/events.py:150-174 | the sentinel stays last and only on a closed stream, whatever is put, closed or taken |
| EventDelivery.ClosedDrains | src/copycast/adapters/api/events.py:159-174 | a consumer of a closed stream gets all that is queued, in order, and returns |
| EventDelivery.ClosedStreamsEnd | src/copycast/adapters/api/events.py:159-174 | the same after any history of the hub, for a stream that is closed and for one closed now by unsubscribing: none leaves its consumer waiting |
| EventReplay.CompleteReplay | src/copycast/adapters/api/events.py:305-342 | a client that reconnects with its last id receives, over one lifetime of the hub, exactly the numbered events: ids contiguous except next to a replay gap, none twice, none late; and once its stream is open with nothing unread it has every event since it started, but for those a gap announced |
| EventReplay.ReconnectExact | src/copycast/adapters/api/events.py:318-342 | a reconnection within the buffer is offered exactly the events after the last one received |
| EventReplay.BufferedEventsAreReplayed | src/copycast/adapters/api/events.py:305-342 | after any life of the client, a reconnection while the event after the last id received is buffered goes on with it, without a gap |
| EventReplay.ReconnectOwesIff | src/copycast/adapters/api/events.py:318-342 | a reconnection whose stream stays open brings every buffered event after the last one received exactly when the last frame is no gap with such an event before its id |
| EventReplay.ReconnectionOwesIff | src/copycast/adapters/api/events.py:305-342 | the same in the life of any client |
| EventReplay.OverflowAfterGapLoses | src/copycast/adapters/api/events.py:318-342 | a hub and two reconnections after which buffered events are never delivered |
| EventReplay.GapBreaksIds | src/copycast/adapters/api/events.py:331-337 | a hub and a replay whose ids break off before the gap as well as after it |
| EventReplay.GapBreaksIdsIff | src/copycast/adapters/api/events.py:326-340 | a reconnection goes on from the last id received exactly when what follows is still buffered or is one event at most; else it opens with the gap, which carries the last id, and then the buffer from an id no later |
| EventReplay.ReconnectionBreaksIdsIff | src/copycast/adapters/api/events.py:305-342 | the same in the life of any client |
| EventReplay.ReplayExact | src/copycast/adapters/api/events.py:336-340 | replaying the buffer leaves the queue holding consecutive events: all of them while open, as many as fit once it overflows |
| EventStreams.StreamIsExact | src/copycast/adapters/api/events.py:305-342 | over every history, a connection of any Principal with any Feed filter and any last id carries exactly its gap, if any, and then each event addressed to it that is of its Feed or a resync, in order and at its own id; a closed one carries a beginning of that |
| EventStreams.FilteredStream | src/copycast/adapters/api/events.py:139-157 | a stream of one Feed carries only resyncs and that Feed's own events; while it is open, every such event after its start is received or waiting, unless a gap announced it |
| EventStreams.OnlyOwnEvents | src/copycast/adapters/api/events.py:80-108 | an API key, an Admin's too, and a Member's session carry no event but resyncs and those published for their own User |
| EventStreams.MatchingHas | src/copycast/adapters/api/events.py:139-144 | which events the filtered part of a stream has, by the fields of the event |
| EventHub.Subscription.constructor | src/copycast/adapters/api/events.py:123-137 | a new subscription is open, empty and bounded |
| EventHub.Subscription.Offer | src/copycast/adapters/api/events.py:139-157 | a wanted envelope is queued, on a full queue it is dropped and the subscription closed; a filtered stream ignores another Feed's event and keeps its own |
| EventHub.Subscription.Close | src/copycast/adapters/api/events.py:159-165 | closing is idempotent and queues the sentinel when there is room |
| EventHub.Subscription.Resume | src/copycast/adapters/api/events.py:167-174 | one resumption of the consumer: the next envelope, a wait, or the end |
| EventHub.Hub.constructor | src/copycast/adapters/api/events.py:208-232 | a new hub has its buffer and queue sizes, no events and no subscribers |
| EventHub.Hub.EnsureView | src/copycast/adapters/api/events.py:264-268 | a view is created when first named, and only then |
| EventHub.Hub.Number | src/copycast/adapters/api/events.py:274-289 | the envelope gets the next id of the instance view and of each of its views, and its place in their buffers |
| EventHub.Hub.AdvanceViews | src/copycast/adapters/api/events.py:280-288 | each view concerned buffers the envelope and counts it once |
| EventHub.Hub.FanOut | src/copycast/adapters/api/events.py:289-291 | every subscriber is offered the envelope, in any order, with the same outcome |
| EventHub.Hub.Publish | src/copycast/adapters/api/events.py:270-292 | the hub's whole new state after a publish |
| EventHub.Hub.ReplayTo | src/copycast/adapters/api/events.py:336-340 | a subscription is offered every buffered envelope after its last id, oldest first |
| EventHub.Hub.OpenFrom | src/copycast/adapters/api/events.py:324-340 | what a subscription is offered before its first live event: the replay, or the replay-gap resync |
| EventHub.Hub.Subscribe | src/copycast/adapters/api/events.py:305-342 | the hub's whole new state after a subscription |
| EventHub.Hub.Unsubscribe | src/copycast/adapters/api/events.py:344-346 | a subscription leaves and nothing else changes |
| RunnerSafety.NextInv | src/copycast/worker/runner.py:252-606 | every step keeps the rows, the ledger, the counters and the slots in agreement |
| RunnerSafety.ClaimsAreConserved | src/copycast/worker/runner.py:131-139 | over every run, claimed = succeeded + failed + requeued + cancelled + stuck + in hand |
| RunnerSafety.EachClaimEndsOnce | src/copycast/worker/runner.py:362-476 | every claim is open, held by the loop or by one running job and no other, or has ended in one way, which no later step changes |
| RunnerSafety.EndedOnce | src/copycast/worker/runner.py:536-606 | no step ends a claim already ended |
| RunnerSafety.NoJobIsLost | src/copycast/worker/runner.py:573-606 | the rows running under a worker are exactly the jobs it has in hand, over every run |
| RunnerSafety.UncountedRequeueUndoesTheClaim | src/copycast/adapters/db/repositories/jobs.py:231-365 | a requeue that does not count gives the attempt back: only the time it runs again differs |
| RunnerSafety.SlotsAreKept | src/copycast/worker/runner.py:184-194 | general running plus stuck general jobs never exceed the concurrency; reserved running never the reserved slots |
| RunnerSafety.SettleEnds | src/copycast/worker/runner.py:362-476 | settling ends exactly one claim, in the one way its result and the stop say |
| RunnerSafety.MarkStuckEnds | src/copycast/worker/runner.py:536-551 | marking stuck ends exactly one claim, fails its row and quarantines its Feed and no other |
| RunnerSafety.DrainEnds | src/copycast/worker/runner.py:573-606 | draining one job ends exactly one claim and queues its row at the attempt it had before |
| RunnerExclusion.EligibleIsClaimable | src/copycast/adapters/db/repositories/jobs.py:231-272 | a row is claimable exactly when it is queued and due, fits the lane, and no running row shares its Feed, or, when it is an archive a podcast app waits for, its Episode |
| RunnerExclusion.TakesAreExclusive | src/copycast/adapters/db/repositories/jobs.py:245-266 | at every claim of every run, the row claimed shares its Feed with no running row, or its Episode with none when an app waits for it |
| RunnerExclusion.FeedsRunOneJob | src/copycast/adapters/db/repositories/jobs.py:231-281 | over every run whose other workers keep to it, no two running jobs share a Feed, those an app waits for aside |
| RunnerExclusion.ItemsRunOneJob | src/copycast/adapters/db/repositories/jobs.py:231-281 | over every such run no two running jobs share an Episode, those an app waits for included |
| RunnerExclusion.ReservedSlotIsForApps | src/copycast/worker/runner.py:252-269 | over every run the reserved slot runs only archives a podcast app waits for |
| RunnerAttempts.AttemptsAreFailures | src/copycast/worker/runner.py:446-468 | over every run that leaves the job's row to the worker, its attempt counts its transient failures and the claim it runs under, and nothing else; the failure that reaches `max_attempts` leaves it failed, every earlier one is a retry |
| RunnerAttempts.RetriesAreBounded | src/copycast/worker/runner.py:446-468 | so a new job is retried for transient failures at most `max_attempts - 1` times |
| RunnerAttempts.SettleLeaves | src/copycast/worker/runner.py:362-476 | for each way a job ends: its row's status, time to run and attempt, every other field as before; and the archive pause |
| RunnerAttempts.CheckLeaves | src/copycast/worker/runner.py:290-303 | on a quarantined Feed a claim goes back for 10 minutes, an archive during the pause until it is over, each at its earlier attempt; any other keeps its claim |
| RunnerAttempts.QuarantineLasts | src/copycast/worker/runner.py:536-551 | a quarantined Feed stays so for the rest of every run |
| RunnerAttempts.StuckFeedsStayPut | src/copycast/worker/runner.py:290-303 | after a job is given up, every later check of a claim of its Feed, over every run, puts it off for 10 minutes and starts nothing |
| RunnerAttempts.RequeuedRow | src/copycast/adapters/db/repositories/jobs.py:330-365 | a requeue that counts keeps the attempt, one that does not gives back one; either way the row is queued for the time given |
| RunnerGuard.StartsAreChecked | src/copycast/worker/runner.py:265-303 | in every run a first attempt starts only in the check itself, never on a quarantined Feed, nor an archive during the pause; a retry starts only from a check that passed |
| RunnerGuard.UnguardedStartsAreRetries | src/copycast/worker/runner.py:265-317 | in every run, a start on a quarantined Feed or of a paused archive is a retry's |
| RunnerGuard.RetryRace | src/copycast/worker/runner.py:265-281 | such a start is possible exactly when a rival job is running while the retry reads its log |
| RunnerGuard.RetryRaceOverRuns | src/copycast/worker/runner.py:265-281 | over whole runs: some run before the retry starts spoils its check exactly when a rival is running as it passes the check |
| RunnerSlots.StuckReservedJobOversells | src/copycast/worker/runner.py:184-188 | a run after which general running plus stuck exceeds the concurrency |
| RunnerSlots.OversellsIff | src/copycast/worker/runner.py:184-188 | a step makes general running plus stuck exceed the concurrency exactly when, with those at the concurrency, it gives up a job of the reserved slot or starts a general claim |
| RunnerSlots.UsedStaysIff | src/copycast/worker/runner.py:184-188 | with claims in progress counted, a step stays within the concurrency exactly unless it gives up a job of the reserved slot while all is in use |
| RunnerSlots.RunsOversellIff | src/copycast/worker/runner.py:184-188 | a whole run keeps general running plus stuck within the concurrency exactly when no step of it is such |
| RunnerSlots.RunsOverspeakIff | src/copycast/worker/runner.py:184-188 | with claims in progress counted, a whole run does so exactly when it never gives up a job of the reserved slot while all is in use |
| RunnerGuard.RetryStartsOnQuarantinedFeed | src/copycast/worker/runner.py:265-317 | a run after which a retry starts on a quarantined Feed |
| RunnerWaits.NotReadyNeverOvershoots | src/copycast/worker/runner.py:96-106 | a not-ready requeue is never before now nor past max(now, created + 48 h), and half an hour away while that fits |
| RunnerWaits.WaitsAreBounded | src/copycast/worker/runner.py:417-431 | over every run of a worker that leaves the job's row to it, a job is put off as not ready at most 97 times |
| RunnerWaits.WaitListBounded | src/copycast/worker/constants.py:40-67 | a list of waits, each after the one before is over, holds at most 97 |
| RunnerWaits.WaitsReachTheBound | src/copycast/worker/constants.py:40-67 | such a list of 97 exists |
| RunnerWaits.BackoffBounds | src/copycast/worker/runner.py:89-93 | a transient failure waits between 48 s and 7.2 h, never less for a later attempt |
| RunnerAttempts.BackoffDoubles | src/copycast/worker/runner.py:89-93 | before jitter the wait is 60 s, doubled by every attempt, up to 6 h |
| RunnerAttempts.NotReadyDelay | src/copycast/worker/runner.py:96-106 | a not-ready wait is half an hour or the longer estimate, cut at two days after the job was created, and zero after them |
| Runner.Runner.FreeSlots | src/copycast/worker/runner.py:184-188 | the general slots left by running and stuck jobs, none exactly when those fill the concurrency |
| Runner.Runner.FreeOnDemandSlots | src/copycast/worker/runner.py:190-194 | the reserved slots left, none exactly when they are all in use |
| Runner.Runner.ClaimOne | src/copycast/adapters/db/repositories/jobs.py:231-281 | none exactly when no queued due row of the lane is free of a running job of its Feed (or Episode); else the first such row by priority, time due and id runs, and the whole new table |
| Runner.FirstExists | src/copycast/adapters/db/repositories/jobs.py:231-281 | among any rows there is a first in that order |
| Runner.Runner.DeferIfNeeded | src/copycast/worker/runner.py:290-303 | a quarantined or paused job is given back for later, uncounted; any other is left in hand |
| Runner.Runner.Start | src/copycast/worker/runner.py:305-317 | the claim runs in the lane it was asked for |
| Runner.Runner.Turn | src/copycast/worker/runner.py:252-269 | one turn starts a job the check lets through, or puts it off strictly later, or finds nothing to claim |
| Runner.DeferTurn | src/copycast/worker/runner.py:290-303 | a deferring turn is a run of the machine that uses up one due row |
| Runner.StartTurn | src/copycast/worker/runner.py:305-317 | a starting turn is a run of the machine that uses up one due row and one slot |
| Runner.Runner.FillLane | src/copycast/worker/runner.py:256-268 | the inner loop ends, with its lane full or nothing left to claim |
| Runner.FilledTwice | src/copycast/worker/runner.py:252-269 | filling one lane after the other: the rows claimed run, each once, none quarantined or paused; others are untouched or put off |
| Runner.Runner.ClaimAvailable | src/copycast/worker/runner.py:252-269 | it ends and, unless stopping, each lane is full or no queued due row of it is free of a running job of its Feed (or Episode): no usable slot stays idle |
| Runner.Runner.Settle | src/copycast/worker/runner.py:362-476 | the new counters, pause and slots for each way a job ends, and its row's status, time to run and attempt |
| Runner.Runner.MarkStuck | src/copycast/worker/runner.py:536-569 | the job fails, its Feed is quarantined and its slot is lost |
| Runner.Runner.HandBack | src/copycast/worker/runner.py:594-606 | one running job goes back to the queue, its attempt uncounted |
| Runner.Runner.Drain | src/copycast/worker/runner.py:573-592 | afterwards nothing runs, and each job handed back has the attempt it had before its claim |
| CacheModel.RoundTrip | src/copycast/adapters/api/cache.py:101-132 | an entry reads back as it was, newlines in its body included, exactly unless its gzip body is empty |
| CacheModel.DecodeCut | src/copycast/adapters/api/cache.py:113-132 | what is read from an entry cut anywhere after its header |
| CacheModel.TruncationRefused | src/copycast/adapters/api/cache.py:113-132 | a cut entry is refused exactly when the cut falls before the end of the body |
| CacheModel.KeysDistinct | src/copycast/adapters/api/cache.py:168-170 | one key names one Feed at one revision, and a lock is never mistaken for a body |
| CacheModel.KeysAreSpelled | src/copycast/adapters/api/cache.py:168-170 | the keys of bodies and of locks, as the shared level holds them |
| FeedCache.Cache.constructor | src/copycast/adapters/api/cache.py:211-216 | an empty list with room for at least one Feed |
| FeedCache.Cache.Get | src/copycast/adapters/api/cache.py:218-225 | a hit at the revision moves the Feed last; anything else is a miss that changes nothing but its counter |
| FeedCache.Cache.Keep | src/copycast/adapters/api/cache.py:250-255 | the entry is listed last and the least recent Feeds go while too many |
| FeedCache.Cache.Invalidate | src/copycast/adapters/api/cache.py:247-248 | the Feed goes and the order of the others stays |
| FeedCache.KeptShape | src/copycast/adapters/api/cache.py:250-255 | keeping an entry evicts at most the least recent other Feed |
| FeedCache.Remembered | src/copycast/adapters/api/cache.py:218-255 | a listed Feed's entry is the last one kept, and the Feeds after it were all kept or hit since |
| FeedCache.EvictedLate | src/copycast/adapters/api/cache.py:250-255 | a Feed is evicted only after `capacity` other Feeds were kept or hit since it last was |
| FeedCache.RefinesRecency | src/copycast/adapters/api/cache.py:210-255 | after any calls: within capacity, hits are the last entries kept, and without invalidation it holds exactly the Feeds with fewer than `capacity` others since |
| CacheCoherence.NextInv | src/copycast/adapters/api/cache.py:257-295 | every interleaved step of every replica keeps all lists and the shared level genuine |
| CacheCoherence.AnswersAreRenderings | src/copycast/adapters/api/cache.py:257-295 | every answer is the Feed's content rendered at the entry's own revision, never older than the one asked for |
| CacheCoherence.RendersOnce | src/copycast/adapters/api/cache.py:257-295 | however the requests of any replicas interleave, one revision of a Feed is rendered at most once, unless a request has no shared level or the lock fails, expires or is not waited for |
| CacheCoherence.FoundGenuine | src/copycast/adapters/api/cache.py:172-183 | a body found in the shared level is the rendering at the revision asked for |
| CacheCoherence.StoredGenuine | src/copycast/adapters/api/cache.py:185-190 | storing a rendering keeps the shared level genuine |
| CacheCoherence.LockedGenuine | src/copycast/adapters/api/cache.py:192-201 | taking a render lock never passes for a body |
| CookieText.ReadCookieLines | src/copycast/domain/cookies.py:89-99 | the loop reads the cookies of each line, HttpOnly ones included, comments and malformed lines aside |
| CookieText.SplitJoined | src/copycast/domain/cookies.py:89-103 | lines written with a newline after each read back as they were |
| CookieText.RenderReads | src/copycast/domain/cookies.py:89-103 | a rendered file reads back as exactly the cookie lines written into it |
| CookieLine.FieldsAreRead | src/copycast/domain/cookies.py:92-98 | a line of tab-separated fields, with `#HttpOnly_` before it or without (then neither blank nor a comment), is a cookie exactly when the fields are seven: of the domain, path and name that the first, third and sixth give |
| CookieLine.CookieLinesSpellFields | src/copycast/domain/cookies.py:92-98 | nothing else is: every cookie line spells seven such fields |
| CookieLine.OneLineFile | src/copycast/domain/cookies.py:89-99 | a file of one such line reads as that one cookie, or as none with another number of fields |
| CookieLine.FileHas | src/copycast/domain/cookies.py:89-99 | the cookies of a file are exactly those its lines are |
| CookieLine.LinesEnd | src/copycast/domain/cookies.py:92 | a line ends at each character Python breaks lines at, a carriage return and line feed counting once |
| TextOrder.SortNames | src/copycast/domain/cookies.py:108 | the loop computes the names in order |
| TextOrder.SortedInOrder | src/copycast/domain/cookies.py:108 | that order has every name once, each before the next |
| TextOrder.BeforeIsLexicographic | src/copycast/domain/cookies.py:108 | one name is before another exactly when at the first place they differ it has ended or has the smaller character |
| CookieJar.MergedReads | src/copycast/domain/cookies.py:106-108 | the merged jar reads back as every file's cookies in name order |
| CookieLine.EveryLineReachesTheJar | src/copycast/domain/cookies.py:106-108 | every line of seven fields of every file, HttpOnly or not, is in the merged jar |
| CookieLine.LaterFileWins | src/copycast/domain/cookies.py:106-108 | the last line for a key of the last file by name that holds the key is the one the jar's readers take |
| CookieJar.Placement | src/copycast/domain/cookies.py:111-134 | after a split a file holds exactly the keys it held that the jar still has, and those it adopts |
| CookieJar.SomeoneGets | src/copycast/domain/cookies.py:120-134 | a key of the jar lands somewhere exactly when some file held it or covers its site |
| CookieJar.NewKeyLandsOnce | src/copycast/domain/cookies.py:125-134 | a new key lands in one file only, the first by name of its site |
| CookieJar.WriteBack | src/copycast/domain/cookies.py:106-134 | merging what the split wrote gives the jar's own lines for exactly its keys of covered sites |
| CookieJar.SplitIsAFixedPoint | src/copycast/domain/cookies.py:106-134 | splitting again from the result returns the same files |
| CookieLine.EveryLineComesBack | src/copycast/domain/cookies.py:116-124 | for every line of seven fields of a file, HttpOnly or not, the split gives that file the jar's last line of its key |
| CookieLine.LastTwoLabels | src/copycast/domain/cookies.py:42-45 | a domain's site is its last two labels in small letters, a leading dot aside |
| CookieLine.DictIsLast | src/copycast/domain/cookies.py:118 | a jar's current line for a key is its last |
| CookieLine.DictKeepsOrder | src/copycast/domain/cookies.py:118-133 | new keys are met in the order in which the jar first mentions them |
| CookieSplit.MergeCookieFiles | src/copycast/domain/cookies.py:106-108 | the loop computes the merged jar |
| CookieSplit.FindOwners | src/copycast/domain/cookies.py:125-129 | walking the names in reverse leaves each domain with the first file that holds it |
| CookieSplit.UpdateAll | src/copycast/domain/cookies.py:116-124 | each file keeps its own keys with the jar's current lines |
| CookieSplit.AdoptAll | src/copycast/domain/cookies.py:130-133 | each new key goes to the owner of its site, in the jar's order |
| CookieSplit.SplitCookieJar | src/copycast/domain/cookies.py:111-134 | the loops compute the split |
| Exceptions.Walk | src/copycast/adapters/engine/errors.py:58-81 | the walk ends on every graph, cyclic ones too, and yields exactly the reachable exceptions, each once, nearest first, in the order they are first mentioned |
| Exceptions.WrappedAre | src/copycast/adapters/engine/errors.py:58-81 | what an exception wraps: cause, context, `cause` attribute, arguments and the middle of a triple `exc_info`, and nothing else |
| Exceptions.WrappedInOrder | src/copycast/adapters/engine/errors.py:58-81 | in which order they are looked at |
| WalkOrder.GoesAsMentioned | src/copycast/adapters/engine/errors.py:58-81 | the walk comes to exceptions in the order in which those before them first mention them |
| Exceptions.FrontierAdvances | src/copycast/adapters/engine/errors.py:58-81 | when the queue holds nothing nearer, everything at this distance has been seen |
| Exceptions.FrontierVisits | src/copycast/adapters/engine/errors.py:58-81 | a visited exception is at its distance, and the queue goes on holding the next ones |
| Exceptions.ClosedSetHoldsAll | src/copycast/adapters/engine/errors.py:58-81 | a seen set closed under wrapping holds everything reachable |
| Classify.ClassifyException | src/copycast/adapters/engine/errors.py:127-155 | the nearest Engine error wins wherever it sits, then the nearest cancellation, then storage exhaustion, then the nearest exception whose class says something; else the joined messages decide: permanent exactly when they match the permanent pattern, transient otherwise, silence included |
| Classify.FindFirst | src/copycast/adapters/engine/errors.py:98-155 | the first exception of the chain that answers a question |
| Classify.FirstIsNearest | src/copycast/adapters/engine/errors.py:127-155 | first in the chain means nearest in the graph, and none in the chain means none anywhere |
| Classify.ClassSays | src/copycast/adapters/engine/errors.py:98-124 | what the classes say: cancelled, then storage full, then a status, permanent for 401, 403, 404 and 410 only, then network errors (transient), refusals (permanent), extractor errors and post-processing errors by their text |
| Classify.MessagesAreJoined | src/copycast/adapters/engine/errors.py:150 | the text judged last is the messages of the chain in its order, a blank between two |
| Classify.DecidedAsDocumented | src/copycast/adapters/engine/errors.py:130-145 | the verdict is the documented one whenever an Engine error, a cancellation or storage exhaustion is in the chain |
| Classify.DocumentedOrderIff | src/copycast/adapters/engine/errors.py:127-155 | the verdict, its deciding exception included, is the documented one exactly then, or when no later exception outranks the first classed one |
| Classify.DocumentedOrderFails | src/copycast/adapters/engine/errors.py:130-149 | a graph whose verdict is transient where the documented order says permanent |
| SelectionText.ParseSelection | src/copycast/domain/selection.py:28-64 | the loops compute the numbers in order of first mention, and the error of every refused token |
| SelectionText.ParseSelectionTs | web/src/lib/selection.ts:29-77 | the loops compute the ranges, the invalid tokens and the numbers in ascending order |
| SelectionRoundTrip.FormatSelection | web/src/lib/selection.ts:97-114 | it prints the maximal runs of exactly the positive numbers given |
| SelectionRoundTrip.PrintIsJoined | web/src/lib/selection.ts:97-114 | a run is printed as its number, or its ends around a hyphen, with a comma and a blank between two |
| SelectionRoundTrip.ServerReadsTheNumbers | src/copycast/domain/selection.py:28-64 | whatever is printed, the server reads exactly the positive numbers given, ascending, up to 100000 of them, and reports an error beyond |
| SelectionRoundTrip.BrowserReadsTheNumbers | web/src/lib/selection.ts:29-114 | the browser reads them back with nothing invalid exactly when no more than 100001 of them are consecutive |
| SelectionRoundTrip.PythonReadsThePrint | src/copycast/domain/selection.py:28-64 | the server reads a print back ascending and without error exactly when it holds at most 100000 numbers |
| SelectionRoundTrip.TypeScriptReadsThePrint | web/src/lib/selection.ts:29-68 | the browser reads a print back with nothing invalid exactly when no run spans more than 100000 |
| SelectionRoundTrip.CanonicalIsShortest | web/src/lib/selection.ts:97-114 | no list of ranges of the same numbers is shorter than the printed one |
| SelectionRoundTrip.TakeSpans | src/copycast/domain/selection.py:38-62 | reading ascending ranges appends them all, or reports the one that passes the limit |
| SelectionRoundTrip.ParsersDisagree | src/copycast/domain/selection.py:14-15 | an input the server takes as a range and the browser refuses |
| SelectionScan.PyTokensAreScanned | src/copycast/domain/selection.py:38-40 | the server's tokens are those of one pass that bridges every blank gap beside an operator |
| SelectionScan.TsTokensAreScanned | web/src/lib/selection.ts:29-77 | the browser's are those of the same pass bridging only single blanks |
| SelectionAgreement.TokensAgreeIff | web/src/lib/selection.ts:29-77 | on text whose blanks both sides know, the two read the same tokens exactly when no range operator has two blanks or more, or a line break, between it and what it ranges over |
| SelectionAgreement.VerdictsAgreeIff | web/src/lib/selection.ts:38-81 | on any text whose blanks both sides know: what the browser accepts the server accepts exactly when its limit lets it through, with the same numbers; what the server accepts the browser accepts exactly when no range operator is broken off; with no tokens, the server accepts a blank text only |
| SelectionAgreement.VerdictsDifferIff | src/copycast/domain/selection.py:28-64 | so the verdicts differ exactly when the server accepts a broken-off range or the browser accepts what is over the server's limit |
| SelectionAgreement.BreaksAreRefused | web/src/lib/selection.ts:38-68 | where an operator is broken off the browser refuses a token |
| SelectionAgreement.VerdictsOnSameTokens | src/copycast/domain/selection.py:28-64 | on the same tokens, the server accepts exactly what the browser accepts and its limit lets through |
| SelectionAgreement.LimitsDisagree | src/copycast/domain/selection.py:55-57 | a range the browser takes and the server refuses |
| SelectionSpelling.ServerReadsAnySpelling | src/copycast/domain/selection.py:28-64 | the server reads every spelling of positive ranges within its limit, whatever operators, blanks, zeros and separators it uses, as their numbers in order of first mention, without error |
| SelectionSpelling.BrowserReadsAnySpelling | web/src/lib/selection.ts:29-77 | the browser reads every spelling with single blanks beside operators as its ranges and their numbers, none of which spans more than 100000, with nothing invalid |
| SelectionSpelling.TokenSays | src/copycast/domain/selection.py:41-62 | what each side makes of a number or range: backwards, from zero, too long, or good |
| SelectionSpelling.OtherTokens | src/copycast/domain/selection.py:41-48 | any other token is no number and no range, to either |
| SelectionSpelling.Separators | src/copycast/domain/selection.py:14-40 | commas, semicolons and whitespace separate; digits and operators do not |
| Ordinals.SortSorts | src/copycast/domain/ordinals.py:11-31 | the stable sort sorts and keeps every item |
| Ordinals.OldestFirst | src/copycast/domain/ordinals.py:11-31 | an ordered batch is oldest first, by date when all are dated, else by position |
| Ordinals.PermutationInvariant | src/copycast/domain/ordinals.py:11-49 | listing a batch with distinct keys and positions in another order numbers it the same |
| Ordinals.AssignedShape | src/copycast/domain/ordinals.py:34-49 | each key of a batch gets one number, from the highest so far on, in its order |
| Ordinals.AssignOrdinals | src/copycast/domain/ordinals.py:34-49 | the loop computes that numbering |
| Ordinals.RefreshKeeps | src/copycast/adapters/db/repositories/catalog.py:483-485 | one Refresh keeps ordinals 1..n, renumbers nothing and puts new items after the old ones |
| Ordinals.BatchIsOldestFirst | src/copycast/domain/ordinals.py:34-49 | within a batch, an item numbered before another is not the newer of the two, and of two of one date it is the one listed as older |
| Ordinals.TiesAsListed | src/copycast/domain/ordinals.py:15-31 | items of one date are numbered in the order the listing has them in |
| Ordinals.UniqueKeepsFirst | src/copycast/domain/ordinals.py:45-47 | of each key of a batch the first item is numbered |
| Ordinals.UniqueIsFirst | src/copycast/domain/ordinals.py:45-47 | and no other |
| Ordinals.OrdinalsAreForever | src/copycast/domain/ordinals.py:34-49 | over any Refreshes key to ordinal stays a bijection onto 1..n that never changes an ordinal |
| Totp.HotpIsSixDigits | src/copycast/domain/totp.py:42-47 | every code is six digits that spell the truncated digest, which stays within its 20 bytes |
| Totp.TruncatedIsBigEndian | src/copycast/domain/totp.py:45-46 | truncation reads four bytes at the offset the last byte gives, most significant first, without the top bit (section 5.3 of RFC 4226) |
| Totp.RfcExample | src/copycast/domain/totp.py:42-47 | on the digest of the example in section 5.4 of RFC 4226 the code is 872921 |
| Totp.MatchStep | src/copycast/domain/totp.py:55-74 | the latest step of the window that matches and was not used, or none exactly when there is none |
| Totp.GoodForThreeSteps | src/copycast/domain/totp.py:55-74 | a step accepts exactly its own code, typed from the step before it until the step after it is over, once it is later than the last used |
| Totp.StepIs | src/copycast/domain/totp.py:50-52 | step n is the half minute from 30 n seconds on |
| Totp.SpacesDoNotCount | src/copycast/domain/totp.py:64 | whitespace around or inside a typed code does not count |
| Totp.AcceptedIncrease | src/copycast/domain/totp.py:55-74 | accepted steps strictly increase, so none is accepted twice |
| Totp.SignInsAreFew | src/copycast/domain/totp.py:55-74 | at most last step - first step + 3 sign-ins succeed, however many are tried |
| TtlCache.TtlCache.constructor | src/copycast/adapters/sources/cache.py:20-31 | an empty cache with its bounds |
| TtlCache.TtlCache.Get | src/copycast/adapters/sources/cache.py:33-43 | the value while it lives; an expired entry goes |
| TtlCache.TtlCache.Put | src/copycast/adapters/sources/cache.py:45-52 | expired entries go, the value takes its key's place or the last one, the first go while too many |
| TtlCache.TtlCache.Pop | src/copycast/adapters/sources/cache.py:54-57 | the value while it lives; the entry goes |
| TtlCache.TtlCache.Purge | src/copycast/adapters/sources/cache.py:59-61 | exactly the expired entries go, and are counted |
| TtlCache.TtlCache.PurgeLocked | src/copycast/adapters/sources/cache.py:74-78 | the loop leaves exactly the live entries, in order |
| TtlCache.TtlCache.Clear | src/copycast/adapters/sources/cache.py:63-65 | nothing is left |
| TtlCache.HitsAreLastPuts | src/copycast/adapters/sources/cache.py:33-57 | after any run, a hit is the value last put, not popped or cleared since, before its expiry |
| TtlCache.PutSurvives | src/copycast/adapters/sources/cache.py:45-52 | after any run, a put leaves at most `max_entries`, and the value just put among them whenever it can be |
| TtlCache.MissNeedsManyOthers | src/copycast/adapters/sources/cache.py:45-52 | a live value is still there while fewer than `max_entries` other keys were put since its key was put anew |
| TtlCache.PurgeIsUnseen | src/copycast/adapters/sources/cache.py:59-78 | a purge anywhere in a run changes no later answer of `get` or `pop` |
| TtlCache.OldestFirstIff | src/copycast/adapters/sources/cache.py:17-52 | a put keeps oldest-first order exactly when its key held no live value, or nothing behind it is older than the put |
| TtlCache.OldestGoFirst | src/copycast/adapters/sources/cache.py:17-52 | in a run that never puts over a live value, the oldest do go first |
| TtlCache.RefreshedGoesFirst | src/copycast/adapters/sources/cache.py:17-52 | a run in which they do not |
| Listening.ResumeBounds | web/src/stores/listening.ts:91-97 | the rewind is at most 20 s, grows with the time away, needs a minute of it, and starts over when it should |
| Listening.ListeningStore.WriteListening | web/src/stores/listening.ts:66-84 | the entry is stored, with the 500 saved last; nothing changes when storage refuses |
| Listening.SortByAt | web/src/stores/listening.ts:71-72 | every id once, the last saved first |
| Listening.DroppedWhenOld | web/src/stores/listening.ts:66-84 | an entry is dropped only when 500 others were saved no earlier |
| PlayerReload.ResumesAt | web/src/stores/listening.ts:91-97 | where an entry resumes: 3 s back after a minute, 10 s after an hour, 20 s after a day, from the start when Finished, in its first 10 s or its last 30 s |
| Player.RestingRunWritesNothing | web/src/stores/player.ts:181-326 | any run of loads, saves, pauses, speed changes, stops and plays without a move leaves every listening entry untouched |
| Player.RewindNeverCompounds | web/src/stores/player.ts:210-261 | a reload after any such run resumes where the first entry says, at most 20 s back |
| Player.StillRunKeeps | web/src/stores/player.ts:249-326 | from any state, such a run changes only the position of the track that was up, and only to where it stood |
| Player.HeardPositionComesBack | web/src/stores/player.ts:181-261 | a saved position stays stored through any such run and a reload resumes there, at most 20 s back |
| Player.StillRunSpares | web/src/stores/listening.ts:66-84 | such a run drops no entry, once the track's own is stored |
| Player.LoadIsAtRest | web/src/stores/player.ts:519-523 | a reload writes nothing, stands at the resume point and counts as nothing heard |
| Player.SoundStep | web/src/stores/listening.ts:33-46 | every entry stored is one that reading takes back |
| Player.FinishedStaysIff | web/src/stores/player.ts:244-261 | a save keeps the Finished mark exactly within the first 10 s, or when stopped within 30 s of a known end |
| Player.FinishedStartsOver | web/src/stores/player.ts:263-275 | played to its end and reloaded, an Episode starts over |
| Player.FinishedStartsOverIff | web/src/stores/player.ts:244-275 | with a save in between, it starts over exactly when the save wrote nothing, it stood in its first 10 s, its known end is within 30 s, or the auto-rewind reaches its start |
| Player.FinishedRunStartsOverIff | web/src/stores/player.ts:244-326 | after any run that leaves the position where it is, it starts over exactly when nothing was saved, it stood in its first 10 s, its end was known to be within 30 s at the last save, or the auto-rewind reaches its start |
| Player.FinishedIsLost | web/src/stores/player.ts:263-275 | a run from a new page after which an Episode played to its end resumes there |
| PlayerReload.EntrySays | web/src/stores/player.ts:234-261 | what a save writes: the position, the known length, the time, and Finished when ending within 30 s of a known end or still within 10 s of the start of a Finished one |
| PlayerReload.HeardIsWritten | web/src/stores/player.ts:249-261 | once the position has moved from where the track came up, a save writes it |
| PlayerReload.ReportsSaveEveryFiveSeconds | web/src/stores/player.ts:455-465 | a report saves the position unless the last save is less than 5 s ago, it has none, or nothing was heard |
| PlayerReload.PlayedComesBack | web/src/stores/player.ts:181-298 | a track played starts where it was left, and a reload brings it back there, paused, when storage took it and it is a track of this site |
| PlayerReload.StoppedStaysStopped | web/src/stores/player.ts:314-326 | a stopped player is empty and stays so through a reload, once storage forgot the track |
| PlayerReload.FailedStaysAway | web/src/stores/player.ts:329-332 | a failed track stays up paused, with its entries untouched, and does not come back after a reload |
| PlayerReload.SpeedStays | web/src/stores/player.ts:94-346 | a speed holds over any calls and reloads until the next is set |
| PlayerReload.PlayToggles | web/src/stores/player.ts:278-282 | playing the track that is up turns playing over and changes nothing else |
| PlayerReload.ToggledTwice | web/src/stores/player.ts:308-312 | toggling twice changes nothing, and once changes something exactly with a track up |
| PlayerReload.PausesAndResumes | web/src/stores/player.ts:300-306 | pausing always stops, resuming starts with a track up; nothing else changes |
| PlayerReload.SeeksWithin | web/src/stores/player.ts:334-337 | a seek goes where asked within the start and the known length |
| Player.PlayerStore.constructor | web/src/stores/player.ts:181-217 | a new page's state, from what storage holds |
| Player.PlayerStore.InitialState | web/src/stores/player.ts:181-208 | the stored track comes back paused at its resume point |
| Player.PlayerStore.ReloadPlayer | web/src/stores/player.ts:519-523 | a reload is a step of the machine |
| Player.PlayerStore.SaveListening | web/src/stores/player.ts:249-261 | nothing at rest; else the position, duration, time and Finished mark are written |
| Player.PlayerStore.FinishTrack | web/src/stores/player.ts:264-275 | the Episode is written as Finished and playing stops |
| Player.PlayerStore.Play | web/src/stores/player.ts:278-298 | toggles the current track, or saves it as ending and starts the next at its resume point |
| Player.PlayerStore.Stop | web/src/stores/player.ts:314-326 | saves as ending and forgets the track |
| Player.PlayerStore.Pause | web/src/stores/player.ts:300-302 | only playing stops |
| Player.PlayerStore.Resume | web/src/stores/player.ts:304-306 | only playing starts, and only with a track |
| Player.PlayerStore.TogglePlay | web/src/stores/player.ts:308-312 | the one or the other, nothing without a track |
| Player.PlayerStore.FailPlayback | web/src/stores/player.ts:329-332 | playing stops and a reload does not bring the track back |
| Player.PlayerStore.SetRate | web/src/stores/player.ts:343-346 | only the speed changes, and is remembered |
| Player.PlayerStore.Seek | web/src/stores/player.ts:334-337 | the position is clamped to the known duration |
| Player.PlayerStore.ReportPlayback | web/src/stores/player.ts:455-465 | takes what the element observed and saves at most every five seconds |
| Progress.RecordAgreesIff | web/src/stores/progress.ts:30-35 | a report keeps the indexes agreeing exactly when its job holds no other Episode |
| Progress.ClearAgrees | web/src/stores/progress.ts:38-44 | clearing leaves no trace of the job in either index and touches no other |
| Progress.AlwaysAgree | web/src/stores/progress.ts:30-57 | over any run in which jobs keep their Episode, every `byItem` entry is its job's |
| Progress.SweepLeavesNoTrace | web/src/stores/progress.ts:46-57 | a sweep leaves exactly the fresh entries in both indexes |
| Progress.ItemsAreShown | web/src/stores/progress.ts:30-57 | when no two jobs report one Episode, no running job's Episode is missing |
| Progress.ShownAfterRecordIff | web/src/stores/progress.ts:30-35 | a report, of the job's Episode or a new one, keeps every running job's Episode shown exactly when no other job holds the one reported |
| Progress.ClearHidesIff | web/src/stores/progress.ts:38-44 | where the indexes agree, a clear takes an Episode's entry exactly when it is that job's |
| Progress.ShownAfterClearIff | web/src/stores/progress.ts:38-44 | a clear leaves every running job's Episode shown exactly when those of the other jobs were |
| Progress.ShownThroughoutIff | web/src/stores/progress.ts:30-57 | over any run, every running job's Episode is shown throughout exactly when no report takes an Episode over from another job |
| Progress.ChangedItemStays | web/src/stores/progress.ts:38-44 | a job that changed its Episode leaves the old one behind |
| Progress.SharedItemIsHidden | web/src/stores/progress.ts:38-44 | clearing the later of two jobs on one Episode hides it |
| Progress.ProgressStore.constructor | web/src/stores/progress.ts:20-23 | an empty store |
| Progress.ProgressStore.RecordProgress | web/src/stores/progress.ts:30-35 | both indexes take the entry, and listeners hear of it |
| Progress.ProgressStore.ClearProgress | web/src/stores/progress.ts:38-44 | the job goes, with its Episode when that is the job's |
| Progress.ProgressStore.SweepProgress | web/src/stores/progress.ts:46-57 | every stale job is cleared, and the count is the drop in `byJob`; where the indexes agreed, exactly the stale entries go from both |
| Progress.ProgressStore.ResetProgress | web/src/stores/progress.ts:59-63 | both indexes are empty |
| EngineOptions.SanitizedStays | src/copycast/domain/engine_options.py:286-308 | sanitizing sanitized options keeps them as they are and refuses nothing |
| EngineOptions.KeptArgIs | src/copycast/domain/engine_options.py:240-259 | sanitizing keeps exactly the extractor arguments the allowlist takes, unchanged |
| EngineOptions.SanitizeExtractorArgs | src/copycast/domain/engine_options.py:240-259 | the loop computes what is kept and the paths refused |
| EngineOptions.SanitizeArgs | src/copycast/domain/engine_options.py:251-256 | the inner loop, for one extractor |
| EngineOptions.SanitizeFeed | src/copycast/domain/engine_options.py:287-308 | the loop computes what is kept and the paths refused, sorted |
| EngineOptions.ValidateFeed | src/copycast/domain/engine_options.py:311-316 | options are stored exactly when nothing is refused |
| Allowlist.NothingRefusedIff | src/copycast/domain/engine_options.py:236-316 | nothing is refused exactly when every option is taken and every argument of every extractor |
| Allowlist.RefusedKey | src/copycast/domain/engine_options.py:286-308 | a refused option is named by its key |
| Allowlist.RefusedArg | src/copycast/domain/engine_options.py:240-259 | a refused argument is named by its path |
| Allowlist.RatesTake | src/copycast/domain/engine_options.py:70-167 | the ranges of the rates, of the fragments fetched at once and of the age limit; no flag counts as a number |
| Allowlist.PausesTake | src/copycast/domain/engine_options.py:77-144 | a pause between fetches is a number from 0 to 3600 |
| Allowlist.OtherPausesTake | src/copycast/domain/engine_options.py:77-151 | so is one between requests or subtitles; a socket waits at most 600 s |
| Allowlist.RetriesTake | src/copycast/domain/engine_options.py:128-150 | a number of retries is an integer from 0 to 100 |
| Allowlist.FlagsTake | src/copycast/domain/engine_options.py:84-137 | a flag about formats is a Boolean and nothing else |
| Allowlist.OtherFlagsTake | src/copycast/domain/engine_options.py:84-163 | so are the other flags |
| Allowlist.TextsTake | src/copycast/domain/engine_options.py:88-165 | texts are not empty and of at most 64 characters, a country of 8 |
| Allowlist.ListsTake | src/copycast/domain/engine_options.py:95-168 | lists hold at most 32 such texts, for subtitles each a language; extractor arguments are a table |
| Allowlist.NothingElseIsTaken | src/copycast/domain/engine_options.py:131-170 | no other key is taken |
| Allowlist.ArgsTake | src/copycast/domain/engine_options.py:190-210 | the eight arguments of three extractors that are taken, each with at most 16 texts |
| Allowlist.TagsAreLanguages | src/copycast/domain/engine_options.py:107-119 | subtags of one to eight letters or digits, with `-` or `_` between and perhaps `-` before them, are a language |
| Allowlist.LanguageHasTags | src/copycast/domain/engine_options.py:107-119 | and nothing else is |
| EngineOptions.MergeExtractorArgs | src/copycast/domain/engine_options.py:262-270 | the loop merges per extractor, then per argument |
| EngineOptions.MergeLayer | src/copycast/domain/engine_options.py:335-346 | the loop lays one layer over the ones below |
| EngineOptions.Merge | src/copycast/domain/engine_options.py:319-347 | the three layers, in order, absent and empty ones skipped |
| EngineOptions.LastLayerWinsIff | src/copycast/domain/engine_options.py:335-346 | of a layer and those below, the last naming an argument gives it, exactly unless the layer replaces the extractor with something that is no table |
| EngineOptions.LastOfThreeWinsIff | src/copycast/domain/engine_options.py:319-347 | of all three layers the last naming an argument gives it, exactly unless a later one replaces its extractor with something that is no table |
| EngineOptions.OtherKeysLastWins | src/copycast/domain/engine_options.py:319-347 | any other option is the last layer's |
| EngineOptions.SanitizedNeverBlocks | src/copycast/domain/engine_options.py:286-308 | a sanitized layer never replaces an extractor |
| FetchOptions.WithArgFills | src/copycast/adapters/engine/options.py:81-112 | only the argument asked for is filled, only when unset, and nothing else changes |
| FetchOptions.WithArgFailsIff | src/copycast/adapters/engine/options.py:81-112 | filling fails exactly when the arguments, or the extractor's own, are set to something that is neither empty nor a table |
| FetchOptions.EngineOptionsForFeed | src/copycast/adapters/engine/options.py:152-175 | a Feed's call options, from the operator's, the sanitized stored ones and the languages |
| FetchOptions.ArgsOfTheCall | src/copycast/adapters/engine/options.py:152-175 | every extractor argument is the Mirror's when allowed, else the operator's; the language fills YouTube's only where neither names one |
| FetchOptions.OperatorKeepsItsOwn | src/copycast/adapters/engine/options.py:161-164 | an argument off the allowlist reaches the engine as the operator gave it, whatever a Mirror stores |
| FetchOptions.OptionsOfTheCall | src/copycast/adapters/engine/options.py:152-175 | the same for every other option, the subtitle languages defaulted |
| FetchOptions.FetchParamsAre | src/copycast/adapters/engine/options.py:178-212 | the value of every key of a fetch's params |
| FetchOptions.BaseOptionsStand | src/copycast/adapters/engine/options.py:195-212 | a fetch carries Copycast's own values whatever the layers say, the format of a direct fetch aside |
| FetchOptions.FetchTakesAudio | src/copycast/adapters/engine/options.py:22-212 | every fetch takes the best audio of one Episode with its thumbnail, info and subtitles, the automatic ones left out, and no postprocessor |
| FetchOptions.OwnedAreCopycasts | src/copycast/adapters/engine/options.py:115-212 | of the hooks, commands, paths and formats a fetch holds only what Copycast sets |
| FetchOptions.ListingArgs | src/copycast/adapters/engine/options.py:99-231 | a listing asks for approximate dates unless the options say otherwise, and passes every other extractor argument on as given |
| FetchOptions.ListingAsks | src/copycast/adapters/engine/options.py:215-231 | the same with Copycast's own listing options and owned keys |
| FetchOptions.AllowlistIsNotOwned | src/copycast/domain/engine_options.py:131-170 | no option Copycast owns is on the Mirrors' allowlist |
| FetchOptions.StrippingSparesTheMirror | src/copycast/adapters/engine/options.py:115-119 | so stripping the owned keys takes nothing from a sanitized layer |

## Left out

- Hub: one lifetime only; restarts, `stop()`, the LISTEN connection and its reconnection, payload parsing and the SSE wiring are not modelled, nor is `next()` with its timeout.
- Hub views: a `_View` object is a value in the hub's map, so aliasing between a view and its buffer is not captured.
- Job table: each transaction is one atomic step that succeeds, so lock contention (`SKIP LOCKED`), failed commits and a cancellation in the middle of drain's transaction are not captured; neither is `requeue_stale` taking a worker's own rows.
- Runner: settling a row and removing the job from the running set are one step; heartbeats, timeouts and the monitor's timing are the environment's choice of when a job settles or is marked stuck.
- Runner.Runner.ClaimAvailable: proved with the clock read once and no other task in between; what interleaving may do to it is in `RunnerSafety` and `RunnerGuard`.
- Feed cache: JSON of the header, the digest and gzip are parameters, of which only what the code needs is assumed; expiry in the shared level appears as a miss.
- Cookie files: case folding is ASCII only; the validation and summary of uploaded files are not modelled.
- Classify.ClassifyException: the three message patterns are parameters; the text of a wrapping error's message is not modelled.
- SelectionAgreement.TokensAgreeIff: like `VerdictsAgreeIff`, says nothing of text with a character only one side calls a blank.
- Selections: ASCII digits only, and numbers are unbounded (the browser's lose precision above 2^53); resolving numbers against a Catalog is not modelled.
- TOTP: HMAC-SHA1 is a parameter; secrets and provisioning links are not modelled, nor are steps past 64 bits.
- Timed cache: `max_entries` is not negative, the clock is in whole seconds, and the lock is not modelled since every method holds it throughout.
- Player: positions are real numbers; speed is taken already clamped; volume, chapters, errors, the sleep timer and listeners are left out, as is changing User between reloads.
- Listening: stored text that is no valid entry reads as no entry; JSON is not modelled.
- EngineOptions.SanitizeFeed: two refused keys of one label count once. Values are copies by nature here.
- FetchOptions.EngineOptionsForFeed: the subtitle languages of a language are a parameter, and `extractor_args` given as a list of pairs counts as no table.
- `with_cookiefile` and `validate_global` would only add easy members.
- Destination guards, feed XML, URL composition, the API, the MCP tools, the command line and the React components are not modelled.
