# Verification of the agent-chat bridge

The bridge moves chat messages to an agent and back through durable tables and files. Its hard
part is a set of protocols that must survive crashes, lost answers and concurrent writers. This
project models those protocols in Dafny, next to the code they come from, and proves what each
promises over every run.

`dafny verify dfyconfig.toml` checks the whole project.

## How the models are built

Every module covers one protocol and starts with a comment naming its source.

* **Objects with fields that are updated in place** (the stdout framer, the event write queue, the
  lease held by a worker, the conversation guard, the progress observer and the card, the health
  watchdog, the artifact spool, the inbound store, the job table) are classes. Each method is
  proved against a specification function of the object's value, and the theorems are about that
  function over all sequences of calls.
* **Protocols whose steps interleave with other processes** (leases, artifact cleanup, catch-up,
  claim recovery, retirement, shutdown) are transition systems. A state has a durable and a
  volatile part. Actions are single awaits: one statement, one file-system call, one answer. An
  answer may be lost, a COMMIT may be uncertain, a timer may be late and a crash may come at any
  step and erases the volatile part only. Theorems hold for every sequence of actions.
* **Pure code** (canonical JSON, keys, query rewriting) is functions and lemmas.

| module | protocol |
|---|---|
| `CanonicalJson`, `CanonicalText` | canonical form of a request and the text it prints as |
| `EventRegistry` | event keys, idempotent registration, status reads, prompt keys |
| `Lease`, `LeaseSystem`, `LeaseSettling` | one worker's lease timers; any number of workers, row lock and database; when a settling update is sent in time |
| `ClaimRecovery` | claims whose COMMIT was not answered, and their reconciliation |
| `ClaimQueries` | the rewritten claim queries and the hook lanes they order |
| `Inbound`, `Catchup`, `CatchupProgress` | first receipts and jobs; the paginated history reader and its cursor row: what it may lose, and when its windows close |
| `ArtifactCleanup`, `Manifests` | cleanup of sent files through quarantine; which versions a run claims |
| `ConversationGuard`, `Retirement` | native work against cleanup; seal, delete, complete, and paging |
| `Framing`, `EventWrites` | lines of a child's output; the two-slot write queue |
| `ProgressFeed`, `CardState` | the progress observer; the execution card |
| `Watchdog`, `Shutdown` | the health check; closing the service |
| `SharedConversations` | the sharing rules of group configuration |

## Where the code does less than its documents say

Each of these is a theorem: what fails, and exactly when.

* A JSON number that overflows to infinity prints as `null`, so `[1e999]` and `[null]` get one
  canonical text. On finite values the text decides equality (`CanonicalTextExact`); in general it
  decides equality with overflowed numbers read as null (`CanonicalTextDecides`).
* An output line that is the JSON value `null` throws inside the frame loop, and the rest of its
  chunk is lost. All ways of cutting a stream agree exactly when it has no null line, or when
  silence follows the first one (`CutsAgreeExactly`). Silence is more than lines nobody acts on: a
  chunk that ends inside a line loses the front of it, and the back arrives as a line of its own
  (`PartOfALineIsDispatched`).
* Catch-up takes any answer of its receipt callback for a receipt, and the callback the service
  passes (`ingest`) answers without one while the same message is being received live. If that live
  receipt then fails, the message is lost: a message the cursor covers is missing from the inbox
  exactly when catch-up passed it over and no receipt of it was applied
  (`LostExactlyWhenPassedOver`, `PassedOverByItsEmission`, `LostMessageIsReached`), and once it is
  older than the overlap no run reads it again (`NeverReadAgain`). Even while the live receipt still
  runs, `throughMs` may cover a message that is not there. A message that private admission refuses
  is passed over the same way; that one is meant to leave nothing.
* A recall that is read again within the overlap after a mention in it was renamed has its old key
  and new content, which is a conflict and fails the page. The window never gets past it
  (`StalledWindowIsReached`): a window closes in the runs its pages need if and only if nothing in it
  is a conflict when it is reached (`WindowClosesExactly`, `CatchesUpExactly`), and only recalls can
  be (`SmoothExactly`).
* The observer forgets row ids after 500. A row is pushed again exactly when 500 other rows were
  pushed since (`PushedAgainExactlyAfter500`). So more than 500 rows within its ten seconds of overlap
  are all pushed again by every pass over the table (`OverlapIsPushedAgain`).
* The card lists 24 entries. A finished tool stays finished exactly as long as no commentary takes
  its id and it is not evicted (`FinishedNeverRunsAgain`). Once it is not listed, a late start makes
  it run exactly if the list has room or the start is no older than the oldest entry
  (`ForgottenToolRunsAgain`); over a whole sequence it is shown running again exactly if such a start
  is among the events (`RunsAgainExactly`), for which 24 newer entries before it are enough
  (`EvictedToolRunsAgain`).
* A settlement that was applied while its answer was lost hands the row over without its worker
  knowing: it goes on under its lease beside the next owner, and may prepare to settle again
  (`HandedOverUnknowingly`). A worker that still cleans up after an answered settlement is in the
  same position. Exclusivity holds for all other live workers, and the ones that were handed over
  are exactly those without the row behind them (`OneOwnerAtATime`). The last update that was
  applied tells, not the answer: a renewal that took its timestamp before the settlement and the
  row lock after it revives the lease (`LateRenewalRevives`).
* The lease is not checked again after the awaited step before a settling update. The update is
  sent in time exactly when nothing stopped the worker, no renewal was definitively refused and the
  deadline, as answered renewals moved it, has not passed (`SentLiveExactlyWhenUndisturbed`,
  `SettleCanBeSentLate`); the retry `deliverJob` sends after closing its lease never is
  (`SentAfterCloseIsNeverLive`). The database's fence keeps what is late from being applied over
  another claim (`AppliedWritesAreFenced`).
* A `prepare` killed while it writes a copy leaves a torn file that its restart refuses, and its
  copies count as used before they are copied again: the restart publishes what the killed attempt
  would have exactly when it left no copy torn and each file that had found room still fits beside
  all that was copied (`RestartPublishesTheSame`, `TornCopyIsLost`, `NearlyFullSpoolRefuses`).
* Paging reaches every row within a bound set by the run ids that occur, though rows come and go
  between passes (`EveryRowIsReached`). Rows that are added before a waiting one without end delay
  it without end (`CrowdingDelays`).
* Cleanup that finds one file both at its live path and in quarantine, being the sent version, is
  the one case where a crash and replay end differently: the replay may take the live entry too
  (`CrashReplayConverges`, `AmbiguousReplayDiffers`, `AmbiguousIsReached`). The version is confirmed
  sent either way.
* A clock that was set back within the overlap lets `throughMs` fall, exactly when the second read
  is earlier than it (`ClockSetBack`). Nothing is lost by that.
* A claim some but not all of whose rows still carry its token stays unresolved, which takes an
  expired lease; its claimer takes nothing new until another claimer takes the rest
  (`ReconcileHandsOutExactly`, `PartialMatchBlocks`).
* A throwing `beginStop` leaves every part of the service open, and nothing else skips one
  (`PartsCloseInOrder`).
* Two conversation prompts with different chats share a key exactly when one chat id extends the
  other with a colon and the rest of the request id (`PromptKeysCollideExactly`), which accepted
  request ids do (`AcceptedPromptsCollide`).
* A hook job whose delivery failed is not terminal for the ordering probe: a pending job can still
  come to run exactly if no delivery before it in its lane has failed (`TurnComesExactly`).

## Assumptions

* SHA-256 is injective and generated ids are new. Identifiers that enter a hashed key contain no
  lone surrogate, which UTF-8 could not tell apart.
* Within one module there is one clock, which does not go back; catch-up and the watchdog make no such
  assumption.
  Timers fire no earlier than they were armed for.
* A database transaction applies wholly or not at all; its timestamp is taken before it gets the
  row lock. One whose COMMIT was not answered holds its row locks until it is decided.
* For catch-up: the listing of a fixed window does not change, a message is shown as the same message
  in every window (in whatever wording; one that was deleted is shown as its recall), and it becomes
  visible no later than the overlap after it was created.
* The process survives a frame handler that throws on a null line, and goes on feeding the client.

## Model

| member | source | states |
|---|---|---|
| `CanonicalJson.CanonicalObjectOrdered` | src/server.mjs:91 | sorting keys and rebuilding the object lists exactly the given fields in JavaScript property order: array indices first by value, other keys by code unit |
| `CanonicalJson.OrderedListingUnique` | src/server.mjs:91 | two listings in property order with the same fields are the same listing |
| `CanonicalJson.CanonicalMember` | src/server.mjs:88-92 | the fields of a canonical object are exactly the canonical forms of its own fields, whatever order they came in |
| `CanonicalJson.KeyOrderIsAFunctionOfTheKeySet` | src/server.mjs:91 | objects with the same key set list their keys in the same order, place by place |
| `CanonicalJson.CanonicalIdempotent` | src/server.mjs:88-92 | canonicalising twice is canonicalising once |
| `CanonicalJson.CanonicalDecidesEquality` | src/server.mjs:88-92 | canonical forms are equal if and only if the values are equal up to object key order, at every depth |
| `CanonicalText.QuoteCancel` | src/server.mjs:95 | quoted strings form a prefix code: equal texts starting with two quoted strings start with the same string and continue alike |
| `CanonicalText.StringifyCancel` | src/server.mjs:95 | the same for any two finite values followed by text that does not continue a numeral |
| `CanonicalText.StringifyInjective` | src/server.mjs:95 | equal printed texts mean equal finite values |
| `CanonicalText.StringifyEncodable` | src/server.mjs:95 | printed text never holds a lone surrogate, so hashing its UTF-8 bytes loses nothing |
| `CanonicalText.CanonicalTextDecides` | src/server.mjs:88-96 | two requests hash the same text if and only if they are equal up to key order with overflowed numbers read as null |
| `CanonicalText.CanonicalTextExact` | src/server.mjs:88-96 | on values without overflowed numbers, if and only if they are equal up to key order |
| `CanonicalText.OverflowCollides` | src/server.mjs:88-96 | the restriction is needed: two different well-formed requests with one text |
| `EventRegistry.RequestTextDecidesEvents` | src/server.mjs:55-96 | two accepted events get the same request text if and only if they are the same event up to key order in their payloads |
| `EventRegistry.KeysAreInjective` | src/core/forward-runtime.mjs:31-32 | idempotency key, message id and event key each tell accepted (producer, event id) pairs apart, though a producer id may hold NULs |
| `EventRegistry.NulInEventIdWouldCollide` | src/server.mjs:6 | the event id pattern is what makes them so: with a NUL in an event id two pairs share a key |
| `EventRegistry.PromptKeysCollideExactly` | src/core/forward-runtime.mjs:114 | when two conversation-prompt keys are equal: same chat and request, or one chat id extends the other by a colon and the front of the other request id |
| `EventRegistry.AcceptedPromptsCollide` | src/core/forward-runtime.mjs:114 | for every chat, an accepted request id and another accepted one of another chat that share a key |
| `EventRegistry.RegistrationIsIdempotent` | src/core/forward-runtime.mjs:124-159 | after any sequence of requests a new pair gets a job of its own, a repeat of the pair's first request returns that job, other content conflicts, and neither of the last two changes the table |
| `EventRegistry.EachPairOwnsOneJob` | src/core/forward-runtime.mjs:161-183 | a status read finds a job if and only if the pair was registered, and two pairs that read the same job are the same pair |
| `EventRegistry.ForwardJobs.UpsertJob` | src/storage/forward-jobs.mjs:143-162 | answer and new table of one upsert: insert unless the key or message id is taken, then compare the request |
| `EventRegistry.ForwardJobs.RegisterEvent` | src/core/forward-runtime.mjs:124-159 | the whole registration against its specification, including the conflict checks after the upsert |
| `Lease.RetryDelayGrowsToTheHeartbeat` | src/core/forward-runtime.mjs:298-299 | the delay before retrying a failed renewal is at least 1, never shrinks with more failures and never exceeds the heartbeat |
| `Lease.Holder.AssertOwned` | src/core/forward-runtime.mjs:235-239 | passes only before the confirmed deadline, without a loss and without stopping; at or past the deadline the lease is lost |
| `Lease.Holder.ArmExpiry` | src/core/forward-runtime.mjs:240-246 | the expiry timer is armed for the deadline, or the lease lost if that has passed |
| `Lease.Holder.ScheduleHeartbeat` | src/core/forward-runtime.mjs:247-252 | the heartbeat is armed no later than the deadline, and not on a closed or lost lease |
| `Lease.Holder.OnRenewed` | src/core/forward-runtime.mjs:253-274 | an answered renewal moves the deadline to its start plus the lease, unless the old deadline or that new one has passed, which loses the lease |
| `Lease.Holder.OnRenewFailed` | src/core/forward-runtime.mjs:283-301 | a definitive failure or the deadline loses the lease; a transient one counts and schedules a retry, leaving the deadline |
| `LeaseSystem.StepKeepsInv` | src/core/forward-runtime.mjs:207-317 | the invariant behind the theorems below holds after every step: a live worker no applied update has handed over has the row behind it, and the row of one that was handed over has expired or is not its own |
| `LeaseSystem.OneOwnerAtATime` | src/core/forward-runtime.mjs:207-317 | in every reachable state, a worker that is live and has not ended has the row naming it with an expiry no earlier than its deadline, if and only if the last update applied for it did not settle the job; of those workers there is at most one |
| `LeaseSystem.OnlyAnsweredRenewalsExtend` | src/core/forward-runtime.mjs:253-274 | a deadline changes only by a renewal applied and answered before the old deadline, to its start time plus the lease, and never moves back |
| `LeaseSystem.NothingElseExtends` | src/core/forward-runtime.mjs:253-302 | no other event, a failure, an uncertain COMMIT or another claim's answer included, changes a deadline; a lost or stopped lease stays so |
| `LeaseSystem.OneRenewalInFlight` | src/core/forward-runtime.mjs:247-302 | an armed heartbeat means no renewal is in flight; a live lease always has exactly one of the two, with its expiry timer armed for the deadline |
| `LeaseSystem.AppliedWritesAreFenced` | src/storage/forward-jobs.mjs:284-397 | whatever transaction is applied, however late, the row names its own claim with an expiry past its timestamp; no other claim owns the job then without having handed it over, and after a settlement none at all |
| `LeaseSystem.ClaimsTakeOnlyFreeRows` | src/storage/forward-jobs.mjs:209-242 | a claim succeeds only when every worker still live has handed the job over |
| `LeaseSettling.SentLiveExactlyWhenUndisturbed` | src/core/forward-runtime.mjs:352-407 | over every sequence of events between the last check and the settling update, the update is sent, and under a live lease if and only if there was no stop, no definitive refusal of a renewal, and the clock is before the deadline as answered renewals moved it |
| `LeaseSettling.ThrownPreparationIsChecked` | src/core/forward-runtime.mjs:378-384 | an awaited step before the update that throws leads to one more check, which lets the worker prepare again if and only if its lease is live, and otherwise ends it without an update |
| `LeaseSettling.SentAfterCloseIsNeverLive` | src/core/forward-runtime.mjs:489-494 | an ended worker sends no settling update but a retry of the delivery, never under a live lease, and never acts under its lease again |
| `LeaseSettling.SettleCanBeSentLate` | src/core/forward-runtime.mjs:359-375 | a reachable state in which a settling update has just been sent with the lease gone |
| `LeaseSettling.HandedOverUnknowingly` | src/core/forward-runtime.mjs:376-407 | a reachable state in which a worker whose settlement was applied unanswered prepares to settle again, live, while a second claim owns the job |
| `LeaseSettling.LateRenewalRevives` | src/storage/forward-jobs.mjs:284-294 | a handed-over lease is revived by a renewal with an earlier timestamp that had waited for the row lock |
| `LeaseSettling.PreparingIsReached` | src/core/forward-runtime.mjs:319-375 | the first claim of the first job reaches that point, under every configuration |
| `ClaimRecovery.OneLiveOwner` | src/storage/store.mjs:157-279 | over any mix of committed, lost and undecided claims, two live leases on one row are the same lease, and the row carries its token and expiry |
| `ClaimRecovery.ReconcileHandsOutExactly` | src/storage/store.mjs:163-209 | reconciliation hands out the whole claim if and only if it was committed and its lease still runs, and every row then carries the token; otherwise nothing; it stays unresolved only on a partial match, which takes an expired lease |
| `ClaimRecovery.UnresolvedClaimsBlock` | src/storage/store.mjs:157-229 | an unresolved claim blocks any new claim by its store, and until it is decided, or while its lease runs, any claim of its rows |
| `ClaimRecovery.PartialMatchBlocks` | src/storage/store.mjs:163-209 | a reachable state in which reading back and reconciling leaves the claim unresolved |
| `ClaimQueries.ProbesEqualNotIn` | src/storage/store.mjs:35-38 | with known statuses, probing the five non-terminal statuses finds a predecessor if and only if NOT IN does |
| `ClaimQueries.UnknownStatusIsMissed` | src/storage/store.mjs:25-44 | a status outside the eight is precisely what the probes miss |
| `ClaimQueries.LanesRunInOrder` | src/storage/store.mjs:157-279 | over every run the two tests agree, a hook job starts only when all earlier jobs of its conversation and hook ended for good, and no two of them run at once |
| `ClaimQueries.HeadIsClaimable` | src/storage/store.mjs:210-231 | a pending job is claimable if and only if every earlier job of its lane has ended for good |
| `ClaimQueries.TurnComesExactly` | src/storage/store.mjs:210-231 | in every reachable state a pending job can still come to run if and only if no delivery before it in its lane has failed |
| `ClaimQueries.FailedDeliveryStopsItsLane` | src/storage/store.mjs:446-469 | behind a failed delivery a pending job waits in every run |
| `ClaimQueries.StuckIsReached` | src/storage/store.mjs:446-469 | a run of two registrations, a claim, a finish to the outbox and a failed delivery that leads there |
| `ClaimQueries.MergedBranchesAreExact` | src/storage/store.mjs:231-247 | for any limit, merging the bounded pending and unknown branches by `created_at, id` selects exactly the first k of the original eligible set |
| `ClaimQueries.FirstIsBounded` | src/storage/store.mjs:231-247 | at most k rows are claimed, and all of them when there are no more than k |
| `Inbound.AcceptKeepsValid` | src/storage/store.mjs:287-363 | receipts point at rows, and jobs of a message belong to its first event, after every receipt |
| `Inbound.ExactlyOneJobPerHook` | src/storage/store.mjs:287-363 | in every sequence of receipts a message that got in owns exactly one job per hook of its first event, whatever came before or after |
| `Inbound.ReceiptFreezesJobs` | src/storage/store.mjs:305-338 | after the first receipt no event, live or history, replayed, edited or under another key, changes the message's jobs |
| `Inbound.EveryReceiptOwnsItsJobs` | src/storage/store.mjs:287-363 | in every sequence of receipts, each message that got in had a first event among them and owns exactly one job per hook of that event |
| `Inbound.LaterReceiptsAddNoJobs` | src/storage/store.mjs:320-338 | a later receipt changes no job; it is a duplicate of the first event or a conflict, and never a conflict for a history event |
| `Inbound.Store.AcceptInbound` | src/storage/store.mjs:287-363 | answer and new tables of one receipt, its hook loop included |
| `Catchup.LostExactlyWhenPassedOver` | src/core/catchup.mjs:67-134 | over every run of reads, emissions, saves, crashes, lost and late writes and other receipts: a message the durable cursor covers is missing from the inbox if and only if an emission of it was answered without a receipt and no receipt of it was applied |
| `Catchup.NothingElseIsLost` | src/core/catchup.mjs:67-134 | whatever a closed cursor covers is recorded, the bot's own or passed over, and so is every page before the one an open window's token leads to |
| `Catchup.PassedOverByItsEmission` | src/core/communication-runtime.mjs:131-145 | a step passes a message over if and only if it emits it while a receipt of that message id is going on, or is answered with a refusal |
| `Catchup.NeverReadAgain` | src/core/catchup.mjs:84-88 | from any state reached without a run under way, no run ever emits a message again that was created before `throughMs` less the overlap, while the clock is not set back |
| `Catchup.CursorMovesLawfully` | src/core/catchup.mjs:79-132 | the row changes only one version at a time and by a lawful move: first window, open, next page, close; an open window keeps its bounds |
| `Catchup.CloseIsSound` | src/core/catchup.mjs:124-128 | when the pages of a window are done, closing at its end covers everything visible by then |
| `Catchup.OpenIsSound` | src/core/catchup.mjs:84-96 | a window opened from a closed cursor starts within what is covered, less the overlap, so coverage holds |
| `Catchup.ReplayIsHarmless` | src/core/catchup.mjs:118-122 | after every run the inbox is what its applied receipts made, and each message in it owns exactly one job per hook of the event that was its first |
| `Catchup.ThroughNeverDecreases` | src/core/catchup.mjs:84-96 | with a clock that is not set back, `throughMs` never decreases, late writes included |
| `Catchup.ClockSetBack` | src/core/catchup.mjs:85-89 | a clock set back past the overlap refuses the run; within it the window closes behind the cursor exactly when the second read is earlier |
| `CatchupProgress.WindowClosesExactly` | src/core/catchup.mjs:97-133 | an open window at page p of n is closed by undisturbed runs, namely by ceil((n - p) / budget) of them, if and only if nothing ahead is answered with a conflict when it is reached; otherwise it stays open after any number of runs |
| `CatchupProgress.CatchesUpExactly` | src/core/catchup.mjs:70-133 | the same for the window opened next, from no row or a closed cursor |
| `CatchupProgress.CatchesUpInTime` | src/core/catchup.mjs:70-133 | and then the inbox is what emitting every listed item in order makes of it |
| `CatchupProgress.SmoothExactly` | src/storage/store.mjs:320-323 | with keys that name their message, nothing in a window is a conflict if and only if every recall in it agrees with what stands under its key and with itself earlier in the window; a message never is, however it changed |
| `CatchupProgress.LostMessageIsReached` | src/core/communication-runtime.mjs:134 | a run from the start after which a message is covered, not in the inbox, not being received, and behind the overlap |
| `CatchupProgress.StalledWindowIsReached` | src/core/catchup.mjs:120-123 | a run from the start after which the next window stays open or unopened for good, because a mention was renamed |
| `ArtifactCleanup.UnsentVersionsSurvive` | src/channels/feishu/outbound-media.mjs:291-357 | over every interleaving of cleanups, confirmations, crashes, restarts and agent activity, a file whose version is that of no artifact confirmed sent by the end stays reachable, live or in quarantine, with its content, unless the agent removes or rewrites it |
| `ArtifactCleanup.RunKeepsFile` | src/channels/feishu/outbound-media.mjs:291-357 | the invariant form of the same, from any state the protocol can be in |
| `ArtifactCleanup.StepsNeverOverwrite` | src/channels/feishu/outbound-media.mjs:313-347 | a cleanup step rewrites no file and no live entry: only its own path moves to quarantine, or is filled from there when empty |
| `ArtifactCleanup.OnlySentVersionsAreUnlinked` | src/channels/feishu/outbound-media.mjs:320-347 | the only step that can take a file's last entry, unless the file was given back first, has just found it to be the sent version |
| `ArtifactCleanup.AcknowledgedIsDurable` | src/channels/feishu/outbound-media.mjs:348-355 | an acknowledged cleanup has synced every directory it changed |
| `ArtifactCleanup.StepHeads` | src/channels/feishu/outbound-media.mjs:304-355 | each undisturbed step keeps the end state the attempt is heading for, and the attempt ends in it |
| `ArtifactCleanup.RerunSettles` | src/channels/feishu/outbound-media.mjs:291-357 | from any reachable disk an attempt left alone acknowledges, its quarantine gone, or reports pending, with the entries stated |
| `ArtifactCleanup.PendingExactlyWhenBlocked` | src/channels/feishu/outbound-media.mjs:336-344 | it is pending if and only if quarantine holds a file that is not the sent version and cannot be linked back |
| `ArtifactCleanup.CrashReplayConverges` | src/channels/feishu/outbound-media.mjs:291-357 | killing an attempt after any number of steps and replaying ends as an uninterrupted attempt does, outside the ambiguous case |
| `ArtifactCleanup.AmbiguousReplayDiffers` | src/channels/feishu/outbound-media.mjs:321-326 | in the ambiguous case it does not |
| `ArtifactCleanup.AmbiguousIsReached` | src/channels/feishu/outbound-media.mjs:313-346 | that case is reached from a file as it was sent: the agent links it before the move, cleanup gives it back and dies, the agent drops its link |
| `Manifests.NoVersionIsClaimedTwice` | src/channels/feishu/outbound-media.mjs:147-217 | over all prepares, crashes, restarts, cleanups and releases no two manifests claim one version, nor one manifest twice |
| `Manifests.NewestNine` | src/channels/feishu/outbound-media.mjs:160-180 | a scan offers exactly the eligible unclaimed entries; the newest nine in time order are taken, nothing left out is newer, and `omitted` counts the rest |
| `Manifests.TakeAllFits` | src/channels/feishu/outbound-media.mjs:181-206 | whatever fails while copying, the draft claims only unclaimed versions, each once, and earlier copies stay |
| `Manifests.ManifestsAreFrozen` | src/channels/feishu/outbound-media.mjs:153-157 | over every run a published manifest is still there unchanged, unless at some point a finished release saw no quarantine and none of its versions at their paths |
| `Manifests.RestartPublishesTheSame` | src/channels/feishu/outbound-media.mjs:181-216 | for a crash between copies or inside one, the restart, which counts what was used and the copies made since, publishes the same manifest if and only if no readable, unclaimed, fitting version without a copy was left torn and every file that had found room fits again beside all that was copied |
| `Manifests.TornCopyIsLost` | src/channels/feishu/outbound-media.mjs:188-206 | one new file and a crash while its copy is written: the restart publishes a failure, an undisturbed attempt the file |
| `Manifests.NearlyFullSpoolRefuses` | src/channels/feishu/outbound-media.mjs:187 | the room is needed: a file that fits once but not twice is refused by the restart |
| `Manifests.InterruptedReleaseReplays` | src/channels/feishu/outbound-media.mjs:274-288 | an interrupted release keeps every claim and can be finished to the same end |
| `Manifests.Spool.Scan` | src/channels/feishu/outbound-media.mjs:160-177 | the directory loop finds the candidates, or gives up exactly at the scan limits |
| `Manifests.Spool.Prepare` | src/channels/feishu/outbound-media.mjs:147-217 | the whole prepare against its specification, a published manifest returned unchanged |
| `Manifests.Spool.ReleaseRun` | src/channels/feishu/outbound-media.mjs:244-290 | retires if and only if there is no quarantine and no claimed version stands at its path |
| `ConversationGuard.CleanupIsExclusive` | src/core/conversation-guard.mjs:4-27 | over every sequence cleanup and native work never overlap, queued native work goes in before the next cleanup, and idle conversations hold no entry |
| `ConversationGuard.Guard.EnterNative` | src/core/conversation-guard.mjs:12-15 | reserves at once, and waits if and only if cleanup is inside |
| `ConversationGuard.Guard.LeaveNative` | src/core/conversation-guard.mjs:16 | gives back one reservation and prunes an idle entry |
| `ConversationGuard.Guard.EnterCleanup` | src/core/conversation-guard.mjs:18-22 | enters if and only if nobody is inside or waiting |
| `ConversationGuard.Guard.LeaveCleanup` | src/core/conversation-guard.mjs:24 | lets the waiting go, and prunes an idle entry |
| `Retirement.FilesGoOnlyWhenSealedAndIdle` | src/core/resource-retirement.mjs:13-39 | files of a run go only after its seal, with cleanup alone in the conversation and no recorded activity; completion only after the files are gone; nothing is taken back |
| `Retirement.RetirementReplays` | src/core/resource-retirement.mjs:15-38 | from every state crashes, lost answers and turns can leave, an undisturbed attempt on an idle conversation completes the row and changes no other |
| `Retirement.PagesInOrder` | src/storage/resources.mjs:46-60 | a page shows, in order, the next 25 listed ids beyond the cursor: nothing listed before them is left out |
| `Retirement.EveryRowIsReached` | src/core/resource-retirement.mjs:9-43 | though every pass lists other rows, a row that stays listed is on a page within twice as many passes as the ids that occur fill pages |
| `Retirement.CrowdingDelays` | src/storage/resources.mjs:46-60 | no bound holds without bounding those ids: 25 new rows a pass before it keep a row off every page |
| `Framing.WalkIsSplitting` | src/agents/codex/app-server-client.mjs:141-171 | without a null line, handling a text is splitting it at newlines, blank and invalid lines dropped, order kept |
| `Framing.FragmentationIsInvisible` | src/agents/codex/app-server-client.mjs:141-171 | however a stream is cut, frames and leftover are those of the whole concatenation |
| `Framing.AnyTwoCutsAgree` | src/agents/codex/app-server-client.mjs:141-171 | two ways of cutting one stream dispatch the same frames and leave the same rest |
| `Framing.CutsAgreeExactly` | src/agents/codex/app-server-client.mjs:141-171 | for every stream, all ways of cutting it agree if and only if it has no null line, or what follows the first leaves nothing and dispatches nothing from any point up to its next newline |
| `Framing.PartOfALineIsDispatched` | src/agents/codex/app-server-client.mjs:150-157 | lines after a null line that dispatch and leave nothing are not enough: the back of one may be dispatched |
| `Framing.NullLineLosesItsChunk` | src/agents/codex/app-server-client.mjs:155-158 | what one chunk and a cut after its null line each dispatch and leave |
| `Framing.NextChildStartsClean` | src/agents/codex/app-server-client.mjs:79-107 | what is dispatched from a new child's start on is what its own output alone gives |
| `Framing.LateDataIsIgnored` | src/agents/codex/app-server-client.mjs:141-143 | late data and exits of other children change nothing |
| `Framing.Client.IndexOfNewline` | src/agents/codex/app-server-client.mjs:149 | finds the next newline, reading up to it and no further |
| `Framing.Client.CompleteLine` | src/agents/codex/app-server-client.mjs:150-157 | joins the pieces once, dispatches the line unless blank or invalid, and throws exactly on null |
| `Framing.Client.SplitChunk` | src/agents/codex/app-server-client.mjs:147-170 | the loop completes the chunk's lines in order, reading each character at most once and joining each at most once |
| `Framing.Client.HandleStdout` | src/agents/codex/app-server-client.mjs:141-171 | one chunk does what splitting the partial frame and the chunk does; another child's chunk does nothing; total work is linear |
| `Framing.Client.Start` | src/agents/codex/app-server-client.mjs:79-107 | a new child begins without a partial frame |
| `Framing.Client.HandleExit` | src/agents/codex/app-server-client.mjs:260-265 | the current child's exit discards the partial frame; another's does nothing |
| `EventWrites.QueueKeepsItsPromises` | src/storage/codex-sessions.mjs:69-92 | over every sequence: at most two in flight; durable writes all start in arrival order, none dropped; best-effort ones keep their order with at most 200 waiting; arrived equals finished, in flight, waiting and dropped together |
| `EventWrites.SlotGoesToTheOldestDurable` | src/storage/codex-sessions.mjs:86-92 | a freed slot goes to the oldest durable write, else to the oldest best-effort one, and is free only when nobody waits |
| `EventWrites.OnlyTheOldestIsDropped` | src/storage/codex-sessions.mjs:69-81 | a write is dropped only by one best-effort arrival too many, and it is the oldest waiting |
| `EventWrites.Queue.AcquireEventWrite` | src/storage/codex-sessions.mjs:69-81 | one arrival against the specification, counters included |
| `EventWrites.Queue.ReleaseEventWrite` | src/storage/codex-sessions.mjs:86-92 | one release against the specification, the slot passed straight on |
| `ProgressFeed.PushedAgainExactlyAfter500` | src/channels/feishu/execution-card.mjs:252-254 | a row is pushed again if and only if at least 500 others were pushed since it was |
| `ProgressFeed.FewRowsBetweenNeverRepeat` | src/channels/feishu/execution-card.mjs:252-265 | with fewer than 500 different rows in between, in any order and with any repeats, it is pushed once |
| `ProgressFeed.ManyRowsBetweenRepeat` | src/channels/feishu/execution-card.mjs:252-254 | 500 different rows in between do repeat it |
| `ProgressFeed.RowsAreDeliveries` | src/channels/feishu/execution-card.mjs:247-262 | corrupt rows, rows whose push throws and rows already seen stop nothing: a page delivers its ids |
| `ProgressFeed.OverlapIsPushedAgain` | src/channels/feishu/execution-card.mjs:238-265 | polling a table whose rows all lie within the overlap, page by page and over and over: up to 500 rows are pushed once ever, more are pushed again, all of them, by every pass |
| `ProgressFeed.BackoffCountsFailures` | src/channels/feishu/execution-card.mjs:215-241 | after k failures in a row the next unforced read is allowed exactly from the last failure plus the delay for k, and one success clears it |
| `ProgressFeed.DelayDoubles` | src/channels/feishu/execution-card.mjs:227 | the delay is one interval, then doubles, and stays at eight |
| `ProgressFeed.Observer.FailLoad` | src/channels/feishu/execution-card.mjs:215-231 | a failed read against the specification |
| `ProgressFeed.Observer.Recover` | src/channels/feishu/execution-card.mjs:232-239 | a successful read against the specification |
| `ProgressFeed.Observer.ApplyRow` | src/channels/feishu/execution-card.mjs:249-261 | one row against the specification, the cursor moved whatever it holds |
| `ProgressFeed.Observer.ApplyRows` | src/channels/feishu/execution-card.mjs:247-265 | the loop over a page, and the bounded step back after a short one |
| `CardState.FinishedStays` | src/channels/feishu/execution-card.mjs:86-95 | one event leaves a finished tool finished if and only if it is neither a commentary of its id nor evicts it; it never makes it run |
| `CardState.FinishedNeverRunsAgain` | src/channels/feishu/execution-card.mjs:83-95 | over every sequence of events a finished tool is shown as finished throughout if and only if no event makes the list forget it, and then never as running |
| `CardState.RunsAgainExactly` | src/channels/feishu/execution-card.mjs:83-95 | over every sequence of events a finished tool is shown running again if and only if one of them is a start that is taken: the list does not show it as finished, and shows it otherwise, has room, or has no older entry in front; and it was forgotten before |
| `CardState.ForgottenToolRunsAgain` | src/channels/feishu/execution-card.mjs:90-94 | a start of a tool that is not listed makes it run if and only if the list has room or the start is no older than its oldest entry |
| `CardState.EvictedToolRunsAgain` | src/channels/feishu/execution-card.mjs:90-94 | a tool finishes, 24 newer entries follow, and its next start shows it running; one older than those entries does not |
| `CardState.NewEntryEvictsTheOldest` | src/channels/feishu/execution-card.mjs:92-94 | a new entry on a full list costs one: itself if it is older than the oldest, otherwise the oldest |
| `CardState.OneRequestInFlight` | src/channels/feishu/execution-card.mjs:83-177 | over every sequence of events, timers, answers and closings: at most one request in flight, at most one create, at most 24 entries, in time order with distinct ids |
| `CardState.FinishedCardIsFinal` | src/channels/feishu/execution-card.mjs:139-167 | over every run, from the first request of a finishing call on, the card keeps the status it was finished with and its entries, none a running tool, and creates no message |
| `CardState.StoppedCardIsSilent` | src/channels/feishu/execution-card.mjs:104-139 | over every run, a stopped card takes up nothing and sends nothing until a closing call begins |
| `CardState.ExecutionCard.PushEvent` | src/channels/feishu/execution-card.mjs:83-96 | one event against the specification |
| `CardState.ExecutionCard.Enqueue` | src/channels/feishu/execution-card.mjs:104-107 | sends if and only if nothing is in flight and the card is neither closed nor in fallback |
| `CardState.ExecutionCard.UpdateSettled` | src/channels/feishu/execution-card.mjs:108-131 | an answered or failed request against the specification, with the fallback rule |
| `Watchdog.StartOfTheRun` | src/service.mjs:361-393 | the recorded start is the first check of the unbroken fatal run that ends the history |
| `Watchdog.RecordFollowsHistory` | src/service.mjs:409-429 | recording one check takes the map of one history to that of the next |
| `Watchdog.DueIsLongest` | src/service.mjs:409-429 | a restart is due if and only if some run has lasted long enough; the component named has such a run, and the longest unless the clock was set back |
| `Watchdog.RestartsExactlyWhenARunLasts` | src/service.mjs:409-429 | whatever the clock does, a restart is requested at the first check where some fatal run spans the limit, never before, at most once; until then the map is the history's |
| `Watchdog.TransientTroubleNeverRestarts` | src/service.mjs:363-393 | with a healthy writer and running workers, transient store codes never lead to a restart |
| `Watchdog.HealthWatchdog.RecordComponents` | src/service.mjs:409-429 | the loop over both components against the specification |
| `Watchdog.HealthWatchdog.CheckHealth` | src/service.mjs:409-429 | one completed check requests a restart exactly when its history says so for the first time |
| `Shutdown.PartsCloseInOrder` | src/service.mjs:157-186 | whatever fails, parts are invoked in one order, each once, the four ingress stops before any wait, storage after forward and executor; a throwing `beginStop` skips them all and nothing else skips one; once `close` has begun no card operation is admitted |
| `Shutdown.DrainEndsEmpty` | src/service.mjs:122-133 | the drain ends only with no card operation running |
| `Shutdown.RejectsExactlyOnFailure` | src/service.mjs:157-186 | a finished close rejects if and only if some answer it waited for was a failure: a stop, a close, or an operation that ran when the drain took stock and had not settled |
| `Shutdown.RestartIsRequiredOnce` | src/service.mjs:206-232 | the fatal path calls `onRestartRequired` at most once, and exactly once when `close` settles or the deadline passes, however many requests come |
| `SharedConversations.OverridesTextIsExact` | src/config.mjs:157-181 | two override objects print the same text if and only if they are equal |
| `SharedConversations.CheckIsExact` | src/config.mjs:370-378 | the checks on one group accept if and only if it shares properly |
| `SharedConversations.ValidateGroups` | src/config.mjs:346-378 | the loop accepts if and only if all ids are distinct and every group shares properly; otherwise it reports the first group that breaks a rule |
| `SharedConversations.AnchorsAreFixed` | src/service.mjs:111 | in an accepted configuration the anchor of an anchor is itself, for every chat, so the classes partition the chats |
| `SharedConversations.SharedGroupsAgree` | src/config.mjs:370-378 | two groups on one thread are bridge groups with the same overrides, and only the anchor has instructions |
| `SharedConversations.ChainsAreRefused` | src/config.mjs:370-378 | a chain of two shares is refused, and would have had anchors that are not fixed |

## Left out

- Feishu, sockets, HTTP, MySQL itself and the Codex child process: an environment that answers, fails or leaves an outcome unknown.
- Form: the lease system, cleanup, catch-up, claim recovery, retirement and shutdown are transition systems on values, since every await is a point where other processes act; an object updated in place would have fixed one interleaving.
- Writers that keep a descriptor open on a file being cleaned up.
- Power loss beyond what was synced: only the sync before an acknowledgement is modelled.
- The spool's usage count is an input of a prepare; the manifest size limit, temporary `.part` files and the byte budget of comparisons are not modelled.
- LostExactlyWhenPassedOver: assumes a listing that is stable within a window and visibility no later than the overlap, which the chat platform has to provide.
- How private admission decides, and the checks of `ingest` that throw before the store is asked: an emission may be refused or fail at any time.
- RejectsExactlyOnFailure: the four ingress stops are awaited together and answer as one.
- The shape check of a stored cursor, the pause between pages and the loop over conversations in catch-up.
- Lease patches of execution data, fork rows, `next_attempt_at` delays and feedback claims.
- Recovery of agent jobs beyond their classification as unknown.
- HandleStdout: what handlers do with a frame, and JSON parsing, are a parameter; a handler that re-enters the client is not modelled.
- Throttling of the log about dropped event writes.
- The wording and rendering of cards, the notice that progress is unavailable, and saving the card's state.
- The endpoint for private admission, authentication and token comparison.
- The execution report a status read may add to its answer.
- Checks of single configuration values outside the sharing rules.
- Migrations, index definitions, logging and command-line wrappers.
- The compatibility writer facade, which does nothing.
