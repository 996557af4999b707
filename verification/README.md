# NOVA browser hand-off: a verified model

NOVA's browser extension finds downloads and hands them to a desktop daemon. Between the
two stands a durable outbox with leases and retries, a connection state machine, several
rate limiters and batching queues, an evidence algebra that merges what was observed about
a download, and a handful of text and byte formats. The desktop side keeps its log in a
ring and rebuilds the trail of each task from it. This project models those parts in Dafny
and proves what they promise, for every input, every run and every interleaving.

| files | what they model |
|---|---|
| `OutboxModel`, `OutboxProtocol` | the stored jobs, the atomic database operations, and the transition system of workers and callers that interleave at every await and may die anywhere |
| `OutboxSafety`, `OutboxGuarantees` | the invariant of every run, and what follows with any number of workers: nothing stranded, nothing lost, capacity, one job per key, lease exclusion |
| `OutboxRuns`, `OutboxSent`, `OutboxDuplicates` | how runs are composed; exactly when a sent job stays sent and when two live jobs share a key |
| `OutboxLifecycle`, `OutboxRetry`, `OutboxRace` | the life of one job under single flight, when it is sent again, and the run that breaks it when requeues overlap |
| `OutboxStore`, `OutboxProgress` | the store and the retry worker as objects that update the table; whole passes, and how many of them settle everything |
| `Bridge`, `BridgeOutcome` | the connect flight under single flight, interleaved with reconnects, wake-ups and restarts; what an undisturbed flight comes to |
| `EmitGate`, `ScanLimiter`, `HeaderQueue` | the emit limiter with its dedupe cache, the sliding log of page scans, the per-tab header queues with their timers |
| `Evidence`, `Dedupe`, `JoinedKey` | merging the evidence of candidates, scoring, deduplication, and the joined text it uses as its key |
| `CanonicalText`, `Idempotency`, `RequestKey` | the canonical serialiser, the text that is hashed into an idempotency key, and which requests share it |
| `Hls`, `Crx`, `NativeHost` | the two HLS master-playlist parsers, the CRX3 packer and unpacker, native-messaging frames and percent-encoding |
| `LogBuffer`, `TaskTrace`, `TaskSummaries` | the log ring, scoped context, and the reconstruction of a task's trail and of the per-task summaries |
| `Wrappers`, `Sets`, `Sorting`, `Bars`, `Bytes` | shared definitions |

`dafny verify dfyconfig.toml` checks the whole project.

## What turned out not to hold as one would expect

- `requeueDeadLetter` reads the row and writes it in two operations. Two overlapping requeues
  can turn a job that NOVA accepted back into a pending one: `OutboxRace.SentIsNotAlwaysFinal`
  gives the run. `OutboxSent.SentForGoodExactly` is the condition: a sent job is safe for good
  exactly when, at that moment, no requeue has read it as a dead letter and no worker has it
  on its list. With one worker at a time and no overlapping requeues that is always so.
- Two live jobs can share a key. `.first()` may return an old dead letter that hides a live
  job, and a requeue revives a dead letter without looking for others.
  `OutboxDuplicates.StepDuplicatesExactly` is the condition, and both kinds are reached from
  the empty store.
- Dedupe joins the key fields with a bar, and fields may contain one. `JoinedKey.JoinedExactly`
  says which keys are confused, `JoinedKey.JoinedDedupeExactly` when the result is right, and
  `JoinedKey.SecondPassMerges` gives an input that a second pass changes again.
- The idempotency text depends on the order of the candidates exactly when the comparison
  calls two differently written ones equal (`Idempotency.OrderShowsExactly`).
- The two HLS parsers give the same list only under the condition of `Hls.ParsersAgreeExactly`;
  `Hls.SharedUriDiffers` gives a playlist on which they do not.
- The comment of `mergeEvidence` speaks of keeping recency; the code keeps the copy of larger
  absolute weight, the earlier one on a tie. The model follows the code.
- A log guard dropped on another thread than its own leaves its context behind for good
  (`LogBuffer.ContextIsLiveExactly`, `LogBuffer.StrayGuard`).
- A record may be counted in a task's summary and yet be missing from the task's trail
  (`TaskSummaries.CountedIsTracedExactly`, `TaskSummaries.CountedNotTraced`).

## Model

| member | source | states |
|---|---|---|
| OutboxSafety.ClaimRows | browser-extension/src/outbox/outbox-store.ts:102-118 | the claiming transaction leases exactly the listed rows that nobody else holds, hands over exactly those as stored, and changes no other row |
| OutboxSafety.ClaimOrder | browser-extension/src/outbox/outbox-store.ts:105-115 | claimed rows come out in primary-key order, so no job is claimed twice in one pass |
| OutboxSafety.MaintStepOk | browser-extension/src/outbox/outbox-store.ts:145-152 | the two operations of maintenance that are ever reached, expiry and count, remove and change no job that is still owed |
| OutboxSafety.AddOk | browser-extension/src/outbox/outbox-store.ts:25-55 | the inserting transaction stays within capacity, evicts only terminal rows, and inserts only when no live row of the key is found first |
| OutboxSafety.StepKeeps | browser-extension/src/outbox/outbox-store.ts:25-169 | every step of every actor, including a crash, keeps the invariant: capacity, timely retries and leases, one row per key that was never dead-lettered |
| OutboxSafety.RunKeeps | browser-extension/src/outbox/retry-worker.ts:31-62 | every run from the empty store keeps it |
| OutboxGuarantees.Recoverable | browser-extension/src/outbox/outbox-store.ts:70-79 | in every reachable store, wherever workers crashed, a job still owed is due and claimable by any owner two minutes after its last write |
| OutboxGuarantees.ListedExactly | browser-extension/src/outbox/outbox-store.ts:102-103 | a due job is on the claim list exactly when fewer than `limit` due jobs precede it in key order |
| OutboxRetry.ListedReady | browser-extension/src/outbox/outbox-store.ts:70-79 | a stored job is listed exactly when it is owed, its retry time has come or it has been sending for two minutes, and fewer than `limit` such jobs precede it |
| OutboxRetry.ClaimedExactly | browser-extension/src/outbox/outbox-store.ts:70-118 | an undisturbed claim hands over exactly the listed jobs that nobody else holds |
| OutboxGuarantees.ClaimedWhenItsTurn | browser-extension/src/outbox/outbox-store.ts:102-118 | a worker that reads two minutes after the last write has the job on its list unless a full page is ahead; whatever runs before its claim, it gets the job exactly when the row is stored and nobody else holds the lease by then |
| OutboxGuarantees.WithinCapacity | browser-extension/src/outbox/outbox-store.ts:151-158 | every reachable store holds at most 1000 jobs, and the overflow branch of maintenance is never entered |
| OutboxGuarantees.NothingLost | browser-extension/src/outbox/outbox-store.ts:141-164 | in every run no step but `clearAll` removes a pending, failed or sending job |
| OutboxGuarantees.RemovedExactly | browser-extension/src/outbox/outbox-store.ts:25-169 | in every reachable state a step removes a job exactly when it clears the store, clears a terminal job, sweeps a sent job after seven days or a dead letter after thirty, or needs the place of the terminal job written longest ago for a new one in a store of 1000 |
| OutboxGuarantees.EnqueueIsIdempotent | browser-extension/src/outbox/outbox-service.ts:14-32 | however callers interleave, two stored jobs share a key only if a job of that key was dead-lettered |
| OutboxDuplicates.StepDuplicatesExactly | browser-extension/src/outbox/outbox-store.ts:25-35 | from one live row of a key, a step leaves two exactly when it inserts behind a dead letter found first without evicting the live row, or revives a dead letter of the key beside it |
| OutboxDuplicates.SerialWorkersDuplicateNothing | browser-extension/src/outbox/retry-worker.ts:34-61 | under single flight no worker does that, so the insertion and the requeue are the only two ways |
| OutboxDuplicates.OneLiveExactly | browser-extension/src/outbox/outbox-store.ts:25-35 | a run from the empty store has at most one live job of a key all along exactly when none of its steps is such a step |
| OutboxDuplicates.DuplicateByEnqueue | browser-extension/src/outbox/outbox-store.ts:29-33 | a run from the empty store whose last step is such an insertion |
| OutboxDuplicates.DuplicateByRequeue | browser-extension/src/outbox/outbox-store.ts:87-93 | a run from the empty store whose last step is such a requeue, with nothing inserted |
| OutboxGuarantees.AddAnswers | browser-extension/src/outbox/outbox-store.ts:25-55 | the caller gets a stored job of its key, or the store is full of jobs still owed and unchanged |
| OutboxGuarantees.KeyNeverChanges | browser-extension/src/outbox/outbox-store.ts:65-68 | over a whole run a job keeps its key and payload, and an id that left never comes back |
| OutboxGuarantees.LeaseExcludes | browser-extension/src/outbox/outbox-store.ts:102-125 | after a claim at t, no claim by anyone with its clock below t + 2 min returns the job until an update clears the lease |
| OutboxGuarantees.HeldUntilCleared | browser-extension/src/outbox/outbox-store.ts:106-124 | no step of any actor shortens a lease without clearing it |
| OutboxLifecycle.RunLife | browser-extension/src/bridge/bridge-manager.ts:480-485 | under single flight and non-overlapping requeues every run keeps the lifecycle laws, with crashes anywhere |
| OutboxLifecycle.StatusTellsAttempts | browser-extension/src/outbox/retry-worker.ts:31-62 | pending means no attempt, failed means one to four attempts and a retry time |
| OutboxLifecycle.OnlyAllowedMoves | browser-extension/src/outbox/retry-worker.ts:31-62 | every change of status is an edge of the lifecycle graph |
| OutboxLifecycle.SentIsFinal | browser-extension/src/outbox/retry-worker.ts:50-50 | a job that was sent under the two rules is sent for as long as it is stored, however workers and requeues overlap afterwards |
| OutboxLifecycle.LifeIsUnarmed | browser-extension/src/outbox/retry-worker.ts:31-62 | under the two rules nobody is ever on the way to write a sent row |
| OutboxLifecycle.SendsAreBounded | browser-extension/src/outbox/retry-worker.ts:34-60 | since it was stored or requeued a job was sent at most five times and delivered at most once, plus one for each crash while it was sending |
| OutboxLifecycle.NoSendAfterDelivery | browser-extension/src/outbox/retry-worker.ts:42-50 | without a crash on it a job is never sent again after a delivery |
| OutboxRetry.RejectionSchedules | browser-extension/src/outbox/retry-worker.ts:51-60 | a retryable rejection of the nth send sets a retry time from the backoff of n up to half a second more after the answer |
| OutboxRetry.RetriesAreSpaced | browser-extension/src/outbox/retry-worker.ts:31-62 | in every run under the two rules, once the rejection of the nth send is written, the job is not marked for sending again before 2, 4, 8 or 16 seconds have passed since the answer |
| OutboxRace.OverlapRevivesSent | browser-extension/src/outbox/outbox-store.ts:87-93 | from any state in which two requeues have read the same lone dead letter, a delivered job becomes pending again |
| OutboxRace.TwoReaders | browser-extension/src/outbox/outbox-store.ts:87-91 | such a state is reachable |
| OutboxRace.SentIsNotAlwaysFinal | browser-extension/src/outbox/outbox-store.ts:87-93 | a run from the empty store after which a sent job turns pending |
| OutboxSent.StepUnsends | browser-extension/src/outbox/outbox-store.ts:65-93 | one step changes a sent row exactly when it is a worker's write that is not the `sent` mark, or the write of a requeue that read the row earlier |
| OutboxSent.UnarmedStaysSent | browser-extension/src/outbox/outbox-store.ts:65-118 | a sent row that no requeue has read as a dead letter and no worker has on its list stays sent, and stays so, in every run that keeps it stored |
| OutboxSent.ArmedWrites | browser-extension/src/outbox/outbox-store.ts:65-125 | otherwise there is a run that keeps the row stored and leaves it not sent |
| OutboxSent.SentForGoodExactly | browser-extension/src/outbox/outbox-store.ts:65-125 | from any state, with any overlap, every continuation that keeps the row stored keeps it sent exactly when nobody is on the way to write it |
| OutboxStore.Store.Maintenance | browser-extension/src/outbox/outbox-store.ts:141-159 | drops expired terminal rows, then the oldest terminal rows above capacity |
| OutboxStore.Store.AddIfAbsent | browser-extension/src/outbox/outbox-store.ts:25-55 | sweeps, then inserts, returns the live row found first, or refuses |
| OutboxStore.Store.ClaimDue | browser-extension/src/outbox/outbox-store.ts:102-118 | the loop leases and returns what the claiming transaction of the protocol does |
| OutboxStore.Store.RequeueDeadLetter | browser-extension/src/outbox/outbox-store.ts:87-93 | revives a dead letter with cleared counters, error and lease, and nothing else |
| OutboxStore.Store.RequeueAllDeadLetter | browser-extension/src/outbox/outbox-store.ts:95-99 | every dead letter is revived and counted, no other row changes |
| OutboxStore.Store.ReleaseLease | browser-extension/src/outbox/outbox-store.ts:120-125 | afterwards the owner holds no lease on the row; nobody else's lease, no other row and nothing but lease and stamp changes |
| OutboxStore.Store.ClearTerminal | browser-extension/src/outbox/outbox-store.ts:161-164 | exactly the jobs still owed stay, as they were |
| OutboxStore.MaintainedIsAllSteps | browser-extension/src/outbox/outbox-store.ts:141-159 | the undisturbed sweep is the protocol's operations one after the other |
| OutboxStore.MaintainedKeepsLive | browser-extension/src/outbox/outbox-store.ts:145-158 | a sweep removes only terminal rows and changes none, whatever the table |
| OutboxStore.SendEach | browser-extension/src/outbox/retry-worker.ts:34-61 | the send loop writes, for each claimed job in turn, the sending mark and then the verdict |
| OutboxStore.RunOnce | browser-extension/src/outbox/retry-worker.ts:31-62 | a pass is sweep, claim of at most 25, and the send loop over exactly what was claimed, each write at its own time |
| OutboxStore.PassSettlesEach | browser-extension/src/outbox/retry-worker.ts:34-61 | after a pass each claimed job is sent, failed or dead-lettered exactly as the bridge answered, one attempt more and without lease; no other row moved |
| OutboxProgress.PassIsRun | browser-extension/src/outbox/retry-worker.ts:31-62 | from any reachable state, the protocol's worker running alone leaves the table that `RunOnce` leaves |
| OutboxProgress.PassLess | browser-extension/src/outbox/retry-worker.ts:34-61 | a pass leaves no job needing more sends, and each claimed job needing fewer |
| OutboxProgress.EverythingSettles | browser-extension/src/outbox/retry-worker.ts:31-62 | passes two minutes apart settle every job after at most five passes per stored job, whatever the bridge answers |
| OutboxProgress.ReachableSettles | browser-extension/src/outbox/outbox-store.ts:70-118 | the same from every reachable store |
| OutboxModel.RetryDelay | browser-extension/src/outbox/retry-worker.ts:21-24 | the delay is 2, 4, 8, 16 or 32 seconds for one to five attempts and a minute for more, plus the jitter |
| SingleFlight.SameFlightExactly | browser-extension/src/core/single-flight.ts:7-21 | over any sequence of calls and settlings, two callers get the same flight exactly when none settled between them |
| Bridge.BridgeManager.AutoConnectNow | browser-extension/src/bridge/bridge-manager.ts:93-98 | a second caller changes nothing, a new flight turns sending off at once |
| Bridge.BridgeManager.ResumeFlight | browser-extension/src/bridge/bridge-manager.ts:97-177 | one stretch of the connect flight between two awaits, on success and on failure |
| Bridge.BridgeManager.SettleFlight | browser-extension/src/core/single-flight.ts:12-14 | a finished flight leaves the slot, an unfinished one does not |
| Bridge.BridgeManager.BeginReconnect | browser-extension/src/bridge/bridge-manager.ts:493-494 | the status changes and `canSend` does not |
| Bridge.BridgeManager.ContinueReconnect | browser-extension/src/bridge/bridge-manager.ts:495-495 | starts or joins a flight once the state is saved |
| Bridge.AdvanceKeeps | browser-extension/src/bridge/bridge-manager.ts:97-177 | no await of the connect flight, resolved or thrown, breaks the safety of the published state |
| Bridge.RunKeeps | browser-extension/src/bridge/bridge-manager.ts:79-177 | every interleaving keeps the bridge invariant |
| Bridge.SendingIsSafe | browser-extension/src/bridge/bridge-manager.ts:493-521 | at every await `canSend` implies connected or reconnecting, a minimum version not above the daemon's and ours, and published capabilities equal to the registry |
| Bridge.AtMostOneFlight | browser-extension/src/core/single-flight.ts:7-21 | at most one connect flight is in progress and later callers join it |
| Bridge.NoSendingDuringFlight | browser-extension/src/bridge/bridge-manager.ts:97-153 | nothing turns sending on while a flight is under way |
| BridgeOutcome.ConnectEnds | browser-extension/src/bridge/bridge-manager.ts:97-177 | from any manager without a flight, a connect that nobody disturbs ends with the status that belongs to the first reply that fails it, or connected with the found transport, the ping's versions and the capabilities, which are also the registry's |
| BridgeOutcome.SendingExactly | browser-extension/src/bridge/bridge-manager.ts:97-177 | it ends with sending on exactly when HTTP was found, integration is enabled, the versions are compatible, the stored token was accepted or pairing succeeded, the capabilities arrived and every state was saved |
| BridgeOutcome.BeginsAs | browser-extension/src/bridge/bridge-manager.ts:493-499 | a reconnect goes on sending, a wake-up stops at once |
| BridgeOutcome.ReconnectFlies | browser-extension/src/bridge/bridge-manager.ts:493-496 | once its state is saved a reconnect is in a flight, its own or the one in progress |
| BridgeOutcome.WakeUpEnds | browser-extension/src/bridge/bridge-manager.ts:498-521 | a wake-up flies when the desktop answers and is offline otherwise |
| BridgeOutcome.RestartForgets | browser-extension/src/bridge/bridge-manager.ts:79-82 | a restart takes over the stored state without the right to send and without believing it is connected |
| EmitGate.Tap.TryEmit | browser-extension/src/content/page-tap-url-utils.ts:35-56 | the in-place operation with its eviction loop is the gate's step |
| EmitGate.CacheBound | browser-extension/src/content/page-tap-url-utils.ts:49-54 | after any call of any run the dedupe cache holds at most 960 entries |
| EmitGate.RepeatsAreSpaced | browser-extension/src/content/page-tap-url-utils.ts:43-46 | accepted emits of one initiator and URL are at least ten seconds apart, despite eviction |
| EmitGate.MinuteBound | browser-extension/src/content/page-tap-url-utils.ts:37-47 | any half-open minute sees at most 960 accepted emits |
| EmitGate.AcceptedExactly | browser-extension/src/content/page-tap-url-utils.ts:35-56 | over every run a call is accepted exactly when no emit of its key went out less than ten seconds before and fewer than 480 emits went out since its window began |
| EmitGate.GateIsReference | browser-extension/src/content/page-tap-url-utils.ts:35-56 | the gate with its bounded, evicted cache emits what a gate that looks through its whole history emits |
| ScanLimiter.ScanPolicy.AssertScanRateLimit | browser-extension/src/security/page-scan-policy.ts:50-63 | prunes the tab's log and accepts or refuses, also pruning on refusal |
| ScanLimiter.LogIsWindow | browser-extension/src/security/page-scan-policy.ts:52-62 | a tab's log is exactly its accepted scans of the minute before its last request |
| ScanLimiter.MinuteBound | browser-extension/src/security/page-scan-policy.ts:51-62 | any half-open minute has at most 30 accepted scans, and at most 12 if the last of them is a standard one |
| ScanLimiter.GrantedExactly | browser-extension/src/security/page-scan-policy.ts:50-63 | over every run a request is granted exactly when the tab had fewer than 12, or 30 for an aggressive one, accepted scans in the minute before |
| ScanLimiter.LimiterIsReference | browser-extension/src/security/page-scan-policy.ts:50-63 | the limiter with its pruned log grants what one that looks through the whole history grants |
| ScanLimiter.TabsAreIndependent | browser-extension/src/security/page-scan-policy.ts:52-62 | what a tab is granted depends on its own requests alone |
| HeaderQueue.Observer.Enqueue | browser-extension/src/background/network-observer.ts:34-49 | the in-place operation is the queue's step, timers included |
| HeaderQueue.Observer.Flush | browser-extension/src/background/network-observer.ts:22-32 | takes the entry out, hands over up to fifty records, and arms a timer for a rest |
| HeaderQueue.Observer.Arm | browser-extension/src/background/network-observer.ts:46-48 | a fresh timer is set for the tab |
| HeaderQueue.Observer.Elapse | browser-extension/src/background/network-observer.ts:30-30 | a timer that fires flushes the tab it was set for |
| HeaderQueue.FlushKeeps | browser-extension/src/background/network-observer.ts:22-32 | a flush of one to fifty records keeps all of them and leaves none behind |
| HeaderQueue.NothingLostOrReordered | browser-extension/src/background/network-observer.ts:22-49 | per tab, batches followed by the queue are the records received in order; batches hold one to fifty; each queued tab has exactly one live timer; the rest-after-splice branch is never entered |
| HeaderQueue.FiringHandsOver | browser-extension/src/background/network-observer.ts:22-32 | after any run a firing timer hands over exactly what its tab had queued as one more batch, and touches no other tab |
| HeaderQueue.ArrivalHandsOver | browser-extension/src/background/network-observer.ts:34-49 | after any run an arriving record is handed over at once exactly when it is the fiftieth of its tab, with the other forty-nine; otherwise it is queued under a timer |
| Evidence.MergeTrailsLoop | browser-extension/src/pipeline/evidence.ts:41-50 | the loop over the map and the stable sort give the merged trail |
| Evidence.BestIsEarliestLargest | browser-extension/src/pipeline/evidence.ts:43-49 | the kept copy is the earliest of largest absolute weight, and there is none exactly when the key does not occur |
| Evidence.CollectIsWinners | browser-extension/src/pipeline/evidence.ts:42-49 | the map holds exactly the winners, one per source and reason |
| Evidence.TrailsAssociative | browser-extension/src/pipeline/evidence.ts:41-50 | merging three trails either way keeps the winners of the concatenation |
| Evidence.MergeAssociative | browser-extension/src/pipeline/evidence.ts:40-62 | merging three candidates either way gives the same fields, the same confidence and the same items |
| Evidence.ConfidenceIsDerived | browser-extension/src/pipeline/evidence.ts:61-61 | the confidence of a part has no say in a further merge |
| Evidence.ScoreFollowsWeight | browser-extension/src/pipeline/evidence.ts:77-123 | with the same fields a heavier trail never scores lower, and by less than the difference in weight plus one |
| Evidence.EvidenceCountsItsWay | browser-extension/src/pipeline/evidence.ts:28-33 | adding evidence in favour never lowers the score, adding evidence against never raises it |
| Evidence.AddedIsThere | browser-extension/src/pipeline/evidence.ts:28-33 | afterwards there is an item of that source and reason, the one there was or the new one at the end |
| Evidence.MeritsCount | browser-extension/src/pipeline/evidence.ts:83-120 | with the same trail, a candidate that earns every bonus of another and has no new fault never scores lower |
| Evidence.SizeIsWorth | browser-extension/src/pipeline/evidence.ts:87-115 | a size above a mebibyte adds 25, one below 20 KiB costs 50, or 20 with a disposition header |
| Evidence.DispositionIsWorth | browser-extension/src/pipeline/evidence.ts:85-115 | a disposition header adds 30, and 60 for a small file |
| Evidence.TypeIsWorth | browser-extension/src/pipeline/evidence.ts:84-84 | a content type adds 35 |
| Evidence.MimeTypeIsWorth | browser-extension/src/pipeline/evidence.ts:84-84 | so does a MIME type |
| Evidence.DownloadIsWorth | browser-extension/src/pipeline/evidence.ts:86-86 | a download attribute adds 30 |
| Evidence.VariantsAreWorth | browser-extension/src/pipeline/evidence.ts:88-88 | variants add 25 |
| Evidence.ExtensionIsWorth | browser-extension/src/pipeline/evidence.ts:89-89 | an extension adds 20 |
| Evidence.FilenameIsWorth | browser-extension/src/pipeline/evidence.ts:96-118 | a file name adds 10, and 40 for a blob URL |
| Evidence.FaultsCost | browser-extension/src/pipeline/evidence.ts:99-107 | tracking, interface and static-asset URLs cost 80, 60 and 60 |
| Evidence.UrlKindsCost | browser-extension/src/pipeline/evidence.ts:97-120 | data, unnamed blob and thumbnail URLs cost 60, 30 and 40, a quality mark adds 10 |
| Evidence.LaterWins | browser-extension/src/pipeline/evidence.ts:51-61 | a property present in the later record is the merged one, one absent there comes from the earlier record, and the confidence is the score of the result |
| Evidence.MergedTrailIsChronological | browser-extension/src/pipeline/evidence.ts:50-50 | the merged trail is sorted by time of observation |
| Evidence.TextKeyIsFaithful | browser-extension/src/pipeline/evidence.ts:44-44 | the text key stands for source and reason when sources have no colon |
| Evidence.Clamp | browser-extension/src/pipeline/evidence.ts:122-122 | the score is the nearest whole number between 0 and 100 |
| Dedupe.DedupeCandidates | browser-extension/src/pipeline/dedupe.ts:18-27 | the loop over the map, for any way of computing the key |
| Dedupe.MergeKeepsKey | browser-extension/src/pipeline/evidence.ts:51-61 | merging two candidates of a key gives one of that key |
| Dedupe.DedupeIsCorrect | browser-extension/src/pipeline/dedupe.ts:18-27 | one candidate per key, exactly the input's keys, most confident first |
| Dedupe.ResultsAreMerges | browser-extension/src/pipeline/dedupe.ts:18-27 | under any key the results are exactly the merges of the candidates of each key, in the order of the input |
| Dedupe.DedupeIsIdempotent | browser-extension/src/pipeline/dedupe.ts:18-27 | deduplicating twice is deduplicating once |
| Dedupe.TextDedupeExactly | browser-extension/src/pipeline/dedupe.ts:18-27 | deduplicating by a text of the key gives what deduplicating by the key gives exactly when the text tells the input's keys apart |
| Dedupe.TextDedupeIsCorrect | browser-extension/src/pipeline/dedupe.ts:18-27 | then one candidate per key, exactly the input's keys, most confident first, and a second pass changes nothing |
| Dedupe.FixedExactly | browser-extension/src/pipeline/dedupe.ts:18-27 | under any key a list comes back unchanged exactly when its keys are distinct and it is sorted by confidence |
| JoinedKey.JoinedExactly | browser-extension/src/pipeline/dedupe.ts:5-16 | two keys have the same joined text exactly when their fields fall into the same pieces at the bars |
| JoinedKey.UnmistakableExactly | browser-extension/src/pipeline/dedupe.ts:5-16 | the text of a key is shared by no other key exactly when no field holds a bar |
| JoinedKey.JoinedDedupeExactly | browser-extension/src/pipeline/dedupe.ts:5-27 | deduplicating by the joined text treats the input as resources exactly when its keys fall into different pieces, and then a second pass changes nothing |
| JoinedKey.MostlyPlainIsFaithful | browser-extension/src/pipeline/dedupe.ts:5-16 | that holds when of any two different keys one has no bar |
| JoinedKey.SecondPassMerges | browser-extension/src/pipeline/dedupe.ts:5-27 | three records whose deduplication holds one text twice, so that a second pass merges once more |
| CanonicalText.EscapedInjective | browser-extension/src/outbox/idempotency.ts:46-46 | the escapes of a JSON string and its closing quote have one reading |
| CanonicalText.ValuesApart | browser-extension/src/outbox/idempotency.ts:45-50 | the texts of values form a prefix code before a delimiter |
| CanonicalText.TextGivesSame | browser-extension/src/outbox/idempotency.ts:45-50 | equal text means equal up to key order and undefined properties |
| CanonicalText.SameGivesText | browser-extension/src/outbox/idempotency.ts:45-50 | values equal up to key order and undefined properties have equal text |
| CanonicalText.StringifyExact | browser-extension/src/outbox/idempotency.ts:45-50 | two values have the same text exactly when they are equal up to key order and undefined properties |
| CanonicalText.KeysAscend | browser-extension/src/outbox/idempotency.ts:49-49 | properties are written in the order of their keys |
| Idempotency.CandidateTextExact | browser-extension/src/outbox/idempotency.ts:19-50 | two canonical candidates are written alike exactly when all their fields are equal |
| Idempotency.BatchTextExact | browser-extension/src/outbox/idempotency.ts:52-55 | the text identifies a batch as a multiset of canonical candidates |
| Idempotency.IdempotencyTextExact | browser-extension/src/outbox/idempotency.ts:52-55 | two requests have the same text exactly when they have the same canonical candidates in any order |
| Idempotency.OrderDoesNotMatter | browser-extension/src/outbox/idempotency.ts:52-55 | every arrangement of the candidates has the same text when the comparison is a total order |
| Idempotency.OrderShowsExactly | browser-extension/src/outbox/idempotency.ts:52-55 | every arrangement of a batch has the same text exactly when the comparison calls no two differently written canonical candidates of it equal |
| RequestKey.SingleExactly | browser-extension/src/outbox/idempotency.ts:19-55 | two single candidates have the same text exactly when their normalised URLs agree, final and page URL are both missing or empty or agree normalised, the seven other fields are equal, and the first 25 variants with normalised URLs agree up to the order of those the comparison tells apart |
| RequestKey.RequestsMatchExactly | browser-extension/src/outbox/idempotency.ts:52-55 | two requests have the same text exactly when some arrangement pairs their candidates as the same |
| RequestKey.VariantsTieExactly | browser-extension/src/outbox/idempotency.ts:41-41 | a variant without bars ties with another exactly when they agree in the six fields, with missing numbers as 0 and missing texts as empty |
| Hls.ResolveLines | browser-extension/src/platforms/manifest-resolver.ts:60-129 | the single-pass loop gives the resolver's variants |
| Hls.CaptureLines | browser-extension/src/capture/hls-capture.ts:61-87 | the look-ahead loop gives the fallback's variants |
| Hls.ResolverWithinFallback | browser-extension/src/platforms/manifest-resolver.ts:60-129 | the resolver makes its variants of a subsequence of the stream tags the fallback uses, each with the same URI line |
| Hls.ParsersAgreeExactly | browser-extension/src/capture/hls-capture.ts:61-87 | the two lists of variants, labels included, are equal exactly when each stream tag with a URI line after it is the last before that line, carries a bandwidth or a resolution, holds no zero, and is not fast with a resolution |
| Hls.WellFormedAgree | browser-extension/src/capture/hls-capture.ts:66-87 | when no two stream tags share a URI line and each has a positive bandwidth, the parsers use the same tags, and the lists are equal exactly when no tag holds a zero or is fast with a resolution |
| Hls.SharedUriDiffers | browser-extension/src/capture/hls-capture.ts:68-71 | two stream tags before one URI line: one variant against two |
| Crx.EncodeVarint | browser-extension/tools/crx.ts:17-27 | the shifting loop gives the varint |
| Crx.VarintReads | browser-extension/tools/crx.ts:17-27 | what is read back is the value modulo 2^32 |
| Crx.VarintRoundTrip | browser-extension/tools/crx.ts:17-27 | varints decode back exactly below 2^32 |
| Crx.FieldsRoundTrip | browser-extension/tools/crx.ts:29-33 | a sequence of length-delimited fields parses back to itself |
| Crx.CrxRoundTrip | browser-extension/tools/crx.ts:82-118 | unpacking gives back the zip exactly when the header length fits 32 bits |
| Crx.EveryZipSurvives | browser-extension/tools/crx.ts:82-118 | with key and signature under half a gigabyte every zip comes back |
| Crx.HeaderParses | browser-extension/tools/crx.ts:86-108 | the header parses back to the key, the signature over the zip and the id of the key |
| Crx.OpensAgain | browser-extension/tools/crx.ts:82-118 | opening an archive by its format gives back the key, the signature, the signed data and the zip |
| Crx.ArchiveIsTrusted | browser-extension/tools/crx.ts:86-110 | when the key accepts what it signs, the signature found in the archive is one of context, length, signed data and zip as found in it, and the signed data names the key |
| Bytes.Le32RoundTrip | browser-extension/tools/crx.ts:35-39 | a little-endian length reads back modulo 2^32 |
| NativeHost.FramesRoundTrip | src-tauri/src/native_host.rs:326-364 | whatever could be written is read back unchanged exactly when no body is empty |
| NativeHost.WrittenExactly | src-tauri/src/native_host.rs:341-364 | a body is written exactly when it has at most a mebibyte, after its length |
| NativeHost.ReadExactly | src-tauri/src/native_host.rs:326-339 | a message is read exactly when its length is between one byte and sixteen mebibytes and all of it is there |
| NativeHost.PercentRoundTrip | src-tauri/src/native_host.rs:425-433 | the encoded value decodes back to the same bytes |
| NativeHost.EncodedIsQuerySafe | src-tauri/src/native_host.rs:425-433 | only unreserved characters and percent signs occur |
| NativeHost.EncodedLength | src-tauri/src/native_host.rs:425-433 | an unreserved byte stays as it is, every other takes three |
| LogBuffer.Ring.Write | src-tauri/src/logging.rs:322-327 | the ring after a write is the newest 5000 of all writes |
| LogBuffer.RingIsNewest | src-tauri/src/logging.rs:322-327 | after any n writes the ring is the last min(n, 5000) records in order |
| LogBuffer.ThreadContext.PushContext | src-tauri/src/logging.rs:159-171 | the pair goes on top with the counter's next number |
| LogBuffer.ThreadContext.DropGuard | src-tauri/src/logging.rs:142-150 | only the guard's own entry goes, wherever it stands |
| LogBuffer.StackIsKept | src-tauri/src/logging.rs:142-171 | a thread's context is exactly the guards made on it and not yet dropped on it |
| LogBuffer.StackInPushOrder | src-tauri/src/logging.rs:159-171 | they stand in the order they were pushed |
| LogBuffer.ContextIsLiveExactly | src-tauri/src/logging.rs:142-171 | the context is the live guards exactly when the thread's guards are dropped on the thread |
| LogBuffer.StrayGuard | src-tauri/src/logging.rs:142-150 | a guard made on one thread and dropped on another stays in the context of the first |
| TaskTrace.TaskTraceFrom | src-tauri/src/logging.rs:682-736 | the trail is the newest `limit` matching records, with errors, first fingerprint, phases, threads and first and last time |
| TaskTrace.TraceIsNewest | src-tauri/src/logging.rs:685-691 | the trail is in buffer order, and what matches but is left out is older than all of it |
| TaskTrace.PhasesAreRight | src-tauri/src/logging.rs:700-714 | phases are distinct, in order of first appearance, span their first to last record, and their counts add up to the trail |
| TaskTrace.ErrorsAreSplit | src-tauri/src/logging.rs:693-698 | every ERROR record of a trail is listed as an error or is a fingerprint, and there is a fingerprint exactly when a record begins like one |
| TaskTrace.DistinctThreads | src-tauri/src/logging.rs:716-721 | the threads are those of the trail, once each, in order of first appearance |
| TaskSummaries.TaskSummariesFrom | src-tauri/src/logging.rs:598-653 | the loop over the ordered map and the stable sort give the summaries |
| TaskSummaries.TableRows | src-tauri/src/logging.rs:599-649 | each row summarises exactly the records counted for its task |
| TaskSummaries.SummariesAreRight | src-tauri/src/logging.rs:598-653 | one summary for each task with a counted record, latest first and by name on ties, and counts that add up to the attributable records |
| TaskSummaries.OneSummaryPerTask | src-tauri/src/logging.rs:599-652 | no task has two summaries |
| TaskSummaries.SummaryLastSeen | src-tauri/src/logging.rs:630-633 | last seen is the maximum time, and the level is that of the last record that has it |
| TaskSummaries.SummaryCounts | src-tauri/src/logging.rs:624-629 | errors and warnings are counted |
| TaskSummaries.SummaryThreads | src-tauri/src/logging.rs:634-636 | the threads are those of the task's records, once each, in order of first appearance |
| TaskSummaries.SummaryContext | src-tauri/src/logging.rs:637-648 | the context is every pair some record carried, once, without task, phase and segment |
| TaskSummaries.CountedIsTracedExactly | src-tauri/src/logging.rs:101-107 | a record counted for a task is in its trail exactly when it names the task plainly, or besides |
| TaskSummaries.CountedNotTraced | src-tauri/src/logging.rs:600-613 | a message without a colon is counted for a task in whose trail it is not |
| TaskSummaries.SummaryWithinTrace | src-tauri/src/logging.rs:598-653 | a summary counts no more than the full trail holds when its records name the task plainly |

## Left out

- Failures of IndexedDB itself, and the wrapper's transactions: each database operation or transaction is one atomic step that succeeds.
- The transports, the daemon, event streams and browser APIs: a send, a discovery or a request is an answer chosen by the environment. Whether an error is retryable is part of the answer.
- Clocks and timers' real time: time is a number that does not run backwards; a timer may fire at any moment after it is set.
- Schema validation, payload budgets and sender checks: single-branch checks.
- UUID collisions: new ids and owners are fresh. Ids are integers that stand for the rank of the text, so primary-key order is `<`.
- OutboxLifecycle.RunLife: single flight and non-overlapping requeues are hypotheses, since the flight belongs to one bridge manager and a requeue is two operations; `OutboxSent.SentForGoodExactly` and everything in `OutboxGuarantees` and `OutboxDuplicates` need neither.
- OutboxRetry.RetriesAreSpaced: holds under the two rules of `OutboxLifecycle`, and for rejections that were written down; when the worker dies before that, the row is still marked as sending and only the two minutes of `OutboxRetry.ListedReady` apply.
- BridgeOutcome.ConnectEnds: the flight is undisturbed; what other activities may do meanwhile is covered by the safety theorems of `Bridge`.
- OutboxStore.Store.ClaimDue: all rows of one claiming transaction are stamped with one time.
- OutboxProgress.EverythingSettles: passes run to their end and nobody enqueues or requeues in between; the bound counts one settled send per pass, although a pass makes up to 25.
- OutboxStore.Store: its methods are undisturbed calls; interleaving at the awaits inside them is in `OutboxProtocol`, which works on values.
- Bridge.BridgeManager: the stretches of wake-up and start-up are only in the transition functions; error texts, `retryAfterMs`, `lastConnectedAt`, the event subscription and its timer are not modelled.
- `ReconnectPolicy`, health monitoring and diagnostics: no state that the safety of sending depends on.
- Evidence.MergeAssociative: weights are real numbers, so rounding in sums of fractions is not captured; the values of variants, subtitles and other properties are texts, and the time of the merge is left out. URL patterns are the fields of `Traits`.
- Evidence.ScoreFollowsWeight: the score is a function of the candidate; the order in which the code accumulates it is not modelled.
- Dedupe.DedupeIsIdempotent: stated for the key as a tuple; for the joined text see `JoinedKey.JoinedDedupeExactly`.
- CanonicalText.StringifyExact: strings are sequences of Unicode scalar values, so lone surrogates are left out and keys are compared by code point instead of UTF-16 unit. Numbers are given by their text.
- Idempotency.IdempotencyTextExact: `normalizeUrl` is any function, `localeCompare` any total order; hashing the text is left out. Independence of the order of variants is not claimed, since they are cut to 25 before they are sorted.
- Hls.ParsersAgreeExactly: lines and attributes are already tokenised; URL resolution, subtitles, durations, VIDEO media lines and the resolver's single variant for an empty list are left out, and the label is the height with a mark for fast streams.
- The manifest cache: it stores one shape and reads back another.
- Crx.CrxRoundTrip: hashing and signing are functions given by the caller; reading keys is left out.
- NativeHost.FramesRoundTrip: bodies are bytes; turning values into JSON and back is left out, and the two streams are sequences instead of files.
- LogBuffer.Ring: a poisoned lock, the rotating files and level filters are left out; a record keeps its time, level, thread, message and context.
- TaskSummaries.TaskSummariesFrom: the ordered map is the sequence of its rows in key order.
- Floating panel, popup, options page, capture plugins, platform adapters, release tooling, the Qt front end and the download engine: interface, tables or other systems.
