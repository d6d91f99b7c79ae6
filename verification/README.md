# gojob: verified model of the queues and the worker engine

This project models the durable queues of gojob (`queue/fileq`, `queue/redisq`,
`queue/memq`), the consumer on top of them (`queue.Consume`) and the worker pool under it
(`Process`, `runOne`), and proves what each of them keeps over every run.

**One contract, three backends.** `LeasedQueue` is the abstract queue: a published message waits,
is leased, is dead or is acked, and carries its delivery count (`LeasedCap`: what a cap on it
bounds). Every backend is a state machine whose moves are the atomic steps of the code (one rename,
one script or pipeline, one locked region, one signal, one channel hand-off), freely interleaved,
and each is related to that contract:

- `FileNames`, `FileProtocol`, `FileRuns`, `FilePublish`, `FileDrain`, `FileCap`, `FileResults`,
  `FileResume`, `FileStore`: file names as codec, the rename protocol, what holds of all its runs, what
  a publish and a handle achieve, when the drain check and the delivery cap hold, how many results a
  message has, how a crash is resumed, and the operations on real directories of strings. The
  operations take as a parameter the moves other processes make before each of their file
  operations, and return the trace of all moves, so the theorems about runs apply to them. Runs
  include crashes, stale listings and late handles; nothing is assumed of them except that no two
  queues are opened in the same nanosecond.
- `RedisKeys`, `RedisRuns`, `RedisOrder`, `RedisLeases`, `RedisCap`, `RedisReach`, `RedisLate`,
  `RedisLateCap`, `RedisDrain`: the keys and the commands that change them; what holds
  unconditionally (nothing is lost, and the order is kept); what holds when every handle is used
  before its lease is reclaimed (the full contract, and one holder a message); and what exactly a
  late handle breaks.
- `MemQueue`, `MemRuns`, `MemOrder`, `MemLeases`, `MemReceivers`: the queue under its mutex, its accounts
  and its order, its relation to the contract, and who may be left asleep on its one-slot wake-up
  channel.
- `Runner`, `Backoff`, `Pool`, `Consuming`: one input with its retries, the delays between them, the
  pool of workers, and the options and finalizer of `Consume`.
- `Pipeline`, `PipelineSafety`, `PipelineProgress`, `PipelineResults`, `PipelineVerdicts`: `Consume` over
  `queue/memq`, closed up into one system of publishers, receiver, workers, finalizer and reader:
  correlation of handles, no lost wake-up, accounts, a decreasing measure, progress, one result per
  job, and what the results say.
- `Sharding`, `Statistics`, `Decimal`, `Counts`, `Fifo`: `Shard`, `WithStats`, numerals and string order,
  counting, order.

Where the source computes by changing state, the model does: classes for the store, the Redis
keys, the queue, the handles and the counters, and loops for `claim`, `reclaimExpired`,
`reclaimScript`, `runOne`, the options and the finalizer of `Consume`, `Shard` and `WithStats`.

Findings, where the code does less than its text says:

- redisq never loses a message, whatever handles do (`RedisRuns.NeverLoses`), and while no handle is
  used after its lease was reclaimed it hands each message "to exactly one consumer"
  (`queue/redisq/redisq.go:3`), as `RedisLate.InTimeOneHolder` shows. With late handles two consumers can
  come to hold one message; `RedisReach.SharingArises` and `RedisReach.ExposureArises` say by exactly which
  moves. A late Nack can also put an id into the pending list twice, or bring an acked message back.
- A redisq can still drain exactly as long as no id is left in processing without a lease, a handle
  or a copy in pending (`RedisDrain.DrainableUnlessOrphaned`); a late Nack, an ack and a crash can leave
  such an id behind (`RedisLate.LateNackStrands`), against `docs/design/queue.md:109`.
- The end of a sealed memq queue is signalled once and wakes one receiver. With two or more
  `Receive` loops there is a run in which one never returns (`MemReceivers.EndWakesOnlyOne`).
- `ExpBackoff` can return a short delay where the documented one is the cap, because of the 64-bit
  shift; `Backoff.DelayIsExact` gives the exact condition.
- File names sort in publishing order exactly up to 99,999,999 publishes per opened queue
  (`FileNames.PaddingIsExact`).
- The delivery cap can be exceeded on a queue with leases. On fileq, and on redisq while no handle is
  used late, that is exactly by claiming a message that a reclaimer returned at the cap
  (`FileCap.ClaimPastCap`, `RedisCap.ClaimPastTheCap`). Late handles on redisq add two more ways, a Nack at
  the cap and a copy left in pending (`RedisLateCap.CapIsReached`).
- `Consume` emits "one gojob.Result per finalized message" (`queue/consume.go:61`); over fileq a slow consumer
  can add a second one for the same message (`FileResults.SlowConsumerDoubles`), and only so
  (`FileResults.TwoResultsIff`, `FileResults.OutdatedIffReclaimed`).
- A `Snapshot` taken between the two additions of a failed result counts it as a success;
  `Statistics.SnapshotIsConsistent` says exactly when one is right.
- `docs/design/queue.md:117` names dead files `<seq>.<deliveries>.json`; the code adds a lease of 0.
  The model follows the code.

## Model

| member | source | states |
|---|---|---|
| LeasedQueue.NeverBack | queue/queue.go:26-69 | over any history a published message never disappears and never slips back in its life; once acked or dead it never changes again |
| LeasedQueue.StatusIsOneInterval | queue/queue.go:26-69 | no status of a message ever comes back: the points of a history at which it has that status form one interval |
| LeasedQueue.BookTellsHistory | queue/queue.go:36-44 | in every legal history a key is published at most once and acked at most once, and its delivery count is exactly the number of claims made on it |
| LeasedQueue.LeaseEndsOnlyByHandleOrExpiry | queue/queue.go:26-69 | a lease ends only through a finalization of its message or a reclaimer that read a time at or past the deadline |
| LeasedCap.ClaimPastCap | queue/consume.go:103-111 | on any leased queue whose messages are given back only below the cap, a claim takes a message past the cap if and only if a reclaimer returned it at a count of at least the cap before; without reclaimers the cap holds |
| FileNames.RoundTrip | queue/fileq/fileq.go:263-282 | for values that fit the integers of the source, parseName inverts entryName if and only if the sequence has no dot, and otherwise reports failure |
| FileNames.EntryNameInjective | queue/fileq/fileq.go:261-265 | two different entries never share a file name |
| FileNames.SeqNameInjective | queue/fileq/fileq.go:244-246 | two sequences are equal only for the same start time and counter, even where the zero padding overflows |
| FileNames.SeqOrder | queue/fileq/fileq.go:244-246 | within the padding, sequences have one length and sort as strings exactly by start time, then counter |
| FileNames.NameOrderIsPublishOrder | queue/fileq/fileq.go:154-156 | within the padding, sorting whole entry names sorts the publishes, whatever counts and leases the names carry |
| FileNames.PaddingOverflow | queue/fileq/fileq.go:244-246 | the entry of the 100,000,000th publish of one queue sorts before the entry of the one made just before it |
| FileNames.PaddingIsExact | queue/fileq/fileq.go:154-156 | the entry names of the publishes up to a counter sort in the order of publishing if and only if that counter is below 100,000,000 |
| FileProtocol.NextSeqIsNew | queue/fileq/fileq.go:244-246 | the sequence newSeq is about to return was never returned before by any queue of the directory |
| FileProtocol.LeavesProcessing | queue/fileq/fileq.go:192-205 | when a message leaves the processing directory there is no other file of it anywhere, and the files of the other messages are untouched |
| FileProtocol.MoveRefines | queue/fileq/fileq.go:94-231 | every file operation by anybody, however stale its name, is at most one legal event of the leased queue; directories keep mirroring the statuses with the payloads as published |
| FileRuns.RunRefines | queue/fileq/fileq.go:94-231 | every run of producers, consumers, reclaimers, crashes and late handles is a legal history of the leased queue, and the three directories hold exactly the files it calls for |
| FileRuns.EveryMessageHasOneHome | queue/fileq/fileq.go:94-207 | a published message has exactly one file across pending, processing and dead, with its content as published, or none after exactly one successful Ack, and never again after that |
| FileRuns.CountsAreClaims | queue/fileq/fileq.go:161-168 | the count in a file name is the number of successful claims of the message, crashed consumers included |
| FileRuns.NamesAreUsedOnce | queue/fileq/fileq.go:152-223 | in any run a pending or processing name exists during at most one interval; a dead file stays |
| FileRuns.OutdatedHandlesDoNothing | queue/fileq/fileq.go:184-231 | once a processing entry was there and is gone, an Ack, Nack, DeadLetter, divert or reclaim with its name changes nothing at any later time |
| FileRuns.StaleListingsDoNothing | queue/fileq/fileq.go:154-168 | once a pending entry was there and is gone, a claim that still has its name from a listing changes nothing, even if the message came back |
| FileRuns.RenamesNeverOverwrite | queue/fileq/fileq.go:165-166 | in every reachable state no rename of the protocol, nor the one of Publish, has an existing destination |
| FileRuns.LeaseIsRespected | queue/fileq/fileq.go:211-223 | an entry stays in processing as long as its own handle is not used and no reclaimer reads a time past its deadline, whatever else happens |
| FileRuns.ReclaimPass | queue/fileq/fileq.go:209-223 | a whole pass over a reachable tree moves exactly the entries with a deadline before the time read, keeps counts and contents, and changes nothing else |
| FileRuns.DrainCheckIsSound | queue/fileq/fileq.go:233-237 | if nobody claims between the two counts, a true answer means that both directories are empty at the second count, whatever acks, nacks, burials, reclaims and publishes happen in between |
| FileDrain.DrainCheckIsExact | queue/fileq/fileq.go:233-237 | in every run in which processing was empty at the first count, it is empty at the second one if and only if every entry claimed in between was used or expired again before it |
| FileRuns.ClaimDefeatsDrainCheck | queue/fileq/fileq.go:233-237 | a reachable run in which another consumer claims between the counts and the check answers true while that consumer holds a message |
| FileRuns.OppositeOrderIsUnsound | queue/fileq/fileq.go:234-236 | a reachable run in which counting pending first is defeated by a single Nack |
| FileCap.ClaimPastCap | queue/consume.go:103-111 | in every run whose consumers give messages back by the verdict of the finalizer, a claim takes a message past the cap if and only if a reclaimer returned it at a count of at least the cap before |
| FileCap.DeliveredPastCap | queue/consume.go:103-111 | over a whole such run, a message is delivered more often than the cap allows if and only if it was claimed after such a reclaim |
| FileCap.CrashesOutrunTheCap | queue/consume.go:106-107 | under every cap there is such a run that exceeds it, because its consumers crash |
| FileResults.TwoResultsIff | queue/consume.go:103-123 | at most one result of a message comes from a good handle, so a message has two or more if and only if one use was outdated and another took effect, or two were outdated |
| FileResults.OutdatedIffReclaimed | queue/fileq/fileq.go:184-223 | a handle is outdated when it is used if and only if a reclaimer returned its entry before |
| FileResults.SlowConsumerDoubles | queue/consume.go:105-107 | a reachable run without any crash in which one message has two results |
| FileResume.CrashResume | docs/design/queue.md:125-127 | from every reachable tree, whatever crashed consumers left there, reclaimers and new consumers can go on until pending and processing are empty, with every published message acked exactly once or lying in dead with its content |
| FileStore.SortedNames | queue/fileq/fileq.go:248-257 | returns exactly the .json files of the directory, in strictly increasing order of their names |
| FileStore.Store.Claimed | queue/fileq/fileq.go:164-168 | the rename on strings does what the protocol move does on entries, and succeeds exactly if the entry is pending |
| FileStore.Store.Publish | queue/fileq/fileq.go:94-105 | a payload that cannot be encoded leaves no trace; otherwise it is drafted and committed under a fresh sequence, whatever the others do meanwhile, and is then in a pending file of its own with a count of 0, unless somebody else committed the draft |
| FilePublish.DraftThenCommit | queue/fileq/fileq.go:94-105 | in every run, drafting a payload and committing it is exactly one publish of the leased queue, puts the payload into pending and on record, whatever happens between the two |
| FileStore.Store.Seal | queue/fileq/fileq.go:107-115 | sealing sets the seal and touches no file of a message |
| FilePublish.SealedIff | queue/fileq/fileq.go:107-115 | a queue is sealed if and only if somebody sealed it |
| FileStore.Store.ReadEntry | queue/fileq/fileq.go:169-178 | delivers the content of the claimed file, or diverts it exactly if it is gone, unreadable or undecodable |
| FileStore.Store.TryEntry | queue/fileq/fileq.go:157-180 | one turn of the loop under interference makes exactly the moves it should: rename, read, and a diversion if the entry was claimed but cannot be delivered; the entry has left pending afterwards |
| FileStore.Store.Claim | queue/fileq/fileq.go:152-182 | goes through the sorted listing one turn a name; a delivered message was claimed by this call and its file is there; every readable entry sorted before it left pending meanwhile; left alone, the first entry by name is delivered by a single rename, and none only if there is none |
| FileStore.TurnAbandonsNothing | queue/fileq/fileq.go:164-178 | a turn that claims an entry and does not deliver it leaves no processing entry behind |
| FileStore.SmoothTurn | queue/fileq/fileq.go:157-180 | left alone, the turn of a pending entry with a good file is a single rename that delivers it |
| FileStore.Store.ReclaimExpired | queue/fileq/fileq.go:209-223 | under interference, renames only listed entries whose lease is over, and tries every one of them |
| FileStore.Store.Drained | queue/fileq/fileq.go:233-237 | answers true if and only if the queue was sealed, no entry file was in processing at the first count and none in pending at the second; both are empty then if nobody claimed in between |
| FileStore.Handle.Finalize | queue/fileq/fileq.go:184-207 | the first of Ack, Nack and DeadLetter takes the entry out of processing, to nowhere, to pending or to dead, with count and content kept; an error means that the entry was gone; a later call, or one in error, changes nothing |
| FilePublish.WhatAHandleLeaves | queue/fileq/fileq.go:192-205 | in every reachable tree a good handle leaves nothing of its message anywhere after Ack, exactly one pending file after Nack, and exactly one dead file after DeadLetter, with the content |
| FileStore.DeliveryIsFaithful | queue/fileq/fileq.go:152-182 | in a run of the whole system the message a claim delivers is one that was published: its content, its true number of deliveries, and the only file it has |
| FileStore.FirstIsOldest | queue/fileq/fileq.go:153-156 | within the padding, the first entry by name is the oldest publish among the pending ones |
| RedisKeys.LremBag | queue/redisq/redisq.go:253-285 | LREM with count 1 removes one occurrence of the id if there is one, and nothing else |
| RedisKeys.Redis.ClaimScript | queue/redisq/redisq.go:126-135 | takes the tail of pending, bumps its count, records its lease, and replies with id, count and payload; no reply exactly if pending is empty |
| RedisKeys.Redis.Publish | queue/redisq/redisq.go:95-112 | a payload that cannot be encoded changes nothing; otherwise, whatever the other clients do meanwhile, it is stored and pushed under a number drawn for it alone |
| RedisKeys.Redis.Claim | queue/redisq/redisq.go:195-225 | delivers the oldest id with its bumped count and decoded payload; a missing or undecodable payload delivers nothing and sends the id to the dead list, whatever the other clients do before that |
| RedisKeys.Redis.RangeByScore | queue/redisq/redisq.go:148-149 | lists every id whose lease deadline is at or before the time given, each exactly once |
| RedisKeys.Redis.ReclaimScript | queue/redisq/redisq.go:147-157 | returns exactly the expired ids to pending, each once, as a Nack of each would |
| RedisKeys.Redis.Finalize | queue/redisq/redisq.go:243-285 | the four pipelines that end a delivery change lists, leases, payloads and counts as one step |
| RedisKeys.Redis.DrainScript | queue/redisq/redisq.go:137-145 | answers 1 if and only if the queue is sealed and both lists are empty in one snapshot |
| RedisKeys.PushedAndClaimed | queue/redisq/redisq.go:95-135 | an id goes in at the head of pending and comes out at its tail, into processing, with its count raised by one and its lease recorded |
| RedisKeys.FinishedFields | queue/redisq/redisq.go:253-285 | ending a delivery takes one occurrence out of processing and drops the lease; only a Nack puts the id back, DeadLetter and divert bury it; the payload goes with an Ack only, the count with an Ack or a DeadLetter |
| RedisOrder.FirstInFirstOut | queue/redisq/redisq.go:107-157 | in every run, late handles and reclaims included, the ids put into the queue are those delivered, followed by those that wait, in the same order |
| RedisOrder.DeliversInPublishOrder | queue/redisq/redisq.go:107-135 | without returns the n-th delivery is that of the n-th publish |
| RedisOrder.ClaimFindsThePayload | queue/redisq/redisq.go:126-135 | in every reachable state a claim finds the payload of its message as it was published, unless the message was acked |
| RedisOrder.DrainedIff | queue/redisq/redisq.go:114-145 | after every run the drain script would answer 1 if and only if somebody sealed the queue and nothing waits or is in processing |
| RedisKeys.Delivery.Use | queue/redisq/redisq.go:227-239 | only the first call on a handle acts, and it acts on the id, whoever holds the message by then |
| RedisRuns.NeverLoses | queue/redisq/redisq.go:96-285 | in every reachable state, even with handles used after their lease was reclaimed, each published id that was never acked is in pending, processing or dead, with its payload |
| RedisRuns.DrainMeansDone | queue/redisq/redisq.go:137-145 | when the drain script answers 1, every published message was acked or is dead |
| RedisRuns.FinishedKeeps | queue/redisq/redisq.go:253-285 | no pipeline makes any other message disappear, and none but Ack its own |
| RedisLeases.MoveRefines | queue/redisq/redisq.go:96-285 | a script or pipeline run in time is a legal step of the leased queue, for each expired id one |
| RedisLeases.RunRefines | queue/redisq/redisq.go:96-285 | if every handle is used before its lease is reclaimed, the whole run is a legal history of the leased queue and the keys mirror its statuses |
| RedisLeases.DisciplinedStructure | queue/redisq/redisq.go:128-157 | under that discipline the lists are disjoint and duplicate-free, the ids in processing are the lease keys, exactly the ids in the lists have their payload, the stored count of a live id is the number of claims made on it, and an acked message leaves no trace |
| RedisLeases.BeforeDeadlineIsInTime | queue/redisq/redisq.go:196-199 | a handle used before its deadline is always in time |
| RedisLate.InTimeOneHolder | queue/redisq/redisq.go:1-6 | if every handle is used before its lease is reclaimed, no message ever has two holders with a deadline to come |
| RedisReach.RunIsOrderly | queue/redisq/redisq.go:96-285 | in every reachable state every id in a list, a lease or a handle was published, and every lease stands for an id in processing |
| RedisReach.SharingArises | queue/redisq/redisq.go:126-135 | in every reachable state, a move makes two consumers hold a message if and only if it is a claim of it while somebody holds it and it waits |
| RedisReach.ExposureArises | queue/redisq/redisq.go:147-157 | a move makes a message wait while somebody holds it if and only if it is a Nack while another consumer holds it, a claim that leaves a copy in the list, or a reclaim under an unexpired handle |
| RedisReach.ExposedGetsShared | queue/redisq/redisq.go:126-135 | from every state in which a held message waits, some claims do lead to two holders |
| RedisReach.AckedComesBack | queue/redisq/redisq.go:253-285 | a message that was acked and is gone comes back into a list if and only if another handle of it, still unused, nacks, buries or diverts it |
| RedisLate.LatePutKeepsListsApart | queue/redisq/redisq.go:262-285 | a Nack, DeadLetter or divert keeps the lists disjoint and duplicate-free if and only if the message is in processing at that moment, by whomever, or in no list at all |
| RedisLate.LateNackDuplicates | queue/redisq/redisq.go:262-268 | a reachable run in which a late Nack puts one message into pending twice |
| RedisLate.SharedWithListsApart | queue/redisq/redisq.go:126-135 | a reachable run in which a late Nack leads to two holders although no list has the message twice |
| RedisLate.LateNackRevives | queue/redisq/redisq.go:253-268 | a reachable run in which a late Nack brings an acked message back without its payload |
| RedisLate.TwoHolders | queue/redisq/redisq.go:126-135 | a reachable run in which two consumers hold the same message with unexpired leases after its id was duplicated |
| RedisLate.OrphanBlocksDrain | queue/redisq/redisq.go:137-145 | an id in processing without lease, handle or copy in pending stays there and keeps the drain script at 0 in every continuation |
| RedisDrain.DrainableUnlessOrphaned | queue/redisq/redisq.go:137-145 | from every reachable state some continuation lets the drain script answer 1 if and only if no id is such an orphan |
| RedisLate.LateNackStrands | queue/redisq/redisq.go:253-268 | a reachable run after which the queue never drains although its only message was acked |
| RedisCap.ClaimPastTheCap | queue/consume.go:103-111 | with every handle used in time and messages given back by the verdict of the finalizer, a claim on redisq takes a message past the cap if and only if reclaimScript returned it at a count of at least the cap before |
| RedisLateCap.CapIsReached | queue/redisq/redisq.go:126-157 | in every reachable state, whatever the handles do, a message comes to wait at the cap if and only if it is nacked while its stored count is at least the cap, claimed up to the cap with a copy left in pending, or reclaimed at a count of at least the cap |
| RedisLateCap.WaitsAtCapIff | queue/redisq/redisq.go:126-157 | in every run, a message waits at the cap if and only if one of these moves brought it there and it has waited there ever since |
| RedisLateCap.ClaimPastCapIff | queue/redisq/redisq.go:126-135 | a claim takes the count of its message past the cap if and only if the message waited at the cap |
| RedisLateCap.NackAtCapIsLate | queue/consume.go:103-111 | a Nack by the verdict of the finalizer brings a message there only with a handle whose lease is no longer the recorded one |
| RedisLateCap.LateNackPastCap | queue/consume.go:103-111 | a reachable run that follows the verdict and in which a late Nack leads past a cap of 2 although the only reclaim was at a count of 1 |
| MemQueue.Queue.Publish | queue/memq/memq.go:41-53 | refused exactly on a sealed or closed queue, which is then unchanged; otherwise the payload is last in line, outstanding, and signalled |
| MemQueue.Queue.Turn | queue/memq/memq.go:89-107 | what one pass under the mutex finds and takes: the head with its count bumped, the end of the queue, or a reason to wait |
| MemQueue.Queue.Signal | queue/memq/memq.go:33-39 | leaves exactly one token in the channel |
| MemQueue.Queue.Woken | queue/memq/memq.go:96-97 | a waiting receiver goes on exactly if the token is there, and takes it |
| MemQueue.Queue.Seal | queue/memq/memq.go:55-62 | sealing changes nothing else and signals |
| MemQueue.Queue.Close | queue/memq/memq.go:64-71 | closing changes nothing else and signals |
| MemQueue.Handle.Finalize | queue/memq/memq.go:119-139 | the first call acts on queue and accounts and signals, a later one changes nothing |
| MemQueue.Handle.FinalizeAll | queue/memq/memq.go:119-139 | any sequence of Ack, Nack and DeadLetter on one handle has the effect of its first call |
| MemRuns.RunAccounts | queue/memq/memq.go:41-139 | for any number of receivers and handles, outstanding equals pending plus in flight, and every payload was published as often as it is pending, in flight, acked and dead together |
| MemOrder.FirstInFirstOut | queue/memq/memq.go:41-130 | in every run, what was published or given back is what was delivered, followed by what waits, in the same order, so that a message given back is delivered after those that wait |
| MemLeases.RunRefines | queue/memq/memq.go:41-139 | every run, equal payloads included, is a legal history of the leased queue without any reclaim, once its publishes are numbered, which the queue does not see; pending, in-flight, dead and acked messages mirror its statuses |
| MemLeases.PlainRun | queue/memq/memq.go:41-139 | the queue does not look at the numbers: a run with them is the run without, message for message |
| MemLeases.DeliveriesAreClaims | queue/memq/memq.go:101-105 | the count a delivery carries is the number of times its own message was delivered, told apart from others with an equal payload by the number of its publish |
| MemReceivers.PendingIsServed | queue/memq/memq.go:33-39 | however many Receive loops run uncancelled, they are never all asleep while a message is pending and no signal is owed |
| MemReceivers.EndWakesOnlyOne | queue/memq/memq.go:85-99 | in some run without any cancellation a receiver waits for good at a queue that has ended, if and only if there are two or more of them |
| MemReceivers.SleepsOn | queue/memq/memq.go:85-99 | once the queue is over, such a sleeper sleeps on until somebody seals or closes the queue again or cancels it |
| Backoff.DelayIsExact | options.go:54-63 | for every positive base, every cap and every attempt the delay computed equals min(base * 2^(attempt-1), max) if and only if no low bits of base surface below the cap after wrap-around |
| Backoff.SmallProductIsExact | options.go:54-63 | the delay is exact for every attempt as long as base * max fits into 63 bits |
| Backoff.WrapAroundShows | options.go:54-63 | a base and attempt for which the delay is 4 whatever larger cap is given, though the documented delay is the cap |
| Backoff.DelaysNeverShrink | options.go:54-63 | while base * max fits, delays grow with the attempt and stay below the cap |
| Backoff.ShiftKeepsLowBits | options.go:57 | a 64-bit shift keeps exactly the low bits of the base, scaled |
| Runner.RunOne | process.go:66-94 | the loop computes the outcome of the retry contract; its log lists the attempts in order, each but the last followed by a wait for its delay, if positive, that is not cut short; after the last one it waits only to be cancelled |
| Runner.RetryContract | process.go:75-93 | one to `retries` attempts, all but the last failed and none of the waits before it cut short; value and error are those of the last; an error before the last allowed attempt means a wait was interrupted |
| Runner.ContractIsExact | process.go:75-93 | that contract determines the outcome: no two different results satisfy it |
| Runner.WaitsAreBounded | process.go:76-86 | with ExpBackoff and a cap, the waits of one input sum to at most (retries-1) * max |
| Runner.HandleRides | queue/consume.go:83-95 | whatever fails, times out or is cancelled, the result carries the very message received and the output and error of the last attempt |
| Runner.OuterTimeoutLosesHandle | queue/consume.go:83-85 | had Process applied the timeout, the handle would be kept if and only if the last attempt did not time out |
| Pool.RunKeepsInv | process.go:27-56 | in every reachable state of the pool the inputs balance, drops follow cancellation, and a closed output means all workers returned |
| Pool.Conservation | process.go:27-56 | as multisets, the inputs consumed are those emitted, held and dropped; held and dropped together never exceed the workers; nothing is dropped without cancellation |
| Pool.ClosedPool | process.go:34-54 | once the output is closed every input was emitted exactly once, or was dropped by cancellation |
| Consuming.Configure | queue/consume.go:19-57 | workers, attempts, cap, backoff and timeout are each what the last option about it says, a number that is not positive saying nothing, or the default, so that there is at least one worker and one attempt |
| Consuming.Dispatch | queue/consume.go:103-111 | the switch acks a message without an error, buries one that failed at the cap if there is one, and otherwise gives it back behind those that wait |
| Consuming.FinalizeResults | queue/consume.go:97-124 | the loop finalizes the handles of the results in order and sends on those that are not nacked, each as it came and in that order, until cancellation wins over a send; the result then at hand is finalized but not sent, and the handles after it stay unused |
| Consuming.SendsTheLastAttempt | queue/consume.go:97-123 | what is sent on for a message is the output, the error and the number of its last attempt, and nothing if it goes back |
| Consuming.FinalizerAccounts | queue/consume.go:97-123 | over any batch of results, outstanding falls by the results sent on, pending grows by the others, and dead grows by the results sent on with an error |
| PipelineSafety.KeepsCorrelated | queue/consume.go:86-102 | every step keeps: every result that waits for or reaches the finalizer carries the message its worker received |
| PipelineSafety.KeepsNoLostWakeUp | queue/memq/memq.go:33-39 | every step keeps: whenever the one receiver waits although the queue is non-empty, closed or drained, the token is there or somebody who changed the queue has yet to signal |
| PipelineSafety.KeepsTotals | queue/consume.go:97-123 | every step keeps: outstanding is pending plus in flight plus stranded, and the results out, unsent or under way number the acked plus the dead, those with an error the dead |
| PipelineSafety.KeepsBalanced | queue/memq/memq.go:41-139 | every step keeps: per payload: published is pending plus in flight plus stranded plus acked plus dead |
| PipelineSafety.KeepsMatched | queue/consume.go:100-123 | every step keeps: per payload: one result without an error for each ack, one with an error for each burial, none for a nack |
| PipelineSafety.ReachableStates | queue/consume.go:68-126 | all of these hold together in every reachable state, cancelled, closed or not, from at least one worker and one attempt on |
| PipelineProgress.KeepsCapped | queue/consume.go:106-111 | every step keeps: with a cap, waiting messages are below it and messages in flight at most at it |
| PipelineProgress.MoveLowers | queue/consume.go:97-124 | every step of receiver, workers, finalizer or signal lowers the measure of the state, whatever it interleaves with |
| PipelineProgress.RunsAreBounded | queue/consume.go:68-126 | a run without further publishing has at most as many steps as the measure of the state it starts from |
| PipelineProgress.Progress | queue/consume.go:68-126 | in every state that satisfies the invariant and is sealed, closed or cancelled some step of the goroutines is possible until the output is closed |
| PipelineProgress.EndedInOrder | queue/consume.go:97-124 | when a run has ended uncancelled and unclosed, results without an error match the acked messages one to one, those with an error the dead ones, and together all published ones |
| PipelineResults.DeliveriesAreBounded | queue/consume.go:106-111 | with a cap of N, n published messages are delivered at most N * n times, in every run |
| PipelineVerdicts.NoCapNoErrors | queue/consume.go:49-57 | in every run without a cap nothing is ever buried and no result has an error: a failure is always redelivered |
| PipelineVerdicts.ErrorsComeAtTheCap | queue/consume.go:103-111 | in every run with a cap, a result with an error is for a message delivered exactly as often as the cap says |
| PipelineVerdicts.ResultsTellTheLastAttempt | queue/consume.go:83-123 | in every run, every result read is for a message that a worker attempted, and carries the output, the error and the number of the last of those attempts |
| PipelineResults.SealedBatchFinishes | queue/consume.go:68-126 | from any reachable state that is sealed and neither closed nor cancelled the run is bounded, and where nothing can move the output is closed with one result per published message |
| PipelineResults.BatchFinishes | queue/consume.go:68-126 | publish n jobs, seal, consume with W workers and a cap of N: at most 10Nn+3n+W+7 steps and Nn deliveries, and at the end exactly one result per job |
| PipelineResults.JobStats | stats.go:43-78 | the counting loop of WithStats over the results of such a job passes them all on, and a Snapshot of its counters then has Done equal to the jobs, Succeeded to the acked and Failed to the dead ones |
| Statistics.FailedLags | stats.go:53-56 | at any moment the failures among the results counted as done are those in `failed`, plus one if a failure is half counted |
| Statistics.SnapshotIsConsistent | stats.go:52-71 | with the two additions and the two loads as separate steps, a snapshot tells the failures among its done results if and only if, between its loads, the half-counted failure was counted, if there was one, and no other |
| Statistics.InstantSnapshot | stats.go:67-71 | a snapshot whose loads see the same moment is right if and only if no failure is half counted then |
| Statistics.FinalSnapshot | stats.go:67-71 | a snapshot taken after the stream has ended is right |
| Statistics.FailureShownAsSuccess | stats.go:53-56 | a snapshot between the two additions of one failed result shows one success |
| Statistics.Stats.Observe | stats.go:50-63 | passes the results on unchanged up to cancellation and counts exactly those it took, with their failures |
| Sharding.Shard | shard.go:9-29 | sends the items of its shard in order, all of them or up to the send that cancellation won; everything if there is one shard |
| Sharding.ShardAt | shard.go:16-25 | the j-th item of shard k is the item at position j*n + k, and it has as many as there are such positions |
| Sharding.SharesAreEven | shard.go:16-25 | shard lengths differ by at most one, earlier shards having the longer ones |
| Sharding.ShardsMergeBack | shard.go:16-25 | dealing the n shards back out round-robin gives the input, so every position falls to exactly one shard |

## Left out

- `web`, `prom`, `examples`, `pkg/version`, `Lines`, `WriteJSONL`: user interface, metrics, input and output.
- JSON and base64: a codec is a function on stored payloads that may fail; file contents and Redis values are whole values.
- The file system and Redis: rename, remove, a listing, a script and a transaction are atomic and, except for a missing file, do not fail; an error of `os.WriteFile` or of a Redis command is not modelled.
- A crash inside fileq `Publish` before its rename leaves a draft that is never committed; the message then counts as unpublished.
- Wall-clock values: `Duration`, `StartedAt`, tickers and poll intervals. Time is an integer that does not run backwards where a lease depends on it, and a timeout is one possible outcome of an attempt.
- Goroutines of timed-out attempts that go on running.
- The endless `Receive` loops of fileq and redisq: their parts are modelled one by one, their polling is not.
- `From`, `Drain`, `Tee`, `Fill`, `Execute`, `Stats.Stream`, `ReportEvery`, `Total` and `Elapsed` of a snapshot: adapters with nothing hard to state.
- Nil handlers of a `Message`: no backend attaches them.
- Machine integers for counts and counters: unbounded here; the source would wrap after 2^63-1 deliveries or publishes.
- FileProtocol.MoveRefines: two queues opened on one directory in the same nanosecond are excluded; they would draw the same sequences.
- FileStore.Store.Claim: files put into a directory by hand under names with non-canonical numerals, such as `+1`, are excluded.
- RedisKeys.Redis.RangeByScore: the order among expired ids is left open, and zset scores are exact integers rather than doubles.
- RedisRuns.NeverLoses: ids are numbers rather than their decimal strings.
- RedisLateCap.ClaimPastCapIff: the stored count; an acked message that a late handle brings back starts counting anew.
- RedisDrain.DrainableUnlessOrphaned: some run drains; that every run does would need fair consumers.
- MemReceivers.PendingIsServed: a receiver that is cancelled may leave with the token it took; nothing is claimed for that case.
- PipelineProgress.Progress: the reader of the results is always ready, and scheduling is not assumed fair, so that some step is possible but which one is taken is open; on an open queue that is neither sealed, closed nor cancelled the pipeline may rightly wait for ever.
- PipelineProgress.RunsAreBounded: with no delivery cap a message that always fails is redelivered for ever, so nothing is claimed for a cap of 0.
- PipelineSafety.ReachableStates: one receiver, as `Consume` starts it; several are in `MemReceivers`. `Close` is noticed only once pending is empty, which the model keeps.
- PipelineResults.BatchFinishes: over memq only; over fileq a late handle can add a second result (`FileResults.TwoResultsIff`), and redisq ignores the errors of handles in the same way.
- FileResume.CrashResume: some run finishes; that every run does would need fair consumers.
- Backoff.DelayIsExact: attempts below 1 and a base of 0 or less, for which the delay has no documented meaning.
