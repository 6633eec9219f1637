# Ingest pipeline and realtime fan-out: a verified model

A Dafny model of a geo-tracking service: devices post pings over HTTP, the pings travel through a
Redis stream with a consumer group to ingest workers, which write them to PostgreSQL, match them
against geozones and publish alerts and positions to WebSocket clients.

`dafny verify dfyconfig.toml` checks everything.

## How it is modelled

- **The ingest protocol** (`Protocol`, `Invariant`, `Delivery`, `Order`, `Recovery`, `Accounting`, `Gate`) is a state
  machine in which every Redis command and every database commit is one step, because the pipelines
  are not transactions. Any number of requests and flush attempts interleave. A crash, a
  cancellation or a lost connection is a client that never takes its next step. Two processes may use
  the same consumer name.
- **The code on top** (`Stream`, `Worker`, with `Interference`, `Chunks`, `Positions`, `Replies` and `Drain`) is imperative: classes
  whose methods take only those steps, in the order of the source, with arbitrary steps of other clients
  between any two of them (`Services.Others`). Contracts name the state in which a command ran. The drain
  is proved while others are `calm`: they add nothing and claim none of this consumer's live entries, as
  workers draining at the same time do; with `twins` they may even read under its name, as a second
  process does. A few results are stated for a client that is `alone`. Wherever an error can strike,
  `Faults.Strike` decides, and `faults` counts; operations fail if and only if one struck.
- **Presence** (`Presence`) proves the Lua script, loop by loop, against the history of all syncs;
  **matching** (`Matcher`) models the query as join, sort and first row per group over any geometry;
  `Alerting` puts both together with publishing.
- **Realtime** (`Registry`, `Events`, `Subscriber`): connection queues with their history, per-user
  grouping, and the pub/sub subscription with commands in flight, failing commands and drops.
- **Lifecycle** (`Lifecycle`), **pacing** (`Pacing`) and **retention** (`Retention`).

## What the proofs show about the code

- At-least-once holds: nothing is acknowledged that is not in the table, and nothing that is not
  trimmed is ever out of reach. Exactly-once does not (`Delivery.WrittenTwice`): an entry
  may be written again exactly when it has been claimed or read again (`Delivery.WrittenTwiceIff`).
- The drain reads pending entries from the lowest id on. Entries trimmed from the stream meanwhile
  come back without a payload and are skipped without being acknowledged, so READ_COUNT of them hide
  all the consumer's live pending entries: the drain then flushes none of them
  (`Drain.HiddenIsReachable`).
- A claim looks at the first ten times COUNT pending entries only: as many fresh ones hide a stale one
  behind them from every claim (`Recovery.StaleRecoveredIff`, `Recovery.BlockedIsReachable`), until they
  have become stale themselves (`Recovery.WaitingRecovers`).
- `reconcile_backlog` checks and resets in separate commands. A publish in between makes the counter
  too low, even negative, and a negative counter is never reset. When a reset is harmless is stated
  exactly (`Accounting.ResetExactIff`, `Accounting.ResetBalancesIff`).
- The gate's overshoot is bounded, and the bound is reached. The gate does not protect against
  trimming: it counts pings, while the stream is capped in entries.
- An alert that is lost after the presence sync is not sent again while the device stays
  (`Alerting.LostAlertStaysLost`).
- Two purges that overlap can make each other stop early, with expired rows left
  (`Retention.OverlapStopsEarlyIff`).
- A failing SUBSCRIBE in `attach` leaves a registered session that nobody detaches, and silences
  the user until the next resubscription.
- Resubscribing restores coverage but does not remove channels of departed users
  (`Subscriber.DepartedChannelStays`).
- A full queue of alerts evicts alerts: priority protects against positions only.
- The first backoff delay is not capped by the limit.
- The documentation lists the acknowledgement as the last action of a worker's loop; in the code
  positions are published after it.

## Model

| member | source | states |
|---|---|---|
| `Invariant.StepKeepsInv` | app/pipeline/stream.py:24-93 | every single Redis command or commit of any client keeps the protocol invariant: where entries are, delivery and acknowledgement books, publications, counter balance |
| `Invariant.ReachableInv` | app/pipeline/stream.py:24-93 | the invariant holds after every interleaving of any number of requests and workers |
| `Invariant.ShapeKept` | app/pipeline/stream.py:59-93 | an entry below the cursor is pending, acknowledged or trimmed, and acknowledged ones are never pending, after every step |
| `Invariant.BooksKept` | app/pipeline/worker/worker.py:82-106 | the table, the acknowledged set and the delivery counts stay equal to the sums over all flush attempts, after every step |
| `Invariant.PubsKept` | app/pipeline/stream.py:24-37 | after every step each entry belongs to exactly one request, holds 1 to CHUNK_SIZE pings, and a request's added and remaining chunks together are its pings |
| `Invariant.CounterKept` | app/pipeline/stream.py:24-93 | after every step the counter plus resets plus all DECRBYs equals all INCRBYs |
| `Delivery.AcknowledgedIsPersisted` | app/pipeline/worker/worker.py:82-106 | in every reachable state the table holds the pings of all acknowledged entries together |
| `Delivery.AcceptedRequestIsPersisted` | app/domains/devices/service.py:21-35 | once the entries of a fully published request are acknowledged, the table holds every ping the request sent, with multiplicity |
| `Order.OrderKept` | app/pipeline/stream.py:28-35 | every step keeps: the entries a request has added, by increasing id, followed by the chunks it has still to add, are its batch, split |
| `Order.RequestKeepsOrder` | app/pipeline/stream.py:24-37 | in every reachable state, whatever requests have interleaved, a request's entries by increasing id hold the first chunks of its batch; concatenated they are a prefix of it, and the whole batch if nothing is left to add |
| `Delivery.ExactlyOnePlace` | app/pipeline/stream.py:59-93 | every entry ever added is undelivered, pending under one consumer, acknowledged or trimmed away, and only one of these |
| `Delivery.LossNeedsFullStream` | app/pipeline/stream.py:30-35 | an entry is lost, unread or dropped later by a claim, only behind at least STREAM_MAX_LEN newer entries |
| `Delivery.MayBeLostNextIff` | app/pipeline/stream.py:30-35 | the next XADD can lose an unread entry if and only if some request has a chunk left to add and STREAM_MAX_LEN entries from this one on are in the stream |
| `Delivery.CanStillBeAcknowledged` | app/pipeline/stream.py:59-93 | from every reachable state, whatever crashed before, one consumer has a run of its own reads, waits, claims and flushes of what these gave it, and of nobody else's attempts, that acknowledges any given entry not trimmed |
| `Delivery.CommitsBoundedByDeliveries` | app/pipeline/worker/worker.py:70-106 | the table is exactly the committed entries with multiplicity, and an entry is committed no more often than delivered |
| `Delivery.BooksBalance` | app/pipeline/worker/worker.py:70-106 | an entry that has been delivered has been delivered exactly once more than it has been claimed or read again |
| `Delivery.EveryDeliveryMayCommit` | app/pipeline/worker/worker.py:82-99 | from every reachable state some run without any further read commits every entry exactly as often as it has been delivered |
| `Delivery.WrittenTwiceIff` | app/pipeline/worker/worker.py:70-106 | without further reads and claims an entry can come to be written twice if and only if it has been claimed or read again |
| `Delivery.NoRedeliveryNoDuplicates` | app/pipeline/worker/worker.py:70-106 | in a run without claims and pending re-reads no entry is written twice |
| `Delivery.WrittenTwice` | app/pipeline/worker/worker.py:131-137 | a run in which an entry is committed, claimed by another consumer and committed again: its ping is in the table twice |
| `Recovery.TakenSize` | app/pipeline/stream.py:59-67 | a claim takes min(READ_COUNT, candidates) entries out of the pending list, the candidates being the stale and trimmed ones among the first ten times COUNT pending |
| `Recovery.DeliveredIsNotClaimed` | app/pipeline/stream.py:59-82 | every delivery, a read, a repeated read or a claim, starts the idle time over: whatever runs until CLAIM_IDLE_MS have passed, no claim takes the entry over |
| `Recovery.ClaimTakesNothingIff` | app/pipeline/stream.py:59-67 | a claim takes nothing if and only if all of the first CLAIM_SCAN pending entries are in the stream and not yet idle for CLAIM_IDLE_MS |
| `Recovery.RoundsRun` | app/pipeline/worker/worker.py:131-137 | k rounds of claim and flush are a legal run of one consumer's own steps, and leave exactly the computed rest of the stale and trimmed entries pending; the others still in the stream are acknowledged |
| `Recovery.StaleRecoveredIff` | app/pipeline/worker/worker.py:131-137 | with the clock standing still, repeated claims recover a stale entry if and only if fewer than CLAIM_SCAN fresh entries are pending below it, and then within as many rounds as entries are due |
| `Recovery.RoundsTakeCount` | app/pipeline/worker/worker.py:131-137 | once every pending entry is due, k rounds take exactly k * READ_COUNT of them, or all |
| `Recovery.WaitingRecovers` | app/pipeline/worker/worker.py:131-137 | however the clock advances between the rounds of an undisturbed consumer: what leaves the pending list is acknowledged or trimmed, and once CLAIM_IDLE_MS have passed every further round takes READ_COUNT entries, or all that are left |
| `Recovery.BlockedIsReachable` | app/pipeline/stream.py:59-67 | a run to a state in which CLAIM_SCAN fresh pending entries hide stale ones and a claim takes nothing |
| `Accounting.CounterLaw` | app/pipeline/stream.py:24-93 | the counter, in every reachable state: unacknowledged pings, minus added but uncounted, plus acknowledged but not subtracted, minus doubly subtracted, minus what resets took |
| `Accounting.CounterExactIff` | app/pipeline/stream.py:24-56 | the counter equals the size of undelivered plus pending entries if and only if its error terms cancel |
| `Accounting.CounterExactAtRest` | app/pipeline/stream.py:24-93 | with no publish or ack cut short or in flight, nothing lost, nothing acknowledged twice and no reset, the counter is exact |
| `Accounting.ResetExactIff` | app/pipeline/stream.py:53-56 | whatever runs between the check and the SET 0 of a reconciliation, it leaves the counter equal to the backlog if and only if every entry unread at the check or added since is acknowledged or lost by then; so always if the lag was known and nothing was added |
| `Accounting.ResetBalancesIff` | app/pipeline/stream.py:53-56 | a SET 0 makes the counter exact for good if and only if, at that moment, pings waiting plus pings acknowledged but not subtracted equal pings added but not counted |
| `Accounting.BalancedAtRest` | app/pipeline/stream.py:24-56 | with nothing in flight the counter is exact if and only if its permanent errors cancel |
| `Accounting.LateResetUndercounts` | app/pipeline/stream.py:53-56 | a concrete run in which a publish falls between the check and the SET 0 of reconcile_backlog: the counter ends at -1 with one ping waiting |
| `Accounting.NegativeDriftPersists` | app/pipeline/stream.py:40-56 | from a negative counter, with no reset already past its check, no run without a new INCRBY raises it, reconciliation included, because get_backlog clamps at 0 |
| `Gate.OvershootBounded` | app/domains/devices/service.py:21-35 | with at most m requests between gate and INCRBY at any time, counter plus admitted uncounted pings never exceeds BACKLOG_LIMIT + m * MAX_HTTP_BATCH_SIZE, acks and resets included |
| `Gate.OvershootReached` | app/domains/devices/service.py:21-35 | for every m > 0 a run reaches exactly that bound |
| `Gate.LossWithOpenGate` | app/pipeline/stream.py:24-42 | a run in which a full stream node of unread entries, and nothing else, is trimmed away while the gate is still wide open, because the gate counts pings and the trim counts entries |
| `Interference.RunIsLater` | app/pipeline/stream.py:59-93 | what no run of other clients undoes for a caller: log, table and acknowledgements only grow, pending entries come only from before or from unread ones, the caller's own attempt, request and reconciliation are untouched |
| `Interference.PeerRunIsLater` | app/pipeline/worker/worker.py:139-151 | while others add nothing and claim none of a consumer's live entries, these leave its pending list only by being acknowledged, however the others read, claim, commit, acknowledge and reset; it gains entries only from twins, others that read under its name |
| `Interference.DrainsArePeers` | app/pipeline/worker/lifecycle.py:76-80 | every command of one drain is a peer's step for every other drain, a twin's if the consumer name is the same |
| `Chunks.ChunksCover` | app/pipeline/utils.py:46-55 | the chunks of a reply hold exactly the pings of the delivered entries, and are none only if nothing was delivered |
| `Chunks.ChunksExact` | app/pipeline/utils.py:46-55 | a list of chunks is that of a set of entries if and only if it has one chunk per entry, with the entry's pings, in increasing order of id |
| `Stream.Services.SavePoints` | app/domains/devices/service.py:21-35 | in the state where the backlog was read it decides the outcome: without an error the answer is overloaded above the limit, with nothing added, and accepted otherwise, with every chunk added and counted; it is unavailable if and only if an error struck, and then the request is in in part or in full, or not at all |
| `Stream.Services.Publish` | app/pipeline/stream.py:24-37 | succeeds if and only if no error struck: every chunk is added and the INCRBY has run, undisturbed by the size of the whole batch; cut short, the request's pings are still conserved |
| `Stream.Services.TrimPoint` | app/pipeline/stream.py:30-35 | an XADD trims nothing or down to no fewer than STREAM_MAX_LEN entries |
| `Stream.Services.ReadNew` | app/pipeline/stream.py:70-82 | in the state where the command ran: the lowest READ_COUNT new entries, or own pending ones, are delivered to a fresh flush attempt, and come back as one chunk per entry, by increasing id, with its pings; nothing comes back only if there was nothing to deliver but trimmed entries; it fails if and only if an error struck, and may have delivered then |
| `Stream.Services.ClaimStale` | app/pipeline/stream.py:59-67 | in the state where the command ran: takes over or drops exactly the entries Redis takes, whoever owned them, and answers one chunk per entry taken over, by increasing id, with its pings |
| `Stream.Services.CommitChunks` | app/pipeline/worker/worker.py:87-99 | success, which is the absence of errors, means that the pings of the chunks are in the table; failure leaves the stream alone, whether or not the commit was applied |
| `Stream.Services.Ack` | app/pipeline/stream.py:85-93 | afterwards every entry is out of the pending list for good, and the DECRBY has run whatever the XACK removed; a lost connection may cut between the two |
| `Stream.Services.CheckIdle` | app/pipeline/stream.py:45-50 | finds the group idle if and only if nothing is pending and the lag, if Redis knows it, is 0 |
| `Stream.Services.ResetIfCounted` | app/pipeline/stream.py:53-56 | resets if and only if the counter was positive when read, in whatever state the SET 0 then runs |
| `Stream.Services.ReconcileBacklog` | app/pipeline/stream.py:45-56 | resets if and only if the group was idle in the state of the check and the counter positive in the state of the GET, with others running in between |
| `Positions.LatestIsLast` | app/pipeline/worker/worker.py:101 | the position dictionary holds p for its device if and only if p is the last ping of that device |
| `Positions.LatestConcat` | app/pipeline/worker/worker.py:101 | updating the dictionary flush by flush is the same as building it from all pings at once |
| `Positions.NewestIsLatest` | app/pipeline/worker/worker.py:82-101 | what a flush of a set of entries leaves for a device is its last ping in the highest of the entries that has one, and nothing else |
| `Worker.HeldPings` | app/pipeline/worker/worker.py:82-85 | no delivered reply is without pings, so the early return of _flush that skips the ack is never taken for published entries |
| `Drain.ReplyRoom` | app/pipeline/worker/worker.py:142-144 | a reply from the pending list holds nothing to flush if and only if no live entry is left or READ_COUNT trimmed ones come first |
| `Drain.PendingReply` | app/pipeline/stream.py:70-82 | how many entries a reply from the pending list holds, which is READ_COUNT less the trimmed ones, or all, and that they are the lowest live ones |
| `Drain.NewReply` | app/pipeline/stream.py:70-82 | a read of new entries gives the lowest READ_COUNT unread ones, or all |
| `Drain.GoodTurn` | app/pipeline/worker/worker.py:142-147 | with peers at work, a turn of the drain makes its measure smaller or ends the phase, and takes entries out only by acknowledging them |
| `Drain.TurnFailed` | app/pipeline/worker/worker.py:145-147 | with peers at work, a turn that fails at any point leaves every live entry and everything read acknowledged or still pending for the consumer |
| `Drain.AllDrained` | app/pipeline/worker/lifecycle.py:76-80 | when nothing is unread and no consumer has a live entry pending, every entry still in the stream is acknowledged |
| `Drain.JointDrain` | app/pipeline/worker/lifecycle.py:76-80 | the drains of all workers at once: for every interleaving of their commands and of anything else that neither adds nor claims, once each drain is over, at its own time, every entry still in the stream is acknowledged |
| `Drain.JointDrainOfTwins` | entrypoint.sh:4-7 | the same for drains of any number of processes with the same consumer names, when the drains cover the names owning entries and have read between them whatever was read |
| `Drain.HiddenIsReachable` | app/pipeline/worker/worker.py:142-147 | a run to a state in which READ_COUNT or more trimmed pending entries hide live ones from the drain |
| `Worker.ClaimAndFlush` | app/pipeline/worker/worker.py:131-137 | an undisturbed claim and its flush take exactly the entries Redis takes out of the pending list, and acknowledge those still in the stream |
| `Worker.AllTakenGone` | app/pipeline/worker/worker.py:131-137 | whatever others do, after the flush everything the claim took is out of the pending list for good |
| `Worker.IngestWorker.constructor` | app/pipeline/worker/worker.py:34-42 | an idle worker with an empty snapshot |
| `Worker.IngestWorker.Flush` | app/pipeline/worker/worker.py:82-106 | commit, then positions, then ack: True if and only if no error struck, with all entries out of the pending list and their pings in the table; False with nothing acknowledged and no position remembered; a Redis error of the ack with the pings in the table. Once committed, each device is remembered with its last ping in the highest entry that has one |
| `Worker.IngestWorker.DrainTurn` | app/pipeline/worker/worker.py:144-147 | goes on if and only if the state it read in had entries to deliver, which are then out of the pending list for good; with peers, its progress and what a failure leaves |
| `Worker.IngestWorker.DrainPhase` | app/pipeline/worker/worker.py:142-147 | ends only on a read that finds nothing to deliver; with peers it ends within the number of live own or unread entries, plus one read |
| `Worker.IngestWorker.Drain` | app/pipeline/worker/worker.py:139-151 | while others are peers or twins, which may drain too: however it ends, live own entries and those read are acknowledged or still pending; on success nothing is unread, what it read is acknowledged, and so are the live entries it had if fewer than READ_COUNT own ones had been trimmed; without twins none is left. It fails or aborts only by an error, times out only with fewer reads than entries plus two, and succeeds otherwise. Alone, hidden entries stay |
| `Worker.IngestWorker.ClaimStale` | app/pipeline/worker/worker.py:131-137 | success puts everything the claim took out of the pending list for good; undisturbed, exactly that changes |
| `Worker.IngestWorker.BroadcastPositions` | app/pipeline/worker/worker.py:116-129 | a snapshot is sent if and only if there is something to send and the ticker, polled only then, is due; it holds the last ping of each device flushed since the previous one, and starts the next one empty |
| `Worker.IngestWorker.Maintain` | app/pipeline/worker/worker.py:70-74 | polls the claim ticker once, and does nothing else before it is due; then, on success, all that the claim took is out of the pending list for good, its pings flushed; undisturbed, exactly the entries Redis takes, and an idle stream has no positive counter |
| `Worker.IngestWorker.ReadAndFlush` | app/pipeline/worker/worker.py:76-77 | success, which is the absence of errors, puts everything read out of the pending list for good, its pings flushed; undisturbed, fewer entries are unread unless there were none |
| `Worker.IngestWorker.ClaimAndRead` | app/pipeline/worker/worker.py:70-77 | what ProcessOnce promises but for the snapshot |
| `Worker.IngestWorker.ProcessOnce` | app/pipeline/worker/worker.py:70-80 | True if and only if no error struck in it; then all that the claim, if its ticker was due, took and all that the read gave, in states of this run, is out of the pending list for good and was flushed, in that order. A failed flush does not keep it from reading on. What was flushed is covered by the snapshot sent or kept for the next one. Undisturbed, stale entries are recovered first and a backlog shrinks |
| `Worker.IngestWorker.Step` | app/pipeline/worker/worker.py:56-68 | succeeds if and only if no error struck; then it has done what ProcessOnce promises: the claim ticker polled once, what was claimed and read settled for good, undisturbed fewer entries unread or none. Success resets the backoff, anything else sleeps the next delay of the sequence |
| `Worker.IngestWorker.Run` | app/pipeline/worker/worker.py:44-54 | every step polls the claim ticker once, claims exactly when it is due, and leaves what it claimed and read settled for good, to the end of the run, if it succeeded; the snapshots cover, in order, all that was flushed up to what is left for the next one; undisturbed successes empty the backlog; all sleeps together are the backoff function of the outcomes, going on from earlier failures after a restart; the final drain has the results of Drain |
| `Worker.DelayAfterFailures` | app/pipeline/worker/worker.py:56-68 | of the delays of a run, a success has none and the n-th failure in a row the n-th of the backoff, failures from before a restart included |
| `Pings.BatchedSplits` | app/pipeline/stream.py:29-31 | splitting keeps all pings in order, in chunks of 1 to CHUNK_SIZE |
| `Pings.BatchedCount` | app/pipeline/stream.py:29-31 | the number of chunks is the size divided by CHUNK_SIZE, rounded up |
| `Pings.ParseStreamChunk` | app/pipeline/utils.py:46-55 | the loop computes the parse specified recursively |
| `Pings.ParsedExact` | app/pipeline/utils.py:46-55 | parsing fails if and only if some payload does not decode; otherwise it gives one chunk for every entry with a payload, in order, with its id and its pings |
| `Pings.WellFormedExact` | app/pipeline/utils.py:48-52 | the entries parsed are those with a payload, each as often as it occurs |
| `Pings.WellFormedInOrder` | app/pipeline/utils.py:48-54 | and they are parsed in their order |
| `Pings.ReadsBackChunks` | app/pipeline/utils.py:32-55 | encoding and parsing gives back every chunk, for any codec that round-trips |
| `Pings.PublishedBatchReadsBack` | app/pipeline/stream.py:24-37 | splitting, encoding, parsing and flattening a batch is the identity |
| `Pacing.NthDelayDoubles` | app/pipeline/utils.py:67-70 | doubling with a cap, step by step, is min(start * 2^(n-1), limit) |
| `Pacing.DelayWithinLimitIff` | app/pipeline/utils.py:67-70 | no delay exceeds the limit if and only if the first one does not: the first sleep is not capped |
| `Pacing.Backoff.Reset` | app/pipeline/utils.py:64-65 | the sequence starts over |
| `Pacing.Backoff.Sleep` | app/pipeline/utils.py:67-70 | the n-th sleep since the last reset has the n-th delay, also for a start of 0 |
| `Pacing.FiringsTakeTime` | app/pipeline/utils.py:73-89 | however it is polled, k firings take at least k intervals since construction |
| `Pacing.Ticker.Due` | app/pipeline/utils.py:83-89 | fires if and only if the time has come, never early by the count of all firings, and then, and only then, is due again one period later |
| `Presence.EnteredExact` | app/pipeline/constants.py:48-53 | the zones reported are those asked about and not known, each once |
| `Presence.EnteredInOrder` | app/pipeline/constants.py:48-53 | and they are reported in the order of the arguments |
| `Presence.KeysRememberLastSync` | app/pipeline/constants.py:42-59 | a device's key is exactly its last sync, with its expiry, and absent after a sync without zones |
| `Presence.ReportsAreRisingEdges` | app/pipeline/constants.py:34-62 | over any history of syncs and expiries a zone is reported if and only if the device is in it now and was not at its last sync less than the TTL ago |
| `Presence.RepeatedReportsAreSeparated` | app/pipeline/constants.py:34-62 | between two reports of the same device and zone lies a sync outside the zone or a silence of at least the TTL |
| `Presence.DistinctHitsKept` | app/pipeline/presence.py:24-26 | with distinct (device, zone) pairs the per-device dictionaries overwrite no hit |
| `Presence.LastHitIsKept` | app/pipeline/presence.py:24-26 | whatever the hits, the last one of a pair is the one kept |
| `Presence.ArgumentsExact` | app/pipeline/presence.py:31-35 | the script is told exactly the zones the device has hits in |
| `Presence.DictionaryFindsNewHits` | app/pipeline/presence.py:24-44 | script and dictionaries together give the device's hits outside the zones it was in, in the order of the hits |
| `Presence.AnswerIsRisingEdges` | app/pipeline/presence.py:20-44 | a hit is answered if and only if it is among the hits and its device has just entered its zone |
| `Presence.AnsweredOnce` | app/pipeline/presence.py:20-44 | a hit of a device that has just entered its zone is answered exactly once, any other not at all |
| `Presence.AnswerIsDistinct` | app/pipeline/presence.py:20-44 | an answer to distinct pairs has no pair twice |
| `Presence.AnswerInOrder` | app/pipeline/presence.py:40-44 | the answer keeps the order of the devices asked for and, for each, of its hits |
| `Presence.PresenceStore.Pass` | app/pipeline/constants.py:55-59 | time passes and expired keys vanish at any moment without a visible difference |
| `Presence.PresenceStore.Group` | app/pipeline/presence.py:24-26 | the loop fills one dictionary per device, keys in first-hit order, the last hit of a zone winning |
| `Presence.PresenceStore.FilterNewEntries` | app/pipeline/presence.py:20-44 | one script per distinct device, other workers' scripts in between, and the answer mapped back from exactly these runs; it fails if and only if an error struck, and the pipeline may then have broken off after any of them |
| `Presence.PresenceStore.Run` | app/pipeline/constants.py:34-62 | the script's loops and its EXPIRE or DEL report what the history function says and keep the store equal to the history |
| `Presence.PresenceStore.RemoveLeft` | app/pipeline/constants.py:42-46 | what stays is the intersection, in whatever order SMEMBERS lists |
| `Presence.PresenceStore.AddCurrent` | app/pipeline/constants.py:48-53 | the set becomes the argument set, and exactly the additions are reported, in order |
| `Matcher.PrefilterHarmlessIff` | app/pipeline/matcher.py:23-28 | the bounds condition leaves the join as it is if and only if every circle hit lies in its bounds |
| `Matcher.JoinExact` | app/pipeline/matcher.py:17-28 | a hit is in the join on the exact circle if and only if some zone and some ping within it make it |
| `Matcher.MatchExists` | app/pipeline/matcher.py:8-30 | the sort order is total enough for the query to have a result on every input |
| `Matcher.MatchIsDistinct` | app/pipeline/matcher.py:8 | no (zone, device) pair is answered twice, however ties are broken, and the answer is sorted |
| `Matcher.MatchIsLatest` | app/pipeline/matcher.py:8-30 | every hit tells owner, zone, zone name, place and time of a ping within the zone, and no ping of the pair within the zone is later |
| `Matcher.MatchIsComplete` | app/pipeline/matcher.py:8-30 | every pair with a ping in range is answered, with a time at least that ping's |
| `Matcher.HitIsFromPing` | app/pipeline/matcher.py:10-22 | every hit is of the device of some ping of the batch, whatever the bounds |
| `Matcher.MatchesAgree` | app/pipeline/matcher.py:8-30 | any two results of the query answer the same pairs with the same times |
| `Matcher.PresenceLosesNoHit` | app/pipeline/presence.py:24-26 | the dictionaries built from a match keep every hit |
| `Registry.QueueDiscipline` | app/realtime/registry.py:35-55 | over every run of sends and dequeues: the queue is bounded and a suffix of the accepted messages, offered = taken + queued + dropped, and a message is evicted only with at least QUEUE_SIZE accepted after it |
| `Registry.PriorityIsNeverRefused` | app/realtime/registry.py:35-49 | over every run: no priority message is refused, evictions are no more than priority messages, and what is dropped was either evicted or refused |
| `Registry.AlertsEvictAlerts` | app/realtime/registry.py:35-49 | an alert at the head of a full queue is gone for good with the next alert to arrive, whatever happens later |
| `Registry.Connection.Send` | app/realtime/registry.py:35-42 | one send is one step of the queue discipline: appended below the capacity; at it, refused without priority, and with priority appended for the head |
| `Registry.Connection.DiscardOldest` | app/realtime/registry.py:44-49 | drops the head and counts it, or does nothing on an empty queue |
| `Registry.Connection.TakeNext` | app/realtime/registry.py:51-55 | the sender takes the head, which leaves the queue with it, and its position among the accepted messages is noted |
| `Registry.SignalsIff` | app/realtime/registry.py:69-84 | add and discard answer True exactly for the first and the last session of a user, and users without sessions are not listed |
| `Registry.SessionsExact` | app/realtime/registry.py:69-84 | add and discard change the sessions of any user by exactly the one connection |
| `Registry.ConnectionRegistry.Add` | app/realtime/registry.py:69-72 | adds the session and touches no other; True if and only if it is the user's only one |
| `Registry.ConnectionRegistry.Discard` | app/realtime/registry.py:74-84 | removes the session and no other, and the user with the last one; True if and only if it was the last |
| `Registry.ConnectionRegistry.SendToUser` | app/realtime/registry.py:86-88 | offers the message to every session of the user and touches no other connection |
| `Registry.ConnectionRegistry.Broadcast` | app/realtime/registry.py:90-93 | offers the message once to every connection |
| `Events.ChannelLeadsBack` | app/realtime/subscriber.py:80-87 | removing the prefix of a user's channel gives that user, for every user id, and the channel is never the shared one |
| `Events.ChannelsDiffer` | app/realtime/events.py:29 | two users share a channel if and only if they are the same |
| `Events.Group` | app/realtime/events.py:22-24 | one list per user with a hit, in first-hit order, with the user's hits in order |
| `Events.PublishAlerts` | app/realtime/events.py:18-32 | sends one message per user and returns the number of hits |
| `Events.MessagesArePerUser` | app/realtime/events.py:22-31 | a user gets a message if and only if the user has a hit; it is the only one on the user's channel and holds exactly the user's hits |
| `Events.HitsOfUserInOrder` | app/realtime/events.py:22-24 | a user's hits keep their order |
| `Events.MessagesInOrder` | app/realtime/events.py:26-31 | messages are published in the order of the users' first hits |
| `Events.GroupingConserves` | app/realtime/events.py:22-24 | the messages together hold every hit exactly as often as it was given |
| `Events.MessagesConserve` | app/realtime/events.py:22-31 | what all messages carry is the hits, each as often as it was given |
| `Events.DispatchIsPrivate` | app/realtime/subscriber.py:80-87 | from publish_alerts through channel name and prefix removal to the queue: the connection's accepted alerts stay its own user's |
| `Alerting.MessagesCarry` | app/realtime/events.py:22-31 | a hit is on a user's channel if and only if it is an entry of that user |
| `Alerting.AlertedIff` | app/pipeline/worker/worker.py:108-114 | end to end over match, presence and publishing: a user is sent a hit if and only if it is in the match, is the user's, and its device has just entered the zone |
| `Alerting.AlertedOnce` | app/pipeline/worker/worker.py:108-114 | each hit whose device has just entered its zone is carried exactly once by the messages, nothing else is, and the count returned is theirs |
| `Alerting.OneMessageEach` | app/realtime/events.py:26-31 | no two messages carry the same hit |
| `Alerting.FlushAlertsIff` | app/pipeline/worker/worker.py:90-111 | a flush asks about the device of every hit, so each hit of its match is sent if and only if the sync of its device in this very flush is a rising edge |
| `Alerting.UnreportedIff` | app/pipeline/constants.py:34-62 | after a sync inside a zone, none of the later syncs reports it if and only if the device stayed inside without a gap of the TTL up to some point and was never seen inside after it |
| `Alerting.LostAlertStaysLost` | app/pipeline/worker/worker.py:108-114 | an alert whose device was synced but that was not sent is in no later answer as long as the device stays inside, whatever else is synced |
| `Alerting.Alert` | app/pipeline/worker/worker.py:108-114 | without errors, and only then, exactly those messages and their number of hits: every alert due is carried once, and counted; on an error 0, with the devices synced up to then and none or some of the messages sent |
| `Subscriber.EventKeeps` | app/realtime/subscriber.py:45-54 | single attaches, detaches, executed commands and resubscriptions keep coverage, and containment, of the subscription |
| `Subscriber.SubscriptionTracksSessions` | app/realtime/subscriber.py:45-54 | replaying the outstanding commands always yields the shared channel and one per connected user, exactly, as long as nothing drops or fails |
| `Subscriber.ResubscribeRestores` | app/realtime/subscriber.py:72-78 | after any history of drops and failed commands a resubscription covers every connected user; it is exact if and only if no channel of a departed user was left |
| `Subscriber.DepartedChannelStays` | app/realtime/subscriber.py:50-54 | a run after which the channel of a user who has left stays subscribed, and a resubscription does not remove it |
| `Subscriber.ResubscribeExactAfterForgetting` | app/realtime/subscriber.py:56-78 | it is exact if drops forget all channels and no UNSUBSCRIBE failed |
| `Subscriber.SilencedUntilResubscribe` | app/realtime/subscriber.py:45-54 | a session registered without its channel keeps the channel unsubscribed for all later sessions of the user, until a resubscription |
| `Subscriber.AttachCoversIff` | app/realtime/subscriber.py:45-48 | from an exact subscription an attach leaves its user covered if and only if its command got out or the user had a session |
| `Subscriber.FailedSubscribeSilences` | app/realtime/router.py:11-23 | a failing first SUBSCRIBE in attach leaves a registered session behind, since the route detaches only what attach returned from, and silences the user's later sessions |
| `Subscriber.SignalsAlternate` | app/realtime/registry.py:69-84 | per user the True results of add and discard strictly alternate, over every run |
| `Subscriber.SessionsOverRuns` | app/realtime/registry.py:69-84 | over every run, with drops and failures, the sessions of a user are exactly those attached and not detached since |
| `Subscriber.PublishedIsGenuine` | app/realtime/events.py:26-31 | everything publish_alerts puts on a channel meets what dispatch relies on |
| `Subscriber.Subscriber.constructor` | app/realtime/subscriber.py:24-34 | starts with the shared channel being subscribed |
| `Subscriber.Subscriber.Attach` | app/realtime/subscriber.py:45-48 | registers the session, and subscribes if and only if it is the user's first; it fails only then, by an error, and leaves the session registered |
| `Subscriber.Subscriber.Detach` | app/realtime/subscriber.py:50-54 | unregisters, and unsubscribes if and only if it was the last; it fails only then, by an error |
| `Subscriber.Subscriber.ResubscribeAll` | app/realtime/subscriber.py:72-78 | asks for the shared channel and all connected users' channels, or changes nothing, if and only if an error struck |
| `Subscriber.Subscriber.Dispatch` | app/realtime/subscriber.py:80-87 | offers positions to everyone and alerts to the named user's sessions alone, and keeps every queue private |
| `Lifecycle.PruningForgetsNothing` | app/pipeline/worker/lifecycle.py:30-39 | what a later look would count is not lost by pruning earlier |
| `Lifecycle.FlappingIff` | app/pipeline/worker/lifecycle.py:33-39 | a spec is flapping if and only if three restarts, whichever, lie less than the window back |
| `Lifecycle.PrunedEqualsFull` | app/pipeline/worker/lifecycle.py:28-39 | on a monotone clock flapping computed on the pruned list equals flapping on every restart ever noted |
| `Lifecycle.TaskSpec.NoteRestart` | app/pipeline/worker/lifecycle.py:30-31 | prunes and appends, and stays equivalent to the full history |
| `Lifecycle.TaskSpec.Flapping` | app/pipeline/worker/lifecycle.py:33-39 | answers True if and only if at least three of all restarts ever noted lie less than the window back |
| `Lifecycle.StepKeepsInv` | app/pipeline/worker/lifecycle.py:63-124 | every step of supervisor, monitor and coroutines keeps: live ones are registered or being drained by the monitor |
| `Lifecycle.SupervisionHolds` | app/pipeline/worker/lifecycle.py:63-124 | for distinct names, over every run: at most one live coroutine per name, also while one drains; after a round every spec has one found healthy or spawned in it; none after stop |
| `Lifecycle.AtMostOneLiveIffDistinct` | app/pipeline/worker/lifecycle.py:48-65 | start gives at most one per name if and only if the names are distinct |
| `Lifecycle.Supervisor.StartTasks` | app/pipeline/worker/lifecycle.py:63-68 | every spec has a live coroutine and the monitor runs |
| `Lifecycle.Supervisor.MonitorRound` | app/pipeline/worker/lifecycle.py:91-95 | after a round every spec has what the round found healthy or spawned; whichever had stalled, exited or was missing has been replaced by one created in this round, and the old one is not live |
| `Lifecycle.Supervisor.Check` | app/pipeline/worker/lifecycle.py:97-108 | a live coroutine that has not stalled is left alone; one that has stalled or exited, or is missing, is replaced by exactly one new live one, with the old one no longer live and all other specs untouched |
| `Lifecycle.Supervisor.Restart` | app/pipeline/worker/lifecycle.py:110-124 | waits for the old one before it spawns, and ends with exactly one new one, live and registered, the old one not live and the other specs untouched |
| `Lifecycle.Supervisor.Stop` | app/pipeline/worker/lifecycle.py:70-82 | ends with nothing live and nothing registered, also when it interrupts a restart |
| `Lifecycle.Supervisor.WaitForAll` | app/pipeline/worker/lifecycle.py:76-80 | waiting for all leaves none of them live |
| `Retention.NothingIsLost` | app/pipeline/retention.py:21-37 | between two states rows inserted = rows gained + rows deleted here + rows deleted by others; Purge's contract states it for a whole purge |
| `Retention.Pick` | app/pipeline/retention.py:16-18 | the subquery picks as many expired rows as there are, up to the limit, whichever |
| `Retention.OverlapStopsEarlyIff` | app/pipeline/retention.py:16-33 | some overlap of purges makes a batch short, which ends its purge, with a row left that was expired when it picked, if and only if more rows were expired than fit a non-empty batch |
| `Retention.LocationPings.DeleteBatch` | app/pipeline/retention.py:28-29 | picks min(expired, batch) expired rows and deletes those that others have not deleted meanwhile, whose number it returns, or none if and only if an error struck |
| `Retention.LocationPings.Pass` | app/pipeline/retention.py:27-33 | a pass is short if and only if fewer than a batch were expired when it picked or others deleted rows it had picked; in the first case nothing expired at the start is left |
| `Retention.LocationPings.Passes` | app/pipeline/retention.py:27-33 | the loop over the passes, with what Purge promises except conservation |
| `Retention.LocationPings.Purge` | app/pipeline/retention.py:21-37 | it fails if and only if an error struck; only expired rows go, the total returned is exact and bounded, rows are conserved; an expired row of the start that stays means that all passes were used or that others deleted rows it had picked; without other writers the total is min(expired, RETENTION_MAX_PASSES * batch) |

## Left out

- Redis, PostgreSQL, PostGIS, asyncio and the network themselves: a command is an atomic step, a
  commit is an atomic step, a gather is waiting for its children.
- Errors of a single command inside a pipeline that leave its other commands running; only a lost
  connection, which cuts the pipeline, is modelled. Flushing the Redis keys or restarting Redis is not.
- JSON: the codec is any pair of functions, assumed to round-trip where that matters. Entries written
  to the stream by anyone but `publish` (malformed ones, or ones with an empty list of pings) occur in
  `Pings.ParseStreamChunk` but not in the protocol.
- Geometry and the trigger that keeps bounds: two predicates, with "a circle hit lies in its bounds"
  as hypothesis of the results that need it, and the exact condition in `Matcher.PrefilterHarmlessIff`.
- Geozone CRUD, routers, schemas, configuration, logging, migrations, front end and load generator:
  thin layers over the database, the framework or the shell. Numeric settings are fixed at their defaults.
- The text written by `write_pings`, and the sockets: a commit adds pings, a sender takes the head.
- Wall-clock time: clock readings, jitter and the reported periods are parameters.
- Worker.IngestWorker.Drain: nothing is promised about completeness once others publish, or claim this
  consumer's live entries or under its name. DRAIN_TIMEOUT_S is a budget of reads.
- Recovery.StaleRecoveredIff: the clock stands still during the rounds; `Recovery.WaitingRecovers` lets
  it advance.
- Worker.IngestWorker.Flush: alerting runs between the commit and the ack but touches neither stream
  nor table, so it is modelled apart, in `Alerting.Alert`.
- Worker.IngestWorker.BroadcastPositions: the order of the positions in the published list.
- Worker.IngestWorker.Run: cancellation is modelled as the end of the turns, between two steps; a
  cancellation inside a step is covered by the protocol, where any client may stop anywhere.
- Lifecycle.Supervisor.Restart: `note_restart`, which touches no other state, is proved apart in
  `Lifecycle.TaskSpec`, and `healthy` and `status` are not modelled.
- Lifecycle.Supervisor.StartTasks: calling start on a running supervisor.
- Retention.LocationPings.Purge: the table of the retention model and the table of the protocol, which
  records rows ever inserted, are separate; the endless loop of `retention_worker` is not modelled.
- Subscriber.Subscriber.Dispatch: payloads that are not what `publish_alerts` or `publish_positions`
  produce.
- The order in which a set of sessions is iterated, and the sender's and subscriber's own loops around
  `TakeNext` and `Dispatch`.
