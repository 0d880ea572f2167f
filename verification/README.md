# Nodra: a verified model of the edge runtime's core

Nodra moves events from edge sites to a control plane and on to webhooks, survives crashes and lost connections on the
way, and speaks MQTT, Modbus, OPC UA and serial lines to devices. This project models the parts where correctness
depends on more than one function: the write-ahead queues, store and forward, delivery and dead letters, claims between
replicas, MQTT QoS 2 and persistent sessions, the fleet stores, staged OTA campaigns, and the binary codecs.

Each part is given twice. A state, one function per atomic step and a function that runs a sequence of steps say what
the system does; lemmas about *every* sequence of steps say what that is good for. Where the program works by changing
things in place, a class or a method with loops follows the program and is proved to do what the functions say.

| file | models |
|---|---|
| `WalQueue.dfy` | the file-backed durable queue: log, replay, compaction, caps, eviction |
| `Spool.dfy` | the agent's spool: such a queue holding accepted events in order |
| `Ingest.dfy` | the control plane: deduplication, routing, recording, restarts |
| `StoreForward.dfy` | agent, network and control plane together, step by step |
| `Contents.dfy` | what an accepted event carries on its way into the server's store |
| `EdgeAgent.dfy` | the agent's own code: accepting events and flushing the spool |
| `Delivery.dfy` | delivery workers, dead letters and replay |
| `ClaimTable.dfy` | the table of claims behind a shared Postgres queue |
| `Claims.dfy` | replicas that claim, wait for a worker slot, deliver and settle |
| `FileStore.dfy` | the file-backed fleet store: snapshot, log, compaction, crashes |
| `SeenIndex.dfy` | the store's index of seen event ids over restarts and crashes |
| `LogReplay.dfy` | which logs can be replayed over a state that already holds them |
| `TornLog.dfy` | crashes between the two halves of a compaction |
| `Occ.dfy` | optimistic concurrency of the Postgres fleet store |
| `Campaign.dfy` | staged OTA campaigns |
| `CampaignAbort.dfy` | which requests a wave makes and an abort leaves behind |
| `Qos2.dfy` | both QoS 2 handshakes and packet id allocation |
| `PacketIds.dfy` | packet ids taken by several publishers at once |
| `Sessions.dfy` | persistent MQTT sessions |
| `Router.dfy` | topic filters |
| `PublishCodec.dfy` | PUBLISH packets on the wire |
| `SecureChunk.dfy` | OPC UA Basic256Sha256 chunks, padding, key derivation |
| `Crc.dfy` | the Modbus RTU checksum |
| `Serial.dfy` | framing of a serial stream by delimiter or idle gap |
| `Wrappers.dfy` | the shared option and result types |

`dafny verify dfyconfig.toml` checks everything.

## What does not hold

Some promises fail as the code stands. The lemmas named with each say how, and when the promise does hold.

- The append that fills a log is compacted away with the log, before its operation is applied, in both the queue (every
  4096th append) and the file store (every 2048th). Up to that one operation, reopening gives the state back
  (`WalQueue.LagIsReal`, `FileStore.SkipIsReal`, `FileStore.LedgerHolds`).
- Re-putting a queued id under `drop-oldest` can evict that id and subtract its bytes twice (`WalQueue.RePutAccountsIff`,
  `WalQueue.RePutCounterexample`).
- The agent deletes an event it sent on its own on any success answer. If the answer comes from an endpoint that did not
  process it, the event is lost; that is exactly when (`StoreForward.FalseSuccessIff`), and a run with nothing but such
  answers gets there (`StoreForward.FalseSuccessLoses`). `StoreForward.NothingLost` counts these answers.
- Under `drop-oldest` the agent's spool gives up accepted events that were never recorded (`Spool.DropOldestDiscards`;
  `StoreForward.NothingLost` for the other policies).
- The index of seen events stays in step with the list of recorded ids exactly as long as no reopened directory holds an
  id twice within the window of 20000 (`SeenIndex.AgreeAlongIff`). A crash between the two halves of a compaction leaves
  one that does (`SeenIndex.TornCompaction`).
- A log can be replayed over a state that already holds it exactly if it deletes whatever it adds and adds no alert and no
  event, or enough of them to fill their lists (`LogReplay.ReplayTwiceIff`). A crash that leaves the new snapshot beside the
  old log therefore duplicates documents, unless log and trigger meet the condition of `TornLog.TornCompactionIff`; an alert
  set right after it was added can even revert (`TornLog.LateChangeShows`).
- An abort does not stop all install work. A wave asks devices before the campaign is saved, so a start or promotion that
  fails half-way leaves devices asked that the campaign does not know as selected, and no abort takes that back
  (`CampaignAbort.AbortLeavesAsked`; without any failing write `CampaignAbort.MissingDeviceLeaves`). When it happens and
  when not is exact: `CampaignAbort.AbortStopsIff` for an abort, `CampaignAbort.StartLeaves` and
  `CampaignAbort.PromoteLeaves` for a wave, `CampaignAbort.NoStrayIff` for whole runs.
- A document that is deleted and written again under its id as often as before has its old revision, so an update prepared
  on the old one overwrites the new (`Occ.RecreatedLooksUnchanged`). Without a deletion no update is lost (`Occ.NoLostUpdate`).
- A dead-letter replay that runs between a worker's dead-letter put and its delete loses the delivery
  (`Delivery.FinishingLosesIff`, `Delivery.LossReachable`).
- Two replicas can process one delivery unless the lease is at least twice the delivery timeout, because a claim is
  taken before a worker slot is free; with any number of slots this is exact (`Claims.LeaseIff`,
  `Claims.ShorterLeaseFails`).
- However long the lease, a put that hits a claimed id frees it for a second replica (`Claims.HeldPutIff`,
  `Claims.HeldPutShares`).
- Taking a packet id and registering it are two critical sections. Two publishers get one id exactly when the counter
  comes all the way round in between (`PacketIds.DistinctIff`, `PacketIds.FreshIff`), as it does at once with 65534 ids in
  flight (`PacketIds.RoundShares`).
- With all 65535 packet ids in flight the allocation loop cannot end (`Qos2.NoFreeNoReturn`).
- `appendCRC` of an empty frame is not a valid frame, since `validCRC` wants three bytes (`Crc.AppendedIsValid`).
- Message padding without the extra byte cannot be undone for counts of 256 and more (`SecureChunk.StripInvertsIff`); no
  permitted key gets there (`SecureChunk.PaddingFits`).

## Model

| member | source | states |
|---|---|---|
| WalQueue.WalRefinement | internal/queue/queue.go:88-146 | after any run of Puts, Deletes and crashes the log replays to the in-memory queue, values and FIFO order, except for the one id whose append triggered the latest compaction; the reopened byte count is exact and its counter covers every live entry |
| WalQueue.ReplaySound | internal/queue/queue.go:88-127 | whatever a log holds, replay yields each id once and a counter at least as high as every live sequence number |
| WalQueue.CompactionExact | internal/queue/queue.go:265-308 | the compacted log replays to exactly the queue it was written from |
| WalQueue.LagIsReal | internal/queue/queue.go:129-146 | the append that fills the log drops its own record: an accepted Put is gone after reopening |
| WalQueue.PutFresh | internal/queue/queue.go:170-219 | without drop-oldest, putting a fresh id appends one item at the back or changes nothing |
| WalQueue.CapsKept | internal/queue/queue.go:148-219 | one Put keeps the byte count exact and both caps, for reject and drop-newest on any id, for drop-oldest on fresh ids; a refused Put changes nothing except under drop-oldest |
| WalQueue.CapsOverRun | internal/queue/queue.go:148-235 | the same at every point of every crash-free run |
| WalQueue.StoredIff | internal/queue/queue.go:170-219 | under every policy and for every id, queued or not, a Put that leaves the item cap and the byte cap met is stored: the old entry is gone, the others keep their order, the new one stands at the back; under reject and drop-newest nothing else is stored, and a refused Put changes nothing |
| WalQueue.DeletedExactly | internal/queue/queue.go:221-235 | deleting takes out that one entry and its bytes; deleting an id that is not queued changes nothing |
| WalQueue.CrashDrift | internal/queue/queue.go:61-127 | how far a reopened queue can differ in items and bytes from the one before the crash: by the lagging id only |
| WalQueue.EvictShortestPrefix | internal/queue/queue.go:191-204 | eviction drops the shortest FIFO prefix that makes room, or everything if none does |
| WalQueue.DropOldestFullIff | internal/queue/queue.go:187-207 | drop-oldest refuses a fresh id exactly when the value alone exceeds the byte cap, having emptied the queue |
| WalQueue.DropOldestStores | internal/queue/queue.go:187-219 | drop-oldest stores any other fresh id at the back of what is left after dropping the fewest oldest entries that make room |
| WalQueue.SelfEviction | internal/queue/queue.go:180-204 | eviction reaches the id being re-put exactly when its new value does not fit beside the entries behind it |
| WalQueue.RePutAccountsIff | internal/queue/queue.go:180-218 | the exact condition under which re-putting a queued id under drop-oldest keeps the byte count right |
| WalQueue.RePutCounterexample | internal/queue/queue.go:180-218 | a concrete re-put after which the count reads 5 with 11 bytes queued |
| WalQueue.FindOldest | internal/queue/queue.go:158-168 | one pass over the map in any order finds the head of the FIFO list |
| WalQueue.SortedItems | internal/queue/queue.go:244-251 | sorting the map by sequence number gives the FIFO list |
| WalQueue.Queue.constructor | internal/queue/queue.go:61-127 | opening replays the log record by record into the state the specification gives |
| WalQueue.Queue.CompactLocked | internal/queue/queue.go:265-308 | the log becomes one put per live item, oldest first |
| WalQueue.Queue.AppendLocked | internal/queue/queue.go:129-146 | appends, or compacts from the state before the operation |
| WalQueue.Queue.MakeRoom | internal/queue/queue.go:192-201 | the eviction loop over the map does what the specification's eviction does |
| WalQueue.Queue.PutItem | internal/queue/queue.go:170-219 | result and new state are the specification's, which `WalQueue.StoredIff` gives in terms of list, bytes and caps; log and memory stay in agreement |
| WalQueue.Queue.DeleteItem | internal/queue/queue.go:221-235 | the same for Delete |
| WalQueue.Queue.List | internal/queue/queue.go:244-257 | the live values in FIFO order |
| StoreForward.NothingLost | internal/agent/agent.go:575-660 | over every run with lost requests and responses, other sites, server restarts and crashes on either side, an accepted event is in the spool or recorded, but for at most one per crash of the agent, one per end of the server and one per success answer from an endpoint that did not process the event |
| StoreForward.FalseSuccessIff | internal/agent/agent.go:645-658 | sending a spooled event on its own keeps it spooled or recorded exactly unless the answer is a success from an endpoint that did not process it and it was not recorded before |
| StoreForward.FalseSuccessLoses | internal/agent/agent.go:626-658 | with one event and an endpoint that answers everything with an empty success, the event is gone, nothing is recorded and nothing crashed |
| StoreForward.RoutedBeforeRecorded | internal/server/server.go:1103-1117 | a recorded event, of any site, had a delivery put for every route that matched it for its site when it was recorded |
| StoreForward.RecordedOnce | internal/store/store.go:593-606 | an event is recorded twice only with at least 20000 recordings in between, less one per end of the server, however often it is resent; without an end of the server this needs no condition, otherwise that no reopened directory held an id twice within the window |
| StoreForward.RecordedAtMostOnce | internal/store/store.go:593-606 | as long as there were at most 20000 recordings and no compaction was torn apart, the store's history holds no event twice, however often events are resent and the server ends |
| Contents.RecordedAsAccepted | internal/server/server.go:1088-1117 | over every run, whatever the server's store was ever given under an accepted id is the event accepted under it, topic and payload included, routed by that topic as an event of the agent's site; and so is whatever waits in the spool |
| StoreForward.OldestFirst | internal/agent/agent.go:632-639 | the spool is in acceptance order, and while deletions are in turn a flush step leaves it alone or removes exactly its oldest event, which is recorded, was recorded and forgotten by a restart of the server, or was wrongly acknowledged |
| StoreForward.InTurnUnlessEmpty | internal/agent/agent.go:626-630 | deletions leave their turn only after an answer with empty results |
| StoreForward.LostAnswerRecords | internal/agent/agent.go:594-630 | if only the answer to a batch or its results are lost, every event of it is recorded and still spooled, to be sent again |
| StoreForward.OthersRecorded | internal/server/server.go:1088-1117 | another site's event under an id of its own is recorded with its body in the same store, even if the server dies right after |
| Spool.PutKeeps | internal/agent/agent.go:408-410 | without drop-oldest a proper event with a new id is stored at the back exactly if it has an id and fits the caps, and queue and log stay sound; otherwise nothing changes |
| Spool.SurvivesCrash | internal/queue/queue.go:61-127 | a spooled event survives a crash of the agent unless its Put was the append that triggered the latest compaction |
| Spool.DropOldestDiscards | internal/agent/agent.go:408-410 | under drop-oldest an event accepted into a full spool displaces the oldest one, recorded or not |
| Ingest.IngestKeeps | internal/server/server.go:1088-1125 | an acknowledged event is recorded, under the id the server made up if it came without one; nothing recorded is lost; a recording implies its deliveries |
| Ingest.IngestRecords | internal/server/server.go:1088-1125 | a new proper event that meets no fault becomes the store's newest event with the topic and payload that were sent, under its own id or under the one made for it if it had none, and a delivery is put for exactly the enabled routes of its site, or of all, whose filter matches |
| Ingest.IngestLeaves | internal/server/server.go:1088-1117 | an improper event, a known one, or one whose delivery or record cannot be written leaves the store as it is; of these only the known one is acknowledged |
| Ingest.DiedRecords | internal/store/store.go:103-144 | a server that dies after the append, or between the halves of the compaction that it triggers, has recorded the event, body included, although nobody was told |
| Ingest.IngestAllKeeps | internal/server/server.go:1071-1084 | the same for a batch, whatever becomes of each event |
| Ingest.IngestAllSucceeds | internal/server/server.go:1071-1084 | in a batch that meets no fault every proper event is acknowledged |
| Ingest.DiedKeeps | internal/store/store.go:103-144 | if the server dies while it records an event, with or without a torn compaction, at most one recorded event is forgotten |
| Ingest.WantedAll | internal/server/server.go:1103-1106 | every enabled route of the site whose filter matches is among those a delivery is put for |
| Ingest.WantedOnly | internal/server/server.go:1103-1106 | and no other route is |
| Ingest.ControlPlane.PutDeliveries | internal/server/server.go:1103-1113 | the route loop puts one delivery per matching route, in order, until the queue refuses one |
| Ingest.ControlPlane.IngestEvent | internal/server/server.go:1088-1125 | duplicate check, deliveries and event in this order, as the specification says, on top of the file-backed store; an event without an id gets the one made for it, and `Ingest.IngestRecords` says what is recorded |
| Ingest.ControlPlane.IngestBatch | internal/server/server.go:1056-1085 | an empty batch or one of more than 500 events is refused whole; otherwise every event in order, and the ids answered without error |
| EdgeAgent.FlushLeaves | internal/agent/agent.go:575-660 | whatever becomes of its requests, a flush removes an event from the spool only if it is recorded or was falsely acknowledged, and nothing recorded is forgotten |
| EdgeAgent.FlushSuffix | internal/agent/agent.go:632-639 | while no batch is answered with empty results a flush removes a prefix of the spool |
| EdgeAgent.CleanFlushEmpties | internal/agent/agent.go:575-641 | if every request is answered and nothing fails, the spool is empty after a flush |
| EdgeAgent.FallbackFlush | internal/agent/agent.go:600-660 | against a server without batches that takes single events, a flush clears the first fifty events after a 404 and all of them after empty answers |
| EdgeAgent.LocalPutsIff | internal/agent/agent.go:411-430 | exactly the local routes that match and keep the event get a delivery, one each and in order |
| EdgeAgent.Agent.AcceptEvent | internal/agent/agent.go:400-437 | spools exactly a proper event that fits the caps, as the last one; deliveries are queued for exactly the matching local routes that keep it, up to the first that fails; the caller is told of success exactly if it was spooled and no local route failed |
| EdgeAgent.Agent.QueueLocal | internal/agent/agent.go:411-435 | the loop over the local routes stops exactly at the first that matches and fails |
| EdgeAgent.Agent.SendEvent | internal/agent/agent.go:645-658 | one event on its own is the specification step: any success answer deletes it |
| EdgeAgent.Agent.FlushOneByOne | internal/agent/agent.go:643-660 | the loop is a run of single-event steps that meets the given answers in order and ends at the first event not acknowledged |
| EdgeAgent.Agent.SettleBatch | internal/agent/agent.go:632-639 | the loop is a run of deletion steps in order, up to the first event the server did not accept |
| EdgeAgent.Agent.FlushBatch | internal/agent/agent.go:595-639 | one batch is a run of steps that meets the given answers, whatever they are |
| EdgeAgent.Agent.Flush | internal/agent/agent.go:575-641 | a flush is a run of steps from idle to idle that meets the given answers, one per request and in order |
| Delivery.DeliveryConservation | internal/server/server.go:2255-2288 | on every interleaving of workers, replays, crashes and failing queues without an overlap, a delivery once put is queued, dead-lettered, delivered or deleted by an administrator |
| Delivery.OverlapLoses | internal/server/server.go:2144-2163 | from any overlap on an undelivered id, letting the two finish in either order loses it |
| Delivery.FinishingLosesIff | internal/server/server.go:2144-2163 | letting a worker and a replay finish loses something exactly when they overlap on an id neither delivered nor deleted |
| Delivery.LossReachable | internal/server/server.go:2144-2163 | such a loss is reachable from the empty system |
| Delivery.LeavesIff | internal/server/server.go:2144-2288 | a queued record goes exactly when a worker that delivered or buried it deletes it, a dead letter exactly when an administrator or a replay that put it back does |
| Delivery.RetriesExactly | internal/server/server.go:2264-2285 | a delivery gets exactly its number of attempts, but at least one: until then it stays queued with its failures counted, after the last it is a dead letter |
| Delivery.ReplayQueues | internal/server/server.go:2144-2163 | a replay queues the dead letter with its attempts back at zero, and deletes the dead letter only if that worked |
| Delivery.ReplayRenews | internal/server/server.go:2144-2163 | after a replay the delivery gets its full number of attempts again |
| Delivery.Server.ProcessOne | internal/server/server.go:2255-2288 | one attempt does to the two queues what the steps pick, succeed or fail, settle do: deleted when sent, queued again with one more failure, or a dead letter at the last |
| Delivery.Server.DeadletterReplay | internal/server/server.go:2144-2163 | a replay does to the two queues what the steps read, put, delete do; the record queued has no attempts |
| ClaimTable.WinsIff | internal/queue/postgres.go:161-184 | a claim succeeds exactly on a row that was put and not deleted since, and that nobody won less than a lease ago without its having been put again, released or deleted since |
| ClaimTable.ClaimsApart | internal/queue/postgres.go:143-158 | two successful claims of one id, by whomever, are more than a lease apart, or the row was put again, released or deleted in between |
| ClaimTable.Table.TryClaim | internal/queue/postgres.go:161-184 | the conditional update reports success exactly when the history of the table allows the claim, and only then changes the row |
| Claims.MutualExclusion | internal/server/server.go:2215-2254 | with any number of replicas and crashes, a lease of at least twice the timeout and no put that hits a held id, no id is held by two replicas, and claim to settle takes at most two timeouts |
| Claims.LeaseIff | internal/server/server.go:2229-2251 | for any number of worker slots, exclusion holds over all such runs if and only if the lease is at least twice the timeout |
| Claims.ShorterLeaseFails | internal/server/server.go:2229-2251 | for any number of worker slots and any shorter lease, some run without such a put has two replicas on one id |
| Claims.HeldIsSafe | internal/queue/postgres.go:161-184 | whatever is held cannot be claimed by anyone |
| Claims.HeldPutIff | internal/queue/postgres.go:121-131 | a put leaves every held id safe from other replicas if and only if nobody holds its id |
| Claims.HeldPutShares | internal/queue/postgres.go:121-131 | however long the lease, two replicas can hold an id that was put again while held |
| Claims.SettleDecides | internal/server/server.go:2255-2288 | after a settlement as deleted nobody can claim the id until it is put again, after a requeue anybody can at once, and after one that could not be written nobody can within the lease and anybody can after it |
| Claims.SlotsKept | internal/server/server.go:2215-2254 | no replica ever runs more deliveries than it has worker slots |
| Claims.Dispatch | internal/server/server.go:2233-2247 | one turn of the dispatch loop does to the table what the protocol's claim step does, and never yields an id already in flight |
| FileStore.Recovery | internal/store/store.go:80-144 | after any run of operations, restarts and crashes the state is that of its history, and reopening yields the same with at most one operation skipped, the one whose append triggered the latest compaction |
| FileStore.LedgerHolds | internal/store/store.go:80-144 | the history holds every operation of the run except at most one for each time the process ended, each of these the trigger of a compaction; in order and once each, unless a crash tore a compaction apart |
| FileStore.SkipIsReal | internal/store/store.go:103-144 | the operation that fills the log is applied but gone after a restart |
| LogReplay.ReplayTwiceIff | internal/store/store.go:145-304 | a log of the operations that exist can be replayed over a state that already holds it if and only if it deletes whatever it adds and adds no alert and no event, or enough to fill their lists |
| TornLog.TornCompactionIff | internal/store/store.go:121-138 | a crash between writing the snapshot and truncating the log loses and duplicates nothing, the triggering operation included, if and only if whatever the log adds is deleted in it or by the trigger, it adds no alert, or at least 2000, or 1999 with an alert as the trigger and no change an old copy swallows, and no event, or at least 20000, or 19999 with an event as the trigger |
| TornLog.TornReplayIff | internal/store/store.go:80-144 | the same as a statement about replaying any log over the state it led to, followed by one operation |
| TornLog.ListTornIff | internal/store/store.go:145-268 | for one list of documents: if and only if every id the log adds is deleted in it or by the trigger |
| TornLog.AlertsTornIff | internal/store/store.go:269-284 | for the capped list of alerts: if and only if the log adds none, or at least 2000, or 1999 with one more as the trigger and the changes it makes to an alert before adding the next do not show in the end |
| TornLog.LateChangeShows | internal/store/store.go:269-284 | an alert added and changed at once makes the difference |
| LogReplay.ListReplayIff | internal/store/store.go:145-268 | for one list of documents: if and only if every id the log adds it also deletes |
| LogReplay.AlertsReplayIff | internal/store/store.go:269-284 | for the capped list of alerts: if and only if the log adds none, or at least 2000 |
| SeenIndex.AgreeAlongIff | internal/store/store.go:63-144 | over every run of operations, restarts and crashes, list and index of seen events agree at every point if and only if no reopened directory held an id twice within the window |
| SeenIndex.ReopenAgreesIff | internal/store/store.go:63-101 | reopening a directory yields a list and an index that agree exactly when its ids are spaced |
| SeenIndex.AgreeKeptIff | internal/store/store.go:285-299 | event.add keeps list, index and events in agreement exactly when its id is not listed |
| SeenIndex.DedupWindow | internal/store/store.go:285-299 | in every state of any run the list is exactly the last 20000 recorded ids, the events are its last 2000, and an id in the index is in the list; in a spaced run the list is duplicate-free and the index is the list |
| SeenIndex.RecordedTwiceFarApart | internal/store/store.go:593-606 | in a run whose reopened directories were spaced, an id is recorded twice only with at least 20000 recordings in between, less one for each time the process ended |
| SeenIndex.RecordedAtMostOnce | internal/store/store.go:593-606 | in a run whose compactions were not torn and that records at most 20000 events no id is recorded twice and every reopened directory is spaced, however often the process ends |
| SeenIndex.TornCompaction | internal/store/store.go:121-138 | a reachable crash after which one recorded event is listed twice and the index has lost step |
| FileStore.SetDoc | internal/store/store.go:151-160 | the loop replaces the first document with the id, or appends |
| FileStore.ReplaceDoc | internal/store/store.go:197-205 | the loop replaces the first document with the id, or does nothing |
| FileStore.DeleteDoc | internal/store/store.go:185-192 | the loop keeps, in order, every document with another id |
| FileStore.FileBackedStore.constructor | internal/store/store.go:63-101 | opening folds the log over the snapshot and rebuilds the index as specified |
| FileStore.FileBackedStore.ApplyOp | internal/store/store.go:145-304 | the new state and index of every kind of operation |
| FileStore.FileBackedStore.RecordEvent | internal/store/store.go:285-299 | the trimming loop removes from the index exactly the ids it drops from the list |
| FileStore.FileBackedStore.MutateOp | internal/store/store.go:103-144 | append, compact from the state before, then apply |
| FileStore.FileBackedStore.AddEventOnce | internal/store/store.go:593-600 | an indexed id changes nothing, any other is one mutation |
| Occ.NoLostUpdate | internal/store/postgres.go:426-525 | on every interleaving each callback's version is that callback applied to the version just before it, a key is created at most once, and the revision counts the successful writes |
| Occ.WriteCountsIff | internal/store/postgres.go:456-525 | on any interleaving a read-modify-write takes effect exactly when nobody wrote the key since its read, and then adds one version: its callback applied to what it read, or to a blank document |
| Occ.UpsertCounts | internal/store/postgres.go:426-454 | an upsert always adds its version, and a process that died writes nothing any more |
| Occ.RecreatedLooksUnchanged | internal/store/postgres.go:505-535 | deleting a row and writing it again as often as it had versions brings its revision back with any content |
| Occ.CounterCountsWrites | internal/store/postgres.go:194-247 | a counter every callback raises by one counts the successful writes |
| Occ.SameRevisionSameData | internal/store/postgres.go:502-525 | if the revision is still the one read, so is the data |
| Occ.TwinTable.UpdateRevision | internal/store/postgres.go:502-525 | writes one new version if the revision matches, nothing otherwise |
| Occ.TwinTable.InsertIfAbsent | internal/store/postgres.go:210-217 | exactly one racing creator inserts |
| Occ.TwinTable.OccDoc | internal/store/postgres.go:456-483 | the same loop for documents that must exist: not found exactly when a read finds nothing, success no later than in the first attempt during which nobody touches the document, a conflict only if somebody did in all eight |
| Occ.TwinTable.UpdateTwin | internal/store/postgres.go:194-247 | under any interference success adds exactly one version, the callback applied to the version then current, and comes no later than in the first attempt during which nobody else touches the device; a conflict means somebody did in all eight, and adds nothing |
| Campaign.Waves | internal/server/ota_campaign.go:473-525 | after any run a started campaign has selected exactly the first ceil(n * percent / 100) targets, all of them in the last stage, and a completed one has every target committed |
| Campaign.Monotone | internal/server/ota_campaign.go:102-236 | the selection never shrinks and a completed or aborted campaign never changes again |
| Campaign.StageMoves | internal/server/ota_campaign.go:102-160 | the stage moves only by a start, to the first, and by a promotion, to the next |
| Campaign.RefreshDecides | internal/server/ota_campaign.go:560-580 | a refresh aborts exactly when the failed share reaches the threshold with at least one failure, and otherwise completes exactly a running campaign in its last stage whose every device reports committed |
| Campaign.RefreshRule | internal/server/ota_campaign.go:530-580 | in terms of the twins alone: aborted exactly when the devices whose report, for this update or for none in particular, says failed or rolled back are at least one and make up the threshold's share; completed exactly in the last stage of a running campaign when every report says committed; each device is noted as it reports |
| Campaign.RefreshSettles | internal/server/ota_campaign.go:530-587 | a refresh leaves nothing for a second one to do |
| Campaign.AnsweredFresh | internal/server/ota_campaign.go:102-236 | the campaign a start, a promotion or a resumption answers with is up to date if its last write went through |
| Campaign.ResumeUndoesPause | internal/server/ota_campaign.go:193-236 | pausing sets the status of a running campaign that can be saved, and resuming undoes it up to the refresh that follows |
| Campaign.AbortExact | internal/server/ota_campaign.go:560-561 | the floored percentage test loses nothing |
| Campaign.AbortStops | internal/server/ota_campaign.go:170-186 | an abort by an operator or the threshold takes back exactly the requests of selected, registered devices that have not finished, even if the campaign itself cannot be saved |
| Campaign.ClearedExactly | internal/server/ota_campaign.go:240-273 | exactly the matching requests of unfinished devices are taken back, each with one new version of its twin, nothing else changes |
| Campaign.WantIsCeiling | internal/server/ota_campaign.go:477-484 | the wave size is the ceiling, at least one and at most all |
| Campaign.WaveExtends | internal/server/ota_campaign.go:485-525 | the selection loop extends a prefix of the targets by exactly what is needed, or stops on an error with a prefix; it succeeds when every target exists and enough writes succeed |
| Campaign.WaveAdds | internal/server/ota_campaign.go:485-525 | each device a wave adds carries its own update id and the wave's stage and has reported nothing; its twin is asked and one version on, every other twin stays as it is |
| Campaign.StagesRecorded | internal/server/ota_campaign.go:485-525 | over every run each selected device carries the stage that selected it, the first whose share of the targets reaches that far |
| Campaign.ResolveTargets | internal/server/ota_campaign.go:426-469 | the targets are strictly sorted and exactly those meant; an error exactly when a listed device cannot be one |
| Campaign.ValidateInput | internal/server/ota_campaign.go:343-379 | accepts exactly an input with a name that is not blank, sites or devices, strictly increasing percentages in 1..100 that end at 100, a manifest and a policy that pass their own checks, and a threshold in 0..100 |
| Campaign.CampaignServer.ApplyCampaignWave | internal/server/ota_campaign.go:473-525 | the loop over targets and twins does what the specification's wave does |
| Campaign.CampaignServer.RefreshCampaign | internal/server/ota_campaign.go:530-587 | one pass over the devices notes and counts what they report, and the verdict follows from the counts; if it cannot be saved the campaign stays as it was |
| Campaign.CampaignServer.ClearInFlight | internal/server/ota_campaign.go:240-273 | the loop takes back exactly the requests the specification does |
| Campaign.CampaignServer.StartCampaign | internal/server/ota_campaign.go:102-139 | does what the start step does, failing writes included; success means a draft was started on exactly its targets, and any error leaves the campaign as it was |
| Campaign.CampaignServer.PromoteCampaign | internal/server/ota_campaign.go:141-168 | does what the promote step does, failing writes included; the stage moves by one on success and not otherwise |
| Campaign.CampaignServer.PauseCampaign | internal/server/ota_campaign.go:193-213 | pauses exactly a running campaign that can be saved |
| Campaign.CampaignServer.ResumeCampaign | internal/server/ota_campaign.go:215-236 | resumes exactly a paused campaign that can be saved, and refreshes it |
| Campaign.CampaignServer.AbortCampaign | internal/server/ota_campaign.go:170-191 | refused exactly for finished campaigns; otherwise exactly the requests of selected, registered devices that have not finished are taken back, and the campaign is aborted exactly if it can be saved |
| CampaignAbort.AbortStopsIff | internal/server/ota_campaign.go:170-186 | after an abort no twin asks for the update if and only if every twin that did belongs to a selected, registered device that has not finished |
| CampaignAbort.StartLeaves | internal/server/ota_campaign.go:102-139 | a start that fails leaves a device asked that is not selected exactly if its first target is registered and the write to it succeeds; it fails exactly if a target it needs is missing or a write fails; one that goes through leaves none |
| CampaignAbort.PromoteLeaves | internal/server/ota_campaign.go:141-168 | the same for a promotion and the first target it still needs |
| CampaignAbort.NoStrayIff | internal/server/ota_campaign.go:102-236 | over every run no twin asks for a device that is not selected, if and only if no start or promotion fails after it has asked somebody and no twin is set to ask from outside |
| CampaignAbort.AbortCompletes | internal/server/ota_campaign.go:238-273 | such a run can be aborted at any point, and then only selected devices that have finished or are no longer registered are still asked |
| CampaignAbort.AbortLeavesAsked | internal/server/ota_campaign.go:128-186 | any draft: a start that cannot be saved, then an abort, ends aborted with the device still asked |
| CampaignAbort.MissingDeviceLeaves | internal/server/ota_campaign.go:157-186 | with no failing write: a promotion that needs a device which is gone, then an abort, ends aborted with a device still asked |
| CampaignAbort.WaveOkIff | internal/server/ota_campaign.go:485-525 | a wave goes through exactly if every target it needs is registered and every write succeeds |
| CampaignAbort.WaveAsks | internal/server/ota_campaign.go:493-512 | whether or not it goes through, a wave asks exactly the devices it got to select |
| Qos2.InboundExactlyOnce | internal/mqtt/broker.go:276-336 | on any packet sequence the broker holds exactly the open exchanges with their latest content, and has handed on one message for each PUBREL that closed an open exchange (section 4.3.3 of MQTT 3.1.1) |
| Qos2.InboundPerId | internal/mqtt/broker.go:276-336 | packet ids do not interfere |
| Qos2.ComposedExactlyOnce | internal/mqtt/broker.go:276-336 | with a retransmitting sender over FIFO channels that reuses the packet id, messages are handed on exactly once and in order, and every completed one is among them |
| Qos2.NextOutPacketId | internal/mqtt/broker.go:413-425 | returns the first free id in cyclic order, in 1..65535, within 65535 turns |
| Qos2.FewInFlight | internal/mqtt/broker.go:413-425 | fewer than 65535 ids in flight leave a free one |
| Qos2.NoFreeNoReturn | internal/mqtt/broker.go:413-425 | with every id in flight no turn of the loop can end it |
| Qos2.InFlightIff | internal/mqtt/broker.go:445-464 | the in-flight map holds exactly the ids sent and not yet freed |
| Qos2.PhaseIff | internal/mqtt/broker.go:290-309 | an id is past PUBREC exactly when a PUBREC came after its latest PUBLISH |
| Qos2.NeverReusedInFlight | internal/mqtt/broker.go:427-467 | between two PUBLISHes with one id the id was freed |
| Qos2.Client.OnPublish2 | internal/mqtt/broker.go:264-289 | a publisher over its cap or without permission is cut off and nothing is held; otherwise the message is held and PUBREC answered, and nothing is handed on |
| Qos2.Client.OnPubrel | internal/mqtt/broker.go:310-336 | hands a held and permitted message on once; a held message no longer permitted is dropped with the connection; otherwise PUBCOMP is answered whether or not the id was held |
| Qos2.Client.SendPublish2 | internal/mqtt/broker.go:427-467 | takes a free id, registers it before the write, frees it if the write fails |
| Qos2.Client.SendPublish1 | internal/mqtt/broker.go:427-467 | draws from the same counter, avoids the ids in flight, holds nothing |
| Qos2.Client.OnPubrec | internal/mqtt/broker.go:290-309 | answers PUBREL exactly for an id in flight |
| Qos2.Client.OnPubcomp | internal/mqtt/broker.go:337-347 | frees the id |
| PacketIds.NeverReused | internal/mqtt/broker.go:427-467 | with any number of publishers at QoS 1 and 2, if no QoS 2 publisher takes an id when the counter has come round to it while it is held, then between two QoS 2 PUBLISHes that carry one id the id was freed |
| PacketIds.DistinctIff | internal/mqtt/broker.go:411-446 | no two QoS 2 publishers ever hold one id, nor one in flight, if and only if no QoS 2 publisher takes an id when the counter has come round to one still held |
| PacketIds.FreshIff | internal/mqtt/broker.go:411-446 | in mixed traffic every id drawn, at QoS 1 or 2, is neither in flight nor held, if and only if the counter never comes round to an id still held |
| PacketIds.SharesIff | internal/mqtt/broker.go:411-425 | the next id drawn is that of a publisher exactly when the counter has moved a multiple of 65535 since |
| PacketIds.RoundShares | internal/mqtt/broker.go:411-446 | with 65534 ids in flight the last free one goes to two publishers |
| Sessions.Conservation | internal/mqtt/broker.go:150-187 | over every run the matching messages are exactly those handed on live, enqueued or refused by a full queue; what was found on disk followed by what was enqueued is what was replayed followed by what is queued, in order; a live session has no backlog |
| Sessions.ExactlyOne | internal/mqtt/broker.go:170-186 | each matching publish is handed on, enqueued or refused, exactly one of the three, at the QoS of the first matching subscription |
| Sessions.EffectiveExact | internal/mqtt/session.go:76-86 | the first subscription whose filter matches decides: same topic, same payload, the smaller of the two QoS |
| Sessions.EffectiveNone | internal/mqtt/session.go:76-86 | without a matching subscription nothing is delivered |
| Sessions.Unmatched | internal/mqtt/broker.go:170-186 | a publish that no subscription matches changes nothing |
| Sessions.SubscribedIsHanded | internal/mqtt/broker.go:150-168 | a live client gets every message that a subscription it just made matches, topic and payload unchanged |
| Sessions.ConnectReplays | internal/mqtt/session.go:99-111 | connecting replays as much of the backlog as can be written, oldest first, takes just that off the queue, and leaves the session live exactly if all of it was written, with the subscriptions it had |
| Sessions.CleanAndGone | internal/mqtt/session.go:176-185 | a clean connect discards session and backlog; a disconnect ends the connection and keeps both |
| Sessions.RestartBacklog | internal/mqtt/session.go:156-172 | after a restart the backlog is the queued one, up to the one message whose append triggered the latest compaction |
| Sessions.EnqueueAppends | internal/mqtt/session.go:88-94 | an enqueue goes to the back and overwrites nothing |
| Sessions.KeyInjective | internal/mqtt/session.go:88-125 | message keys of different counters differ |
| Sessions.ItoaBuffer | internal/mqtt/session.go:113-125 | twenty bytes filled from the back give the decimal digits of every 64-bit counter |
| Sessions.DropIsPrefix | internal/mqtt/session.go:99-111 | replaying n messages removes exactly the first n |
| Sessions.LiveIff | internal/mqtt/session.go:38-53 | a session is live exactly on the connection that attached last, as long as that one has not detached |
| Sessions.LateDetach | internal/mqtt/session.go:44-53 | however many older connections unwind after it, and in whatever order, the newest one stays live |
| Sessions.PersistentSession.Attach | internal/mqtt/session.go:38-42 | the latest connection to attach is the live one, whatever came before |
| Sessions.PersistentSession.Detach | internal/mqtt/session.go:47-53 | after any history of attaching and detaching, the session is live exactly on the latest connection to attach unless that one has detached |
| Sessions.PersistentSession.Matches | internal/mqtt/session.go:76-86 | the QoS of the first subscription that matches |
| Sessions.PersistentSession.EnqueueMsg | internal/mqtt/session.go:88-94 | one message at the back under the next key, or a refusal that leaves the queue alone |
| Sessions.PersistentSession.Replay | internal/mqtt/session.go:99-111 | sends the backlog in order up to the first write that fails and removes exactly what was sent |
| Router.Match | internal/router/router.go:9-24 | the loop agrees with the recursive reading of `+` and `#` on slash-trimmed levels (section 4.7 of MQTT 3.1.1); `Router.TrimExact` and `Router.LevelsJoin` say what those are |
| Router.MatchesIffPointwise | internal/router/router.go:12-23 | a filter matches exactly when every level fits and either the lengths agree or a final `#` takes the rest |
| Router.SplitJoin | internal/router/router.go:10-11 | splitting at slashes and joining are inverse, and no level holds a slash |
| Router.TrimExact | internal/router/router.go:10-11 | a string is slashes, then its trimmed form, then slashes; the trimmed form neither starts nor ends with one, and a string without outer slashes is its own |
| Router.LevelsJoin | internal/router/router.go:10-11 | the levels of a topic join back to the topic, up to its outer slashes |
| Router.LiteralMatch | internal/router/router.go:9-24 | a filter without wildcards matches one topic only, up to outer slashes |
| PublishCodec.PublishRoundTripIff | internal/mqtt/broker.go:427-606 | the receiver recovers topic, payload, QoS and id and leaves the following bytes alone, exactly when the topic is non-empty and at most 65535 bytes and the body at most 16 MiB |
| PublishCodec.ReadPacketExact | internal/mqtt/broker.go:468-494 | a packet is read exactly when the stream is a type and flag byte, at most four length bytes with the top bit set in all but the last and a value of at most 16 MiB, that many bytes of body, and whatever follows |
| PublishCodec.ParseExact | internal/mqtt/broker.go:588-606 | a PUBLISH is taken exactly when its body is a topic behind its two-byte length, a packet id above QoS 0, and the payload, with a topic that is not empty and a QoS of at most 2 |
| PublishCodec.PublishWire | internal/mqtt/broker.go:427-457 | the bytes sent: type 3, DUP above QoS 0, QoS, no RETAIN, the length of the rest, and a body of that form |
| PublishCodec.RemainingRoundTrip | internal/mqtt/broker.go:473-508 | the remaining length decodes to what was encoded |
| PublishCodec.FourBytesSuffice | internal/mqtt/broker.go:495-508 | it takes at most four bytes for every packet the receiver accepts |
| PublishCodec.PacketRoundTrip | internal/mqtt/broker.go:468-494 | a written packet is read back whole, or refused when its body exceeds 16 MiB |
| PublishCodec.EncodeRemaining | internal/mqtt/broker.go:495-508 | the loop yields the base-128 digits, least first, with a continuation bit on all but the last |
| PublishCodec.ReadPacket | internal/mqtt/broker.go:468-494 | the loop with the growing multiplier agrees with digit-by-digit decoding, errors included |
| PublishCodec.SendPublish | internal/mqtt/broker.go:427-457 | the bytes assembled for a PUBLISH |
| SecureChunk.AsymRoundTrip | connectors/opcua/securechannel_basic256.go:69-189 | for every body, keys of at least 2048 bits, randomness and following bytes, the mirrored receiver reads one chunk of the written length and recovers exactly the body |
| SecureChunk.SymRoundTrip | connectors/opcua/securechannel_basic256.go:104-219 | the same for MSG and CLO chunks, signed or signed and encrypted |
| SecureChunk.DecodeSymExact | connectors/opcua/securechannel_basic256.go:191-219 | a MSG or CLO chunk is accepted, with this body, exactly when it decrypts to eight bytes, the body, its padding field if encrypted, and the MAC of header, token and all of these |
| SecureChunk.DecodeAsymExact | connectors/opcua/securechannel_basic256.go:139-189 | an OPN chunk is accepted, with this body, exactly when its security header names the receiver's certificate or none and starts with the sender's or has none, and the rest decrypts to eight bytes, the body, its padding field, and a signature of header and all of these that verifies |
| SecureChunk.SecHeaderExact | connectors/opcua/securechannel_basic256.go:139-160 | the security header is read exactly when three length-prefixed strings follow the channel id |
| SecureChunk.ReadChunkExact | connectors/opcua/client.go:326-340 | a chunk is read exactly when the stream starts with eight header bytes and as many more as they announce |
| SecureChunk.SymLayout | connectors/opcua/securechannel_basic256.go:104-135 | where type, length, channel, token, sequence number and request id stand in a MSG or CLO chunk |
| SecureChunk.AsymLayout | connectors/opcua/securechannel_basic256.go:69-100 | where type, length, channel, policy, certificate, thumbprint, sequence number and request id stand in an OPN chunk |
| SecureChunk.StreamRoundTrip | connectors/opcua/securechannel_basic256.go:104-219 | any sequence of messages written to one connection is received as the same sequence |
| SecureChunk.StreamAppend | connectors/opcua/securechannel_basic256.go:104-135 | each message on a connection carries the next sequence number and request id, counted modulo 2^32 |
| SecureChunk.LE32Digits | connectors/opcua/securechannel_basic256.go:40-54 | numbers are written as their base-256 digits, least first, and read back |
| SecureChunk.U32Digits | connectors/opcua/client.go:156-163 | reading four bytes and writing the number gives the bytes back |
| SecureChunk.AnnouncedIff | connectors/opcua/securechannel_basic256.go:40-47 | the announced size is right exactly when it fits 32 bits |
| SecureChunk.PaddedWhole | connectors/opcua/crypto_basic256.go:295-311 | data, padding field and signature are a whole number of blocks |
| SecureChunk.StripInvertsIff | connectors/opcua/crypto_basic256.go:295-339 | stripping undoes padding exactly for counts below 256 without the extra byte and below 65536 with it |
| SecureChunk.PaddingFits | connectors/opcua/crypto_basic256.go:295-299 | the padding count of every key from 2048 to 524288 bits fits its field |
| SecureChunk.StripExact | connectors/opcua/crypto_basic256.go:314-339 | a receiver accepts exactly the well-formed paddings and returns what precedes them |
| SecureChunk.MessagePadding | connectors/opcua/crypto_basic256.go:295-311 | the loop builds the field that fills the last block |
| SecureChunk.StripMessagePadding | connectors/opcua/crypto_basic256.go:314-339 | the checking loop accepts and rejects as the padding format says |
| SecureChunk.BlocksRoundTrip | connectors/opcua/crypto_basic256.go:147-181 | the two block loops are inverse, with one key-sized block for each plaintext block |
| SecureChunk.RsaOaepEncrypt | connectors/opcua/crypto_basic256.go:147-164 | the encrypting loop and its errors |
| SecureChunk.RsaOaepDecrypt | connectors/opcua/crypto_basic256.go:167-181 | the decrypting loop: one bad block fails the whole |
| SecureChunk.PSha256 | connectors/opcua/crypto_basic256.go:242-256 | the first bytes of the endless hash chain of section 5 of RFC 5246 |
| SecureChunk.PHashPrefix | connectors/opcua/crypto_basic256.go:242-256 | derived bytes do not depend on how many are asked for |
| SecureChunk.DeriveChannelKeys | connectors/opcua/crypto_basic256.go:275-289 | each key set is 32, 32 and 16 consecutive derived bytes, the nonces swapped between the two |
| SecureChunk.DerivedKeysAgree | connectors/opcua/crypto_basic256.go:275-289 | both ends derive the same keys |
| SecureChunk.SecureSession.WriteAsymmetricMessage | connectors/opcua/securechannel_basic256.go:69-100 | bumps both counters and appends exactly one OPN chunk, or nothing on an error |
| SecureChunk.SecureSession.WriteSymmetricMessage | connectors/opcua/securechannel_basic256.go:104-135 | the same for MSG and CLO chunks |
| Crc.ComputeCrc16 | connectors/modbus/rtu.go:183-196 | the nested loops compute the register function |
| Crc.ShiftLinear | connectors/modbus/rtu.go:187-193 | one shift is linear over exclusive or |
| Crc.ShiftBijective | connectors/modbus/rtu.go:187-193 | one shift is a bijection on 16-bit states |
| Crc.RegisterFeeds | connectors/modbus/rtu.go:183-196 | processing bytes is feeding their bits one at a time |
| Crc.ValidIffZero | connectors/modbus/rtu.go:175-181 | a frame is valid exactly when it has three bytes and its own checksum is zero |
| Crc.AppendedIsValid | connectors/modbus/rtu.go:170-181 | an appended frame has checksum zero, and is valid exactly when the frame was not empty |
| Crc.LeadingZeroShows | connectors/modbus/rtu.go:183-196 | since the register starts from ones, a leading zero byte always changes the checksum |
| Crc.KnownRequest | connectors/modbus/rtu.go:170-196 | the request 01 03 00 00 00 0a gets the checksum bytes c5 cd |
| Crc.BurstRejected | connectors/modbus/rtu.go:170-196 | every change confined to sixteen consecutive bits, checksum included, is rejected, for frames of any length |
| Crc.TwoAdjacentBytesRejected | connectors/modbus/rtu.go:170-196 | every change confined to two adjacent bytes is rejected |
| Crc.OddErrorsRejected | connectors/modbus/rtu.go:170-196 | every change of an odd number of bits is rejected |
| Serial.EveryCutExactIff | connectors/serial/connector.go:202-251 | a stream is framed correctly under every cutting into reads exactly when its delimiter-free runs fit max_frame |
| Serial.ExactIff | connectors/serial/connector.go:202-251 | for a given cutting, frames and buffer are the stream's segments and tail exactly when no read leaves a tail longer than max_frame |
| Serial.Conservation | connectors/serial/connector.go:202-262 | every byte that is not a delimiter is in a frame, in the buffer, or dropped for exceeding max_frame |
| Serial.SegmentsAppend | connectors/serial/connector.go:214-227 | a delimiter-free run and a delimiter add that run, glued to the pending tail, as the next frame |
| Serial.SegmentsClean | connectors/serial/connector.go:253-256 | no frame is empty or holds a delimiter |
| Serial.SegmentsWhole | connectors/serial/connector.go:214-227 | frames and tail together are the stream without its delimiters, byte for byte and in order |
| Serial.SplitBuffer | connectors/serial/connector.go:214-227 | the inner loop over the buffer splits as the byte-at-a-time reading does; a frame the handler refuses ends it, and the frames handed on are those before it |
| Serial.ReadFrames | connectors/serial/connector.go:202-251 | the read loop over any sequence of chunks, up to the first frame the handler refuses |
| Serial.IdleExactIff | connectors/serial/connector.go:202-251 | framing by idle gaps yields exactly the stretches between gaps, and the buffer what came since, if and only if no stretch grows past max_frame |
| Serial.StretchesWhole | connectors/serial/connector.go:202-251 | the stretches and what is pending are everything the port delivered, in order, and no stretch is empty |
| Serial.GapEndsFrame | connectors/serial/connector.go:202-251 | a gap ends a frame that holds exactly what was delivered since the gap before |
| Serial.ReadIdle | connectors/serial/connector.go:202-251 | the read loop in idle mode, up to the first frame the handler refuses |

## Left out

- HTTP handlers, authentication, roles, organisations, the web console, metrics, audit and configuration.
- JSON, times and SQL text: values stand for their encodings, a statement is one atomic step, time is a counter.
- Partial writes, fsync, rename and database errors: an append or a statement happens or does not. The model has lost
  responses, refused queue writes, store writes that fail, and crashes between steps and between the halves of a
  compaction.
- RSA, AES, HMAC and SHA themselves: functions with inverse and length laws, which `SecureChunk.PairExists` and
  `SecureChunk.SuiteExists` show to be consistent.
- StoreForward.NothingLost: event ids made up by the agent are new, and a batch answer with results comes from the
  control plane.
- EdgeAgent.Agent.Flush: the server stays up during a flush; its ends are steps of the system in `StoreForward`.
- EdgeAgent.Agent.AcceptEvent: what a transform makes of an event is a parameter.
- Delivery.DeliveryConservation: the two queues are durable, as in Postgres mode; in file mode the lag of `WalQueue` comes
  on top. Backoff times are not modelled.
- Claims.MutualExclusion: database calls take no time.
- ClaimTable.Table.TryClaim: the error for an empty id or owner and the one-second lease used for a lease of zero or less
  are not modelled.
- LogReplay.ReplayTwiceIff: alerts and events are added under ids that are new, as the callers make them.
- TornLog.TornCompactionIff: likewise.
- Occ.NoLostUpdate: deleting a document and inserting it again is not a step; `Occ.RecreatedLooksUnchanged` shows why it
  matters, and the loops of `Occ.TwinTable` allow for it.
- Campaign.Waves: handlers are atomic, twin writes that fail while an abort takes requests back are not modelled, nor is
  the lifecycle table of single updates.
- Qos2.Client.SendPublish2: taking and registering an id are one step here; `PacketIds` has them apart.
- Sessions.Conservation: connecting with its replay, publishing and disconnecting are atomic, one connection per ClientID,
  and the queue's policy is not drop-oldest.
- SecureChunk.AsymRoundTrip: keys up to 524288 bits, chunks below 4 GiB, policy and certificate below 2 GiB.
- OPC UA sessions, subscriptions and data types, Modbus TCP and polling, J1939, NATS, MQTT CONNECT and SUBSCRIBE parsing,
  transforms, deployments, policy packs and certificates: they would add easier members.
