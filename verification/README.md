# OpenStreamGrid: a verified model

This project models the parts of OpenStreamGrid where correctness depends on state kept over many
steps, and proves in Dafny what those parts promise. `dafny verify dfyconfig.toml` checks everything.

## What is modelled

**Tracker signaling** (`Inventory`, `PeerMirror`, `NeighborViews`, `HubModel`, `HubInvariants`, `HubEffects`,
`HubSaturation`, `HubFlushes`, `HubDivergence`, `HubOwnEntry`, `TrackerHub`). The tracker gives each viewer a bounded set of neighbors, merges inventory reports into
timed batches, and sends each viewer only its share of a batch, a slice of viewers per event-loop turn.
Clients rebuild the audience from the messages they get. `NeighborViews` is the graph class itself, with
its transpose, member array and inverse index, proved against a relation between a view and a fill
report. `HubModel.Next` says what each hub event does to the tracker and which messages it sends;
whatever the code leaves to chance (random neighbors, Map iteration order) is part of the event.
`HubInvariants` proves what every run of these events keeps: who knows whom, and where copies of
inventories are going. `HubEffects` says what each event stores and subscribes, and what becomes of a flush
whose subscribers are gone. `HubSaturation` proves that joins, viewer subscriptions and sweeps leave every
view as full as the bound and the audience allow, over every run, and that clients are told. `HubFlushes` follows a viewer through any run and accounts for every batch it is
sent. `HubDivergence` shows that the invariant on copies is exact: whenever it fails, the hub can come to
rest with a wrong copy. `HubOwnEntry` follows the entry a viewer has for itself. `TrackerHub` is the hub as an object whose
handlers change the subscriber index, the pending batch and the running flush in place; every public
handler is proved to take a step that `Next` allows, so the run theorems hold for it. One broadcast is
modelled, because broadcasts share no state here.

**Peer memory** (`LinkedLru`, `BufferPool`, `NodeCache`). The browser cache is a heap of doubly linked
nodes and a map. The Node cache keeps leased, reference-counted entries over pooled byte arrays that the
pool recycles and wipes in place.

**Fetching** (`HedgedFetch`, `Coalescing`). Asynchronous code becomes steps of a state machine: any
interleaving of timers, settled promises, aborts and consumers is a run. Who wins a race, and what every
consumer of a shared request ends with, is decided by the events of the run.

**Scheduling** (`Scheduler`, `DeadlineScheduler`, `WeightedScheduler`). The validator of untrusted plans,
the batch planner over a scheduler that may answer anything, the deadline wrapper, the latency estimate
and the stateful weighted scheduler.

**Transfer, limits and stores** (`DataChannel`, `PartAssembly`, `RateLimits`, `StoreAgreement`, `StoreEffects`,
`StoreOrder`).
The data channel protocol, low-latency HLS parts (EXT-X-PART, section 4.4.4.9 of draft-pantos-hls-rfc8216bis),
the token buckets, and the in-memory and SQLite stores. `StoreEffects` says what one operation leaves in
either store. `StoreOrder` says exactly when the two stores keep
a peer's segments in one order: for one new inventory, for every delta, and for every run.

`Wrappers`, `ByteStrings` and `Sequences` hold shared definitions.

## Where the code does less than its design suggests

Each of these is kept as the code has it, and the exact condition is proved.

- Three kinds of events can leave clients with wrong inventories for good. A report is not queued while
  nobody receives batches, even if an older batch is pending or a running flush still owes a share
  (tracker/src/websocket.ts:798-800); whoever subscribes before the older update is sent takes a right copy
  that the update then spoils. A peer that rejoins under its id while a sliced flush runs can be given
  segments its predecessor reported. A REST report that appends is published as a replacement
  (tracker/src/server.ts:1498-1499). `HubInvariants.Safe` is the condition on the state and the event.
  `HubDivergence.SafeIffRestsRight` proves it exact: an event is safe if and only if no run that follows it
  without reports or newcomers comes to rest with a wrong copy. `UnsafeEventDiverges` gives such a run for
  every unsafe event in every state whose copies were right so far, and `LostReportIsReachable`, `ReportLostToFlushIsReachable`,
  `RejoinIsReachable` and `LostAppendIsReachable` reach one of each kind from a tracker without connections.
- A viewer's own entry in its copy is never updated: no view contains its own peer, so no batch and no
  announcement names it. `HubOwnEntry.EveryRunFreezesOwnEntry` proves that it stays what the store had when
  the viewer subscribed, so that it is right exactly while the stored inventory is that one;
  `OwnEntryGoesStale` is a run of three events after which it is not.
- The plan validator never looks at the reasons of ranked peers, which the deadline wrapper then copies
  (peer/src/deadline-aware-scheduler.ts:63-66). Over a base scheduler that leaves them out the wrapper
  throws. `DeadlineScheduler.WrapperIsContained` says exactly when it answers with a valid plan, and
  `SafeWrapperIsContained` that the safe call around it turns the throw into the Origin fallback.
- `SegmentCache.set` of the Node peer removes an older segment of the same name before it finds that the
  new one's allocation is larger than the cache, and then refuses it. `NodeCache.SegmentCache.Set` states
  both outcomes.
- A consumer can join a request that was aborted and has not settled. `Coalescing.DesertedIffNobodyJoinsLate`
  shows that exactly such joins end with somebody waiting for aborted work; `LateJoinerIsReachable` is a run.
- The inventory limiter forgets buckets idle for 16 seconds whatever its limit. That changes no answer and
  no later balance exactly when 16 seconds refill a bucket (`RateLimits.ForgettingIsSafeIff`), as with the
  defaults. Of runs of calls whose costs are whole numbers, as the code's are, none gets another answer exactly
  when they do or the burst is less than one (`ForgettingChangesNoAnswerIff`); `SweepChangesAnAnswer` is a run
  of a slower limit in which the sweep changes one.
- A retry-after from the REST limiter is enough exactly when the burst is at least one request
  (`WaitingIsEnoughIff`); an upload chunk can ever be granted exactly when the rate is at least one byte a
  second (`ChunksFitIff`).
- The two stores can keep a peer's segments in different orders, because the in-memory set moves a segment
  that is removed and added again to the end while a rewritten table leaves its row in place. A report keeps
  one order exactly if the stored segments that stay come first in the new inventory, as they were
  (`StoreOrder.NextAgreesIff`; `EveryRunAgreesIff` for all reports of any run). `AlwaysKeepsOrderIff` decides
  for any delta and caps whether some stored inventory comes out in two orders. Where the added segments fit
  the character cap together, one does exactly if the delta adds a segment it removes, except where the caps
  leave no room: with n segments added after the last such one, a store of fewer than (n + 3) / 2 segments,
  or a single added segment beside which no other fits (`OverlapKeepsOtherOrder`). For reports the tracker
  accepts and a store with room for one report there is no exception (`AcceptedOverlapKeepsOtherOrder`). A replacement
  keeps the order of whatever was stored exactly if at most one of its segments is kept
  (`ReplacementsKeepOrderIff`). A report never makes the contents differ by itself (`ContentsAlwaysAgree`), but
  once the orders differ, the caps can drop different segments (`LostOrderReachesContents`).
- A playlist that lists fewer parts than the origin served lets the assembly of a segment settle early.
  `PartAssembly.BeginningIff` says exactly when that yields a proper beginning instead of the segment.

## Model

| member | source | states |
|---|---|---|
| Inventory.MergeAllIsApplyAll | tracker/src/websocket.ts:803-840 | Sending the one merged update of an interval has the effect of sending every report in order |
| Inventory.MergedUpdateAbsorbsPrefixes | tracker/src/websocket.ts:803-840 | A client whose snapshot was taken after any prefix of the interval's reports ends, after the merged update, where a client that saw everything is |
| Inventory.PendingDeltaIsDisjoint | tracker/src/websocket.ts:826-839 | A pending delta never both adds and removes a segment |
| Inventory.ContradictionIsExact | tracker/src/websocket.ts:790-840 | A report left out of the batch is undone by it exactly when the two contradict each other |
| Inventory.ReportDeltaRoundTrip | peer/src/tracker.ts:452-470 | The delta a client computes turns the last reported inventory into the current one, and is empty only if they are equal |
| PeerMirror.ListingIsPatch | peer/src/tracker.ts:593-616 | Applying a batch equals updating every known peer at once, in whatever order the batch lists them |
| PeerMirror.ChunksPartition | tracker/src/websocket.ts:907-922 | Messages of at most 256 updates partition a flush, in order |
| PeerMirror.DeliveredBatchIsPatch | tracker/src/websocket.ts:907-922 | However a flush is cut into messages, the client's copy is patched with every update and nothing else |
| PeerMirror.TrackerClient.HandleMessage | peer/src/tracker.ts:565-602 | The handler, looping over batches, keeps the client's map equal to the replay of its messages |
| PeerMirror.TrackerClient.ReportSegments | peer/src/tracker.ts:452-470 | A report is sent only for a change and a live socket, and brings the tracker to the current inventory |
| NeighborViews.FillReportIsExact | tracker/src/neighbor-views.ts:62-108 | `added`, `reciprocal` and `evicted` are exactly the change a fill makes to all views |
| NeighborViews.FillLinksAreMutual | tracker/src/neighbor-views.ts:93-106 | Every link a fill makes is mutual |
| NeighborViews.FillKeepsWellFormed | tracker/src/neighbor-views.ts:62-108 | Views stay within their size, within the members and free of self-links |
| NeighborViews.FillExists | tracker/src/neighbor-views.ts:62-108 | For any well-formed views there is a report that the fill relation allows, with members that have room first |
| NeighborViews.SampleIsEnough | tracker/src/neighbor-views.ts:71-92 | The sampling budget is large enough: the candidates found always suffice to fill the view, or everyone was examined |
| NeighborViews.JoinKeepsSaturation | tracker/src/websocket.ts:255-268 | A join and its fill leave every member with min(size, members - 1) neighbors |
| NeighborViews.LeaveKeepsSaturation | tracker/src/websocket.ts:270-289 | So does a leave once every loser is refilled |
| NeighborViews.EveryRunIsSaturated | tracker/src/neighbor-views.ts:62-130 | Over every run of joins and leaves from the empty graph, for any random source |
| NeighborViews.NeighborViews.Add | tracker/src/neighbor-views.ts:45-52 | Adds an unlinked member once; transpose and index stay exact |
| NeighborViews.NeighborViews.Sample | tracker/src/neighbor-views.ts:71-92 | The in-place partial shuffle examines distinct members and finds enough candidates within its budget |
| NeighborViews.NeighborViews.Fill | tracker/src/neighbor-views.ts:62-108 | The in-place fill returns a report the fill relation allows, and the views are exactly that report applied; transpose and index stay exact |
| NeighborViews.NeighborViews.Leave | tracker/src/neighbor-views.ts:110-130 | Returns exactly the members that lost the peer; the swap-remove keeps the index exact |
| HubInvariants.NextKeepsPeers | tracker/src/websocket.ts:255-289 | Every event keeps what clients know of the audience, and strands no batch |
| HubInvariants.ClientsMirrorViews | tracker/src/websocket.ts:698-732 | In such a state full-audience clients know all stored peers, and a live viewer knows exactly itself and its view |
| HubInvariants.EveryRunMirrorsViews | tracker/src/websocket.ts:255-289 | That holds after every run of joins, sweeps, subscriptions, reports, timers and slices |
| HubInvariants.EveryRunStrandsNothing | tracker/src/websocket.ts:842-905 | After every run a pending batch has an armed timer, or a running flush that was asked to start it |
| HubInvariants.NextConvergesIffSafe | tracker/src/websocket.ts:790-905 | An event keeps every copy that is held, and every copy that could still be taken from the store, on its way to the stored inventory exactly when it is safe |
| HubInvariants.EverySafeRunConverges | tracker/src/websocket.ts:790-905 | After every safe run, whenever nothing is pending and no flush runs, every copy a client follows (of all peers, or of a viewer's neighbors) is the stored inventory |
| HubInvariants.ReportAbsorbed | tracker/src/websocket.ts:790-840 | Copies taken from the store stay right after a WebSocket report exactly when it is queued, or neither the pending batch nor a share still owed to somebody else undoes it |
| HubInvariants.RestReportKeepsConverging | tracker/src/server.ts:1209-1216 | When the store keeps segments that the published replacement lacks, copies stay right exactly if nobody is subscribed and nothing on its way undoes the report |
| HubInvariants.AdmittedAbsorbed | tracker/src/websocket.ts:875-905 | A newcomer is harmless exactly when the running flush has no segments for its name that it still owes to others, and undoes nothing in the share it may owe to that name |
| HubInvariants.ServedLog | tracker/src/websocket.ts:885-896 | Serving viewers appends each share once, cut into messages, to the log of each socket of its viewer, and nothing to any other log |
| HubInvariants.ServedMirror | tracker/src/websocket.ts:885-896 | So a served viewer's copy becomes the copy patched with the flush restricted to its current view, and no other copy changes |
| HubInvariants.SliceServes | tracker/src/websocket.ts:875-905 | The viewers of a slice are served, and those after it are still to be served |
| HubInvariants.FlushAdvances | tracker/src/websocket.ts:882-905 | Every turn that leaves a flush running has served at least one more viewer, so a flush ends |
| HubEffects.EventStores | tracker/src/websocket.ts:255-289 | Which inventories are stored after each event, in terms of the event and what was stored |
| HubEffects.EventSubscribes | tracker/src/websocket.ts:461-513 | Which sockets are subscribed, as whom and how, after each event |
| HubEffects.ReportsAreHeardAtOnce | tracker/src/websocket.ts:790-801 | A published report goes at once to exactly the immediate subscribers, once; nobody else hears of it before the next flush |
| HubEffects.TurnServesFew | tracker/src/websocket.ts:875-905 | One turn of a flush sends only to sockets of at most the configured number of viewers |
| HubEffects.LastCloseAbandons | tracker/src/websocket.ts:649-666 | When the last subscriber closes, a running flush has lost the index it was started for |
| HubEffects.StaysAbandoned | tracker/src/websocket.ts:875-881 | And stays so whatever happens before its next turn, new subscribers included |
| HubEffects.AbandonedEnds | tracker/src/websocket.ts:875-881 | Its next turn ends it and sends nothing of it |
| HubSaturation.JoinFills | tracker/src/websocket.ts:255-268 | After a join the newcomer has min(size, members - 1) neighbors |
| HubSaturation.SubscribeFills | tracker/src/websocket.ts:461-513 | So has a peer after it subscribes as a viewer |
| HubSaturation.SweepFillsLosers | tracker/src/websocket.ts:270-289 | So has, after a sweep, every peer that lost a neighbor |
| HubSaturation.NextKeepsFull | tracker/src/websocket.ts:255-289 | No event leaves a peer that was full, and stays, with fewer neighbors than that |
| HubSaturation.EveryRunIsSaturated | tracker/src/websocket.ts:255-289 | Over every run of a hub that starts without peers, every stored peer has a view and every view is full |
| HubSaturation.EveryViewerIsTold | tracker/src/websocket.ts:698-732 | So every live viewer has been told of exactly that many others |
| HubFlushes.NextAccounts | tracker/src/websocket.ts:842-905 | Any event sends a subscribed viewer exactly the shares it serves; flushes owed and begun are those served and still owed |
| HubFlushes.EveryFlushArrivesOnce | tracker/src/websocket.ts:842-905 | Over any run in which a socket stays subscribed as a viewer, the flush it was owed and all begun since reach it once each, in order, as listings of the flush restricted to the view of that turn; it is sent no other batch |
| HubFlushes.FlushesArriveAtRest | tracker/src/websocket.ts:842-905 | Between two states without a running flush, the flushes it was served are exactly those begun, in order |
| HubDivergence.ComesToRest | tracker/src/websocket.ts:842-905 | Timers and turns alone bring any hub to rest, with every copy where it was going |
| HubDivergence.ConvergingIffRestsRight | tracker/src/websocket.ts:790-905 | The invariant on copies holds exactly if no run without reports and newcomers comes to rest with a wrong copy |
| HubDivergence.SafeIffRestsRight | tracker/src/websocket.ts:790-905 | So an event is safe exactly if nothing that follows it without further news rests with a wrong copy |
| HubDivergence.UnsafeEventDiverges | tracker/src/websocket.ts:790-905 | After any unsafe report, REST report or join in any such state, a run of subscriptions, departures, timers and turns rests with a wrong copy |
| HubDivergence.LostReportIsReachable | tracker/src/websocket.ts:790-801 | A safe run from two stored peers after which a report that is not queued contradicts the pending batch |
| HubDivergence.ReportLostToFlushIsReachable | tracker/src/websocket.ts:790-905 | A safe run from three stored peers after which such a report contradicts the running flush |
| HubDivergence.RejoinIsReachable | tracker/src/websocket.ts:875-905 | A safe run after which a peer that left rejoins under a name the running flush has segments for |
| HubDivergence.LostAppendIsReachable | tracker/src/server.ts:1209-1216 | A safe run after which a REST append takes a stored segment away from a subscriber |
| HubDivergence.HarmIsDone | tracker/src/websocket.ts:790-905 | From each of these runs and events the hub can come to rest with a wrong copy |
| HubOwnEntry.NextKeepsOwn | tracker/src/websocket.ts:698-721 | Only its own subscription changes a live viewer's entry for its own peer |
| HubOwnEntry.EveryRunFreezesOwnEntry | tracker/src/websocket.ts:461-513 | After every run that entry is what the store had when the viewer subscribed, and right exactly if the store still has that |
| HubOwnEntry.OwnEntryGoesStale | tracker/src/websocket.ts:875-905 | Subscribe, report, timer: the hub rests and the viewer has not its own segment |
| TrackerHub.TrackerWebSocketHub.Join | tracker/src/websocket.ts:255-268 | `peerJoined` in place takes the join step of the state machine |
| TrackerHub.TrackerWebSocketHub.Sweep | tracker/src/websocket.ts:270-289 | `peerLeft` for each peer of a sweep takes the sweep step |
| TrackerHub.TrackerWebSocketHub.Subscribe | tracker/src/websocket.ts:461-513 | The subscribe branch, for all three delivery modes, takes the subscribe step |
| TrackerHub.TrackerWebSocketHub.SetSubscription | tracker/src/websocket.ts:629-647 | Files the socket under its new mode and peer; the index lists exactly the subscriptions |
| TrackerHub.TrackerWebSocketHub.UnindexSubscription | tracker/src/websocket.ts:649-666 | Removes the socket, empty viewer entries, and the index with its last socket |
| TrackerHub.TrackerWebSocketHub.ReportSegments | tracker/src/websocket.ts:543-572 | A report on a socket takes the report step, dropping unchanged replacements |
| TrackerHub.TrackerWebSocketHub.RestReportSegments | tracker/src/server.ts:1209-1216 | A REST report takes its step |
| TrackerHub.TrackerWebSocketHub.QueueInventory | tracker/src/websocket.ts:803-840 | The in-place merge, removals then additions, is the merge of the algebra |
| TrackerHub.TrackerWebSocketHub.SendBatch | tracker/src/websocket.ts:907-922 | The chunk loop sends exactly the messages of the flush |
| TrackerHub.TrackerWebSocketHub.Share | tracker/src/websocket.ts:889-894 | Whichever side is walked, the result lists the flush restricted to the view |
| TrackerHub.TrackerWebSocketHub.FlushInventory | tracker/src/websocket.ts:842-865 | Starts a flush, or asks the running one to start it |
| TrackerHub.TrackerWebSocketHub.SendViewerBatches | tracker/src/websocket.ts:875-905 | One turn of a flush takes the turn step, and the requested flush follows |
| TrackerHub.TrackerWebSocketHub.InventoryTimer | tracker/src/websocket.ts:806-813 | The batch timer takes the timer step |
| TrackerHub.TrackerWebSocketHub.BroadcastRemoved | tracker/src/websocket.ts:331-344 | Removal drops the batch, the views and every subscriber |
| LinkedLru.EvictIsMinimal | sdk/src/cache.ts:66-69 | Eviction keeps the longest recent part that fits, so it drops no more than needed |
| LinkedLru.NewestStays | sdk/src/cache.ts:44-72 | A segment that fits alone is never evicted by its own insertion |
| LinkedLru.StoredIsFound | sdk/src/cache.ts:31-72 | What was stored is found, keys stay distinct, and every other hit was there before |
| LinkedLru.TotalIsLengthOfData | sdk/src/cache.ts:44-72 | The byte total is the length of all held data end to end |
| LinkedLru.SegmentCache.RemoveNode | sdk/src/cache.ts:116-124 | Unlinking keeps prev, next, head and tail a chain of exactly the other nodes |
| LinkedLru.SegmentCache.Prepend | sdk/src/cache.ts:107-114 | Inserting in front keeps the chain |
| LinkedLru.SegmentCache.Get | sdk/src/cache.ts:31-36 | A hit returns the bytes and moves to the front; a miss changes nothing |
| LinkedLru.SegmentCache.Set | sdk/src/cache.ts:44-72 | The recency sequence becomes the new entry in front of the others, less the minimal evicted tail; the byte total is exact |
| BufferPool.SizeClass | peer/src/buffer-pool.ts:75-80 | A size class is the least power of two that holds the request |
| BufferPool.Pool.BucketSize | peer/src/buffer-pool.ts:75-80 | The doubling loop finds the size class |
| BufferPool.Pool.Acquire | peer/src/buffer-pool.ts:27-39 | Lends an allocation of the right class that is in no other hands, and a free one of that class whenever there is one |
| BufferPool.Pool.HasRoomIff | peer/src/buffer-pool.ts:47-61 | There is room exactly while fewer allocations of the class than allowed are free and the bytes of all free ones leave enough |
| BufferPool.Pool.Copy | peer/src/buffer-pool.ts:41-45 | The lent bytes are the source, and free allocations stay zero |
| BufferPool.Pool.Release | peer/src/buffer-pool.ts:47-61 | Takes a view back once; its allocation is wiped and kept exactly when there is room; retained bytes are the true sum and bounded |
| NodeCache.EvictIsMinimal | peer/src/cache.ts:98-102 | Eviction drops the shortest run of oldest entries that makes room |
| NodeCache.NewestStays | peer/src/cache.ts:78-104 | An entry that fits alone survives the eviction it causes |
| NodeCache.SegmentCache.LeaseIsSafe | peer/src/cache.ts:50-66 | In every valid state a lease's bytes are what was stored, and its buffer is in no other hands |
| NodeCache.SegmentCache.Remove | peer/src/cache.ts:140-145 | The entry goes; its buffer goes back only if it is not leased |
| NodeCache.SegmentCache.FoundUntilExpiry | peer/src/cache.ts:117-131 | An entry is a hit exactly while the time is before its storing time plus the time to live, or there is none |
| NodeCache.SegmentCache.Get | peer/src/cache.ts:45-48 | Answers, and keeps the entry, exactly before its storing time plus the time to live; a hit returns the stored bytes and becomes the newest |
| NodeCache.SegmentCache.Lease | peer/src/cache.ts:50-66 | Under the same condition in times a new lease pins the entry, counts once, makes it the newest and disturbs no other |
| NodeCache.SegmentCache.Has | peer/src/cache.ts:68-76 | Under the same condition in times a segment is reported; an expired entry is removed, and the order stays |
| NodeCache.SegmentCache.Release | peer/src/cache.ts:56-64 | A second release does nothing; the last release of an evicted entry gives its buffer back |
| NodeCache.SegmentCache.Set | peer/src/cache.ts:78-104 | Says exactly when a segment is stored and which entries remain, and keeps every leased entry |
| NodeCache.SegmentCache.EvictExpired | peer/src/cache.ts:133-138 | Exactly the entries stay whose storing time plus the time to live is still to come |
| NodeCache.SegmentCache.LookUp | peer/src/cache.ts:117-138 | Over any number of lookups and expiry rounds an entry stays exactly while each one that concerns it comes before the end of its time to live |
| NodeCache.SegmentCache.SetThenLookUp | peer/src/cache.ts:78-138 | What was stored is found, byte for byte, at every time before its storing time plus the time to live, and never from then on, whatever is looked up in between |
| HedgedFetch.RaceStaysConsistent | peer/src/fetcher.ts:895-1000 | Every step of a race keeps one winner, whose bytes it delivers; a peer failure starts Origin; failure without abort means both failed |
| HedgedFetch.StepsRunOut | peer/src/fetcher.ts:895-1000 | Every step uses up one of finitely many, so a race ends |
| HedgedFetch.NeverStuck | peer/src/fetcher.ts:949-993 | An undecided race can go on without an abort, and after a peer failure without the hedge timer |
| HedgedFetch.DecidedOnce | peer/src/fetcher.ts:949-1000 | Once decided, late results change neither the winner nor the byte counts |
| HedgedFetch.EveryRunCountsExactly | peer/src/stats.ts:21-39 | Over every interleaving of any number of fetches the counters equal the sum of what the fetches amount to, successes and failures together never exceed requests, and the success rate is in [0, 1] |
| HedgedFetch.EveryRunIsSafe | peer/src/fetcher.ts:895-1062 | What holds of each race after every run |
| HedgedFetch.RaceEndsIff | peer/src/fetcher.ts:949-1000 | Over every interleaving: a source wins with these bytes exactly if the loop takes up its delivery before any abort; the fetch fails exactly if both attempts were taken up as failed; it stops exactly if something is taken up after an abort |
| HedgedFetch.CountsWhatIsDecided | peer/src/fetcher.ts:949-1000 | A step counts exactly the win it decides, with its bytes, the peer failure it sees and the Origin request it starts |
| HedgedFetch.PlainFallsBack | peer/src/fetcher.ts:298-335 | A fetch without a hedge turns to Origin exactly when its peer failed unaborted, and counts what it got |
| HedgedFetch.SuccessRateIsShare | peer/src/stats.ts:14-18 | The success rate times the requests is the successes, and 1 before the first request |
| Coalescing.NextStaysSound | peer/src/fetcher.ts:825-893 | Every event keeps one open request per segment and exact consumer sets |
| Coalescing.NextOutcome | peer/src/fetcher.ts:862-892 | A delivery resolves a waiting consumer exactly if its request succeeded and rejects it otherwise; only giving up and a stop close it besides |
| Coalescing.FetchWaits | peer/src/fetcher.ts:208-228 | A fetch adds one consumer, waiting for the open request of its segment, and starts a request only if there is none |
| Coalescing.OthersAreLeftAlone | peer/src/fetcher.ts:862-892 | Deliveries and aborts touch no other consumer and no request beyond who waits for it |
| Coalescing.OutcomeIff | peer/src/fetcher.ts:825-893 | Over every run a consumer is resolved exactly if the first thing that closed it was the result of a request that succeeded, and rejected exactly if that was a failed result, its own abort, or a stop while its request was open |
| Coalescing.ResultIff | peer/src/fetcher.ts:825-847 | Over every run a request has the result it was settled with |
| Coalescing.UndisturbedGetTheResult | peer/src/fetcher.ts:825-893 | A consumer that never gives up, in a run without a stop, ends with the result its request was settled with, exactly once that was delivered |
| Coalescing.OneRequestPerSegment | peer/src/fetcher.ts:219-228 | Two open requests never fetch the same segment |
| Coalescing.SettlesOnce | peer/src/fetcher.ts:862-892 | A consumer's outcome is final |
| Coalescing.NobodyIsForgotten | peer/src/fetcher.ts:862-892 | A waiting consumer's work is open, or its result can be delivered |
| Coalescing.AbortsOnlyTheDeserted | peer/src/fetcher.ts:864-881 | A stop aborts all open work; otherwise work is aborted exactly when its last consumer gives up before it settles |
| Coalescing.DesertedIffNobodyJoinsLate | peer/src/fetcher.ts:219-228 | Nobody waits for aborted work after an event exactly if the event is not a late join |
| Coalescing.EveryRunIsSound | peer/src/fetcher.ts:208-228 | All of this over every run |
| Coalescing.LateJoinerIsReachable | peer/src/fetcher.ts:219-228 | A run in which a consumer waits for aborted work |
| Scheduler.ValidateSchedulerPlan | common/src/scheduler.ts:102-424 | The validator reports no failure exactly for the plans that satisfy the declarative plan predicate |
| Scheduler.ValidPlansAreSafe | common/src/scheduler.ts:176-424 | A valid plan selects distinct candidates other than this peer that advertise the segment, as many as the mode and the parallelism allow, with no hedge beyond the slack |
| Scheduler.RanksArePermutation | common/src/scheduler.ts:264-328 | Ranks in range without repetition are exactly the permutations of 1..n |
| Scheduler.CheckPeerIds | common/src/scheduler.ts:176-254 | The checks on selected peers are exact |
| Scheduler.CheckExecution | common/src/scheduler.ts:330-423 | The checks on execution hints are exact |
| Scheduler.PlanSegmentSafely | common/src/scheduler.ts:429-462 | The plan is the scheduler's own exactly if it answered with a valid one, and the Origin fallback otherwise |
| Scheduler.Dedupe | common/src/scheduler.ts:483-485 | Each segment once, at its first position, with its last request |
| Scheduler.PlanBatch | common/src/scheduler.ts:468-551 | Over an arbitrary scheduler: every distinct request once, in reverse first-occurrence order; each goes to the first peer of the scheduler's answer exactly if that is valid and not for Origin, asked with the candidates its wave has not assigned yet; peers are distinct in every wave |
| Scheduler.AvailableIsFilter | common/src/scheduler.ts:495-498 | Those candidates are the ones not taken, in their order |
| Scheduler.SyntheticDeadlineIs | common/src/scheduler.ts:506-516 | The deadline asked with is the segments ahead times the segment duration, or none |
| Scheduler.ConcurrentPeersAreDistinct | peer/src/fetcher.ts:385-412 | The slices that the fetcher runs concurrently never use a peer twice |
| DeadlineScheduler.WrapperIsContained | peer/src/deadline-aware-scheduler.ts:55-190 | For any base scheduler the wrapper answers with a valid plan exactly if the request is well formed and Origin is chosen or all ranked entries have reasons; it throws exactly if neither is the case |
| DeadlineScheduler.ReasonsAreNotValidated | common/src/scheduler.ts:256-318 | A plan without reasons that passes the validator and makes the wrapper throw |
| DeadlineScheduler.SafeWrapperIsContained | peer/src/fetcher.ts:533-540 | Behind the safe call a throw becomes the Origin fallback, and the plan used is valid exactly if the request is well formed |
| DeadlineScheduler.HedgeLeavesOriginTime | peer/src/deadline-aware-scheduler.ts:117-143 | Hedge delay, Origin estimate and safety margin fit the slack together, and the delay is the longest that does, up to the maximum |
| DeadlineScheduler.KeepsThePeers | peer/src/deadline-aware-scheduler.ts:55-190 | Unless Origin is chosen the plan is the base plan with the wrapper's hints, hedged exactly when Origin's latest safe start lies within the probe window |
| DeadlineScheduler.OriginAtOnce | peer/src/deadline-aware-scheduler.ts:103-172 | Peers are skipped exactly when the slack leaves no time or the base scheduler gives none |
| DeadlineScheduler.ObservedIsBetween | peer/src/origin-latency-estimator.ts:62-71 | A sample moves the estimate towards itself, never past it, and inside the bounds |
| DeadlineScheduler.OriginLatencyEstimator.Observe | peer/src/origin-latency-estimator.ts:62-71 | The estimate stays bounded after every observation |
| WeightedScheduler.ScoresAreShares | peer/src/weighted-score-scheduler.ts:51-70 | Scores are in [0, 1] for any metrics |
| WeightedScheduler.ScoreEnds | peer/src/weighted-score-scheduler.ts:51-70 | The best metrics score 1 and the worst 0 |
| WeightedScheduler.ScoreMoves | peer/src/weighted-score-scheduler.ts:51-70 | Within the ranges the score changes by 0.3 a second of latency, 0.3 the success rate, 0.2 the share of the largest bandwidth and 0.2 the trust |
| WeightedScheduler.OutsideCountsAsBound | peer/src/weighted-score-scheduler.ts:51-70 | A metric outside its range counts as the nearest bound |
| WeightedScheduler.BetterScoresHigher | peer/src/weighted-score-scheduler.ts:51-70 | A peer no worse in any respect scores no worse |
| WeightedScheduler.StrictlyBetterScoresHigher | peer/src/weighted-score-scheduler.ts:51-70 | A peer no worse in any respect and better in one scores higher |
| WeightedScheduler.SelectingIsValid | peer/src/weighted-score-scheduler.ts:160-176 | A plan that ranks eligible peers passes the validator |
| WeightedScheduler.WeightedScoreScheduler.PlanSegment | peer/src/weighted-score-scheduler.ts:112-177 | Ranks exactly the eligible, trusted peers, each once, by score relative to the largest bandwidth among them: a peer better in one metric and worse in none is in front, equal peers keep their order; selects the first, smooths in each eligible peer's metrics once, and the plan is valid for any history |
| WeightedScheduler.SmoothingMoves | peer/src/weighted-score-scheduler.ts:45-49 | Every metric moves by 0.3 of its distance to what was observed |
| WeightedScheduler.WeightedScoreScheduler.MetricsFor | peer/src/weighted-score-scheduler.ts:225-244 | Smoothing keeps every metric in range |
| WeightedScheduler.WeightedScoreScheduler.ObservePeer | peer/src/weighted-score-scheduler.ts:179-202 | An observation moves only its peer's metrics, each by 0.3 of its distance to what was observed: success or failure, the measured rate, and no trust after an integrity failure; all stay in range |
| RateLimits.GrantedWasEarned | tracker/src/inventory-limits.ts:57-75 | What a bucket grants over a run was in it or was earned since |
| RateLimits.AnyIntervalIsBounded | tracker/src/websocket.ts:742-754 | Over any interval of any run at most the burst plus the rate times its length is granted |
| RateLimits.ForgettingIsSafeIff | tracker/src/inventory-limits.ts:77-84 | Forgetting idle buckets changes no answer and no later balance exactly when the idle time refills any bucket |
| RateLimits.ForgettingChangesNoAnswerIff | tracker/src/inventory-limits.ts:57-84 | Over every later run of calls with whole costs, forgetting an idle bucket changes no answer exactly when the idle time refills any bucket, or the burst is less than one |
| RateLimits.SweepChangesAnAnswer | tracker/src/inventory-limits.ts:57-84 | A run of 1024 calls under a slower limit whose last answer the sweep changes |
| RateLimits.IdleRefillsInventory | tracker/src/inventory-limits.ts:15-20 | The default constants satisfy that |
| RateLimits.StandForCharged | tracker/src/inventory-limits.ts:64-75 | A forgotten full bucket answers as if it had been kept |
| RateLimits.InventoryRateLimiter.Consume | tracker/src/inventory-limits.ts:57-84 | For any limit, each call sweeps and charges as specified; while idle buckets refill, its answer is that of a limiter that never forgets |
| RateLimits.IpRateLimiter.Consume | tracker/src/server.ts:464-495 | The same for REST requests, with the retry time |
| RateLimits.TwiceRefills | tracker/src/server.ts:467-472 | The idle cutoff refills any bucket, whatever the limit |
| RateLimits.WaitingIsEnoughIff | tracker/src/server.ts:484-495 | Waiting as told makes the next request succeed exactly when the burst holds a request |
| RateLimits.WaitingLessIsNotEnough | tracker/src/server.ts:484-495 | No shorter wait of whole seconds would do |
| RateLimits.MaximumChunkBytes | peer/src/bandwidth-limiter.ts:15-17 | The chunk size is the largest whole number of bytes within the rate, from 1 to 64 KiB |
| RateLimits.ChunksFitIff | peer/src/bandwidth-limiter.ts:15-17 | The largest chunk fits the bucket exactly when the rate is at least one byte a second |
| RateLimits.WaitingGrantsChunk | peer/src/bandwidth-limiter.ts:27-30 | A chunk that fits is granted exactly once the missing tokens have been earned |
| RateLimits.BandwidthLimiter.TryConsume | peer/src/bandwidth-limiter.ts:19-46 | One turn of the wait loop charges the shared bucket or says how long to wait |
| RateLimits.Chunks | peer/src/uploader.ts:192-203 | Chunks tile the data in order and respect the limiter's chunk size |
| StoreAgreement.LimitedIsLongestSuffix | tracker/src/store-utils.ts:93-107 | The caps keep the longest suffix that fits both |
| StoreAgreement.LimitInventory | tracker/src/store-utils.ts:93-107 | The backward loop computes that suffix |
| StoreAgreement.DeltasAgree | tracker/src/sqlite-store.ts:615-649 | For deltas with disjoint parts the rewritten rows are the in-memory sequence, in order |
| StoreAgreement.AppendsAgree | tracker/src/sqlite-store.ts:581-613 | For append reports too |
| StoreAgreement.ContentsAlwaysAgree | tracker/src/sqlite-store.ts:587-607 | Whatever the new inventory of a report is, the rewritten rows hold the same set |
| StoreAgreement.WrittenReadsBack | tracker/src/sqlite-store.ts:627-647 | Reading the rows back gives the returned order, and other peers' rows are untouched |
| StoreAgreement.EveryRunAgrees | tracker/src/store.ts:234-293 | Over every run of joins, reports, deltas, leaves and sweeps both stores hold the same peers, inventories in the same order, and traffic |
| StoreAgreement.DeparturesConserveTraffic | tracker/src/store.ts:343-394 | Leaves and sweeps change no traffic total of a broadcast in either store, and the two totals agree |
| StoreAgreement.GlobalTotalsAgree | tracker/src/sqlite-store.ts:748-751 | Added up broadcast by broadcast or over all rows, the global totals of the stores agree |
| StoreAgreement.SweepsConserveGlobalTraffic | tracker/src/store.ts:343-381 | A sweep over all broadcasts changes neither store's global total |
| StoreAgreement.MemoryStore.ApplySegmentDelta | tracker/src/store.ts:280-293 | The in-memory operation, for known and unknown peers |
| StoreAgreement.MemoryStore.RemoveStalePeers | tracker/src/store.ts:343-356 | Exactly the peers last seen at the cutoff or later stay; the others are retired one by one, keeping their traffic |
| StoreAgreement.SqliteStore.WriteSegments | tracker/src/sqlite-store.ts:629-639 | Deleting unwanted and inserting missing rows gives the rewritten table |
| StoreAgreement.SqliteStore.ApplySegmentDelta | tracker/src/sqlite-store.ts:615-649 | The SQLite operation; what it returns is what reading back gives |
| StoreAgreement.SqliteStore.ReportSegments | tracker/src/sqlite-store.ts:581-613 | Appends and replacements: the whole new table and last-seen times; what it returns is what reading back gives |
| StoreAgreement.SqliteStore.RetirePeer | tracker/src/sqlite-store.ts:866-872 | Adds the peer's traffic to the retired row and deletes its rows |
| StoreAgreement.SqliteStore.RemoveStalePeers | tracker/src/sqlite-store.ts:723-734 | Exactly the peers last seen at the cutoff or later stay; the others are retired one by one, keeping their traffic |
| StoreEffects.MemoryReport | tracker/src/store.ts:262-293 | A report leaves its update applied to the inventory, cut to the newest segments within the caps, its peer seen now and nothing else of it changed |
| StoreEffects.DiskReport | tracker/src/sqlite-store.ts:581-649 | The same holds of the set of rows |
| StoreEffects.FittingReportIsApplied | tracker/src/store-utils.ts:93-107 | Where the result fits the caps, the stored inventory is the update applied whole, as the hub and its clients apply it |
| StoreEffects.JoinLeaveAndStats | tracker/src/store.ts:195-241 | A join keeps what is known of the peer, a leave forgets it, statistics replace its traffic |
| StoreEffects.OthersAreUntouched | tracker/src/store.ts:234-326 | An operation on one peer leaves everything of the others in both stores |
| StoreEffects.UnknownIsRefused | tracker/src/sqlite-store.ts:850-864 | An operation on a peer that is not known changes nothing in either store |
| StoreEffects.SweepSparesTheRecent | tracker/src/store.ts:343-356 | A sweep spares exactly the peers last seen at the cutoff or later, in both stores, and all that is known of them |
| StoreOrder.OrderKeptIff | tracker/src/sqlite-store.ts:629-645 | For any new inventory, also a replacement: the rewritten rows give it in the in-memory order exactly if the stored segments that stay come first in it, as they were |
| StoreOrder.ReplacementsKeepOrderIff | tracker/src/sqlite-store.ts:581-607 | A replacement keeps the order of whatever was stored exactly if at most one of its segments is kept |
| StoreOrder.AlwaysKeepsOrderIff | tracker/src/store.ts:280-293 | For any delta and caps: every stored inventory within the caps comes out in one order exactly if no segment that is both removed and added can be stored in front of others that stay and end up behind another |
| StoreOrder.OverlapKeepsOtherOrder | tracker/src/store.ts:280-293 | For any delta whose added segments fit the character cap: every stored inventory comes out in one order exactly if nothing is both removed and added, or the caps leave no room (a condition on the delta and the caps alone) |
| StoreOrder.AcceptedOverlapKeepsOtherOrder | tracker/src/inventory-limits.ts:22-37 | For reports within the tracker's own limits that condition is exactly that nothing is both removed and added |
| StoreOrder.NextAgreesIff | tracker/src/sqlite-store.ts:581-649 | Two stores that agree still agree after an operation exactly if it keeps the stored segments in front |
| StoreOrder.EveryRunAgreesIff | tracker/src/store.ts:234-293 | Over any run, replacements and overlapping deltas included: the stores agree after every operation exactly if each keeps the stored segments in front |
| StoreOrder.LostOrderReachesContents | tracker/src/store-utils.ts:93-107 | A run of four operations after which the two stores hold different segments |
| PartAssembly.PartsTile | origin/src/ll-hls.ts:31-40 | Parts tile the segment in order, up to the next boundary and in all |
| PartAssembly.PartsAreEven | origin/src/ll-hls.ts:31-40 | Parts start on 188-byte packets and hold one of two neighboring packet counts; the last also takes the rest |
| PartAssembly.Assembly.Assemble | sdk/src/hls-plugin.ts:714-773 | Waits until the playlist lists the segment with at most as many parts as were loaded, settles once, and yields the joined parts exactly when no index is missing |
| PartAssembly.Join | sdk/src/hls-plugin.ts:731-737 | The buffer copy loop concatenates the parts |
| PartAssembly.JoinsToBeginning | sdk/src/hls-plugin.ts:714-737 | Whatever served parts were loaded, a result is the beginning of the segment |
| PartAssembly.ResultsAre | sdk/src/hls-plugin.ts:679-737 | Whatever the playlist lists at each load: the first load that finds the segment listed with no more parts than were loaded decides, and the only result is the segment up to the end of the loaded indexes, if these have no gap |
| PartAssembly.RoundTrip | sdk/src/hls-plugin.ts:679-737 | However early or late the playlist lists the segment, with all its parts: parts loaded in any order, with repeats, give exactly one result, the original segment, if some load finds it listed and every part loaded, and none otherwise |
| PartAssembly.BeginningIff | sdk/src/hls-plugin.ts:714-737 | The result is the original, nothing, or a proper beginning; exactly which follows from the indexes loaded when it settles, and a beginning takes a playlist that lists fewer parts than were served |
| DataChannel.AnyFramesAreContained | peer/src/webrtc-transport.ts:730-830 | Against any frames the receiver resolves only with data of the length declared last, acknowledges at most once, and buffers at most the limit and one chunk |
| DataChannel.DeliveredIffWithinLimit | peer/src/webrtc-transport.ts:605-637 | A segment arrives byte for byte and is acknowledged exactly if it is the one asked for and within the limit; an empty one too |
| DataChannel.ResolvesWithWhatArrived | peer/src/webrtc-transport.ts:736-819 | Against any frames the receiver resolves only with the bytes of all chunks that arrived, in order, under metadata that names its segment with their number and length |
| DataChannel.ServeSegment | peer/src/webrtc-transport.ts:613-633 | The send loop produces the frames of the protocol |
| DataChannel.SegmentReceiver.OnMessage | peer/src/webrtc-transport.ts:736-819 | The message handler takes the protocol's step and stays within its bounds |
| DataChannel.SlotsAreExact | peer/src/webrtc-transport.ts:517-561 | However timeouts, state changes and completions race, the upload counter is the number of unfinished uploads, within the maximum |
| DataChannel.OffersAreServedIff | peer/src/webrtc-transport.ts:517-561 | An offer is served exactly while fewer uploads than the maximum are unfinished; finishing twice is finishing once |

## Left out

- Several broadcasts: one is modelled; broadcasts share only the timers of the process.
- Store caps in the hub model: reports are assumed to fit the caps (`StoreAgreement` models them); with a report over the caps the store keeps less than clients are told.
- Slow or failing sockets: every message to an open socket arrives, in order; termination for backpressure is left out.
- `neighborViewSize` 0 (views switched off), the WebRTC relay, heartbeats, session tokens, upgrade checks and the dashboard: no effect on what is proved.
- NeighborViews.FillLinksAreMutual: links are mutual when a fill makes them, but an eviction removes one direction only; neither symmetry nor an in-degree bound holds.
- NeighborViews.EveryRunIsSaturated: a sweep is one event; between the departures of one sweep a refill can pick a peer that is about to be announced as gone.
- HubDivergence.RejoinIsReachable: like ReportLostToFlushIsReachable, it is a concrete run for slices of one viewer; the statements about unsafe events hold for every slice size.
- HubInvariants.EveryRunMirrorsViews: a viewer's copy is claimed only for sockets whose peer has not left since they subscribed, because sockets outlive a leave.
- PeerMirror.TrackerClient.HandleMessage: peers are their id and inventory; addresses, quality metrics, parsing and messages of other broadcasts are left out. sdk/src/ws-client.ts has the same handlers and is not modelled twice.
- HedgedFetch and Coalescing are step machines on values, not classes: their methods suspend in the middle, which a Dafny method cannot. The browser's hedged load (sdk/src/hls-plugin.ts:1342-1426) is not modelled.
- HedgedFetch.EveryRunCountsExactly: fallback and integrity counters are left out; they never touch the ones modelled.
- LinkedLru.SegmentCache.Set: keys keep no insertion order of their own, so the order `keys()` lists them in is not stated.
- NodeCache.SegmentCache.Set: the cache has its pool to itself, as every constructor call in the repository gives it.
- Scheduler.ValidateSchedulerPlan: which code is reported for which failure is not stated, only that there is none exactly for valid plans; getters or proxies that change a plan between reads are left out.
- DeadlineScheduler.WrapperIsContained: reasons are only iterable or not, their text is left out; the deadline of a typed request is an object; sdk/src/deadline-aware-scheduler.ts wraps the same way over an estimate that is not clamped and is not modelled.
- WeightedScheduler.WeightedScoreScheduler.PlanSegment: metrics are finite reals; sdk/src/trust-latency-probe-scheduler.ts only filters, sorts and slices.
- RateLimits: clocks do not go back; the WebSocket message budget is the same bucket with 20 messages a second and a burst of 40. The Node WebRTC upload limiter needs a rate of at least one 16 KiB chunk a second.
- StoreAgreement.EveryRunAgrees: its runs hold no replacement and no overlapping delta (`StoreOrder.EveryRunAgreesIff` covers all runs); heartbeats, trust penalties and the join limit of a broadcast change no inventory or traffic. Grouped SQLite commits are atomic.
- PartAssembly.Assembly.Assemble: hashing, playlist parsing and the cap of remembered assemblies are left out. A proper beginning, where `BeginningIff` allows one, is rejected by the published hash.
- DataChannel.DeliveredIffWithinLimit: ICE, timeouts and buffer watermarks are left out; they delay or end a transfer but change no frame.
- PeerFailureConsensus and peer quality penalties: a window count and two subtractions, without a property that spans operations.
