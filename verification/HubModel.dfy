/**
 The tracker's WebSocket fan-out for one broadcast as a state machine (tracker/src/websocket.ts).

 `Next` says what each event does to the hub and which messages it sends. What an event leaves
 open in the code (random numbers, iteration order of a Map) is part of the event, and `Enabled`
 says which choices the code can make. Broadcasts share nothing here, so one is enough.
 */
module HubModel {
  import opened Wrappers
  import opened Inventory
  import opened NeighborViews
  import opened PeerMirror
  import opened Sequences

  type Socket = nat

  datatype Mode = Immediate | Batched | Viewer

  datatype Subscription = Subscription(peerId: PeerId, mode: Mode)

  /** Merged updates waiting for their timer; `armed` while that timer has not fired. */
  datatype Batch = Batch(updates: map<PeerId, Update>, armed: bool)

  /** A flush that serves `viewerIds` slice by slice. `subscribers` names the subscriber index it was started for. */
  datatype Flush = Flush(subscribers: nat, updates: map<PeerId, Update>, viewerIds: seq<PeerId>, next: nat)

  datatype Config = Config(viewSize: nat, viewersPerTurn: nat)

  ghost predicate ValidConfig(c: Config) { 0 < c.viewSize && 0 < c.viewersPerTurn }

  /**
   `store` is the tracker's inventory of every stored peer. `generation` names the current
   subscriber index: the code drops the index when its last socket leaves and compares
   identities later. `log` holds every message sent to a socket. `live` records the
   neighbor-view sockets whose peer has not left since they subscribed.
   */
  datatype Hub = Hub(
    store: map<PeerId, set<Segment>>,
    views: Views,
    subs: map<Socket, Subscription>,
    generation: nat,
    pending: Option<Batch>,
    strayTimers: nat,
    flush: Option<Flush>,
    flushRequested: bool,
    log: map<Socket, seq<Message>>,
    live: set<Socket>)

  /** A tracker that starts with a restored store and no connections. */
  function Start(store: map<PeerId, set<Segment>>): Hub {
    Hub(store, map[], map[], 0, None, 0, None, false, map[], {})
  }

  // ---- Subscribers and messages ----

  function Sockets(h: Hub, m: Mode): set<Socket> { set s | s in h.subs && h.subs[s].mode == m }

  /** Everybody who is told of every peer: all subscribers but the neighbor-view ones. */
  function Audience(h: Hub): set<Socket> { set s | s in h.subs && h.subs[s].mode != Viewer }

  function ViewerSockets(h: Hub, p: PeerId): set<Socket> { set s | s in h.subs && h.subs[s] == Subscription(p, Viewer) }

  function ViewerIds(h: Hub): set<PeerId> { set s | s in h.subs && h.subs[s].mode == Viewer :: h.subs[s].peerId }

  function Log(h: Hub, s: Socket): seq<Message> { if s in h.log then h.log[s] else [] }

  /** What the client behind a socket knows once everything sent to it has arrived. */
  function MirrorOf(h: Hub, s: Socket): Mirror { Replay(Log(h, s)) }

  function Send(h: Hub, to: set<Socket>, messages: seq<Message>): Hub {
    h.(log := map s | s in h.log.Keys + to :: if s in to then Log(h, s) + messages else h.log[s])
  }

  /** A message for the neighbor-view sockets of one peer. */
  datatype Notice = Notice(viewer: PeerId, message: Message)

  function SendNotices(h: Hub, notices: seq<Notice>): Hub
    decreases |notices|
  {
    if notices == [] then h
    else SendNotices(Send(h, ViewerSockets(h, notices[0].viewer), [notices[0].message]), notices[1..])
  }

  // ---- Neighbor views ----

  /** Views start with everybody in the store, nobody linked, when somebody first asks for them. */
  function Seeded(h: Hub): Views { if h.views == map[] then map p | p in h.store :: {} else h.views }

  function AddedNotices(h: Hub, p: PeerId, added: seq<PeerId>): seq<Notice> {
    if added == [] then []
    else if added[0] !in h.store then AddedNotices(h, p, added[1..])
    else [Notice(p, PeerJoined(added[0], h.store[added[0]]))] + AddedNotices(h, p, added[1..])
  }

  function ReciprocalNotices(h: Hub, p: PeerId, watchers: seq<PeerId>): seq<Notice> {
    if watchers == [] || p !in h.store then []
    else [Notice(watchers[0], PeerJoined(p, h.store[p]))] + ReciprocalNotices(h, p, watchers[1..])
  }

  function EvictedNotices(evicted: seq<Eviction>): seq<Notice> {
    if evicted == [] then []
    else [Notice(evicted[0].watcher, PeerLeft(evicted[0].peerId))] + EvictedNotices(evicted[1..])
  }

  /** Links that appeared become arrivals, dropped ones departures, each for the viewer whose view changed. */
  function AnnounceFill(h: Hub, p: PeerId, f: NeighborViewFill): Hub {
    SendNotices(SendNotices(SendNotices(h, AddedNotices(h, p, f.added)), ReciprocalNotices(h, p, f.reciprocal)),
                EvictedNotices(f.evicted))
  }

  /** `fill`, then `announceFill`. */
  function FillAndAnnounce(h: Hub, p: PeerId, f: NeighborViewFill): Hub {
    AnnounceFill(h.(views := AfterFill(h.views, p, f)), p, f)
  }

  // ---- Joins, departures and subscriptions ----

  function JoinPeer(h: Hub, p: PeerId, f: NeighborViewFill): Hub {
    var h1 := h.(store := h.store[p := {}]);
    var h2 := Send(h1, Audience(h1), [PeerJoined(p, {})]);
    FillAndAnnounce(h2.(views := Added(Seeded(h2), p)), p, f)
  }

  /** A peer that left, the peers that lost it as a neighbor, and their refills. */
  datatype Departure = Departure(peer: PeerId, losers: seq<PeerId>, fills: seq<NeighborViewFill>)

  function RefillLosers(h: Hub, gone: PeerId, losers: seq<PeerId>, fills: seq<NeighborViewFill>): Hub
    requires |losers| == |fills|
    decreases |losers|
  {
    if losers == [] then h
    else
      var h1 := Send(h, ViewerSockets(h, losers[0]), [PeerLeft(gone)]);
      RefillLosers(FillAndAnnounce(h1, losers[0], fills[0]), gone, losers[1..], fills[1..])
  }

  function WithoutPending(h: Hub, x: PeerId): Hub {
    if h.pending.Some? then h.(pending := Some(h.pending.value.(updates := h.pending.value.updates - {x}))) else h
  }

  /** Nothing is pending for `x` any more, and the full audience is told that it left. */
  function Dismissed(h: Hub, x: PeerId): Hub {
    var h1 := WithoutPending(h, x);
    Send(h1, Audience(h1), [PeerLeft(x)])
  }

  /** `peerLeft`, for a peer the store has dropped already. */
  function PeerGone(h: Hub, d: Departure): Hub
    requires |d.losers| == |d.fills|
  {
    var h1 := Dismissed(h, d.peer);
    RefillLosers(h1.(views := Left(h1.views, d.peer)), d.peer, d.losers, d.fills)
  }

  function PeersGone(h: Hub, ds: seq<Departure>): Hub
    requires forall d :: d in ds ==> |d.losers| == |d.fills|
    decreases |ds|
  {
    if ds == [] then h else PeersGone(PeerGone(h, ds[0]), ds[1..])
  }

  function Peers(ds: seq<Departure>): set<PeerId> { set d | d in ds :: d.peer }

  /** The store drops all stale peers first; then the hub hears of them one by one. A leave is a sweep of one. */
  function Sweep(h: Hub, ds: seq<Departure>): Hub
    requires forall d :: d in ds ==> |d.losers| == |d.fills|
  {
    PeersGone(h.(store := h.store - Peers(ds),
      live := set s | s in h.live && s in h.subs && h.subs[s].peerId !in Peers(ds)), ds)
  }

  /** Removes a socket from the subscriber index; the index itself goes with its last socket. */
  function Unindex(h: Hub, s: Socket): Hub {
    if s !in h.subs then h
    else
      var subs := h.subs - {s};
      h.(subs := subs, live := h.live - {s}, generation := if subs == map[] then h.generation + 1 else h.generation)
  }

  function SetSubscription(h: Hub, s: Socket, sub: Subscription): Hub {
    var h1 := Unindex(h, s);
    h1.(subs := h1.subs[s := sub], live := if sub.mode == Viewer then h1.live + {s} else h1.live)
  }

  function Subscribe(h: Hub, s: Socket, p: PeerId, mode: Mode, f: NeighborViewFill): Hub {
    if mode != Viewer then
      Send(SetSubscription(h, s, Subscription(p, mode)), {s}, [PeerList(h.store)])
    else
      var h1 := FillAndAnnounce(h.(views := Added(Seeded(h), p)), p, f);
      var listed := (if p in h1.views then h1.views[p] else {}) + {p};
      Send(SetSubscription(h1, s, Subscription(p, Viewer)), {s},
        [PeerList(map q | q in h1.store && q in listed :: h1.store[q])])
  }

  // ---- Inventory reports ----

  function Queue(h: Hub, p: PeerId, u: Update): Hub {
    var b := if h.pending.Some? then h.pending.value else Batch(map[], true);
    h.(pending := Some(b.(updates := b.updates[p := if p in b.updates then Merge(b.updates[p], u) else Normal(u)])))
  }

  predicate HasBatchSubscribers(h: Hub) { exists s :: s in h.subs && h.subs[s].mode != Immediate }

  /** Immediate subscribers get the report at once; it is queued only while somebody receives batches. */
  function Publish(h: Hub, p: PeerId, u: Update): Hub {
    var h1 := Send(h, Sockets(h, Immediate), [InventoryReport(p, u)]);
    if HasBatchSubscribers(h) then Queue(h1, p, u) else h1
  }

  /** A WebSocket report. A `replace` with the stored set is dropped before it is published. */
  function Report(h: Hub, p: PeerId, u: Update): Hub
    requires p in h.store
  {
    if u == Replace(h.store[p]) then h else Publish(h.(store := h.store[p := Apply(u, h.store[p])]), p, u)
  }

  /** A REST report appends or replaces in the store, but is always published as a replacement. */
  function RestReport(h: Hub, p: PeerId, segments: set<Segment>, replace: bool): Hub
    requires p in h.store
  {
    Publish(h.(store := h.store[p := if replace then segments else h.store[p] + segments]), p, Replace(segments))
  }

  // ---- Flushes ----

  function Restrict(updates: map<PeerId, Update>, view: set<PeerId>): map<PeerId, Update> {
    map p | p in updates && p in view :: updates[p]
  }

  /** The Map and Set orders a flush meets: the whole batch, the viewers, and each viewer's share. */
  datatype Orders = Orders(updates: seq<PeerUpdate>, viewerIds: seq<PeerId>, shares: map<PeerId, seq<PeerUpdate>>)

  function ServeViewers(h: Hub, ids: seq<PeerId>, shares: map<PeerId, seq<PeerUpdate>>): Hub
    decreases |ids|
  {
    if ids == [] then h
    else
      var p := ids[0];
      var served := p in h.views && p in shares && shares[p] != [];
      var h1 := if served then Send(h, ViewerSockets(h, p), BatchMessages(shares[p])) else h;
      ServeViewers(h1, ids[1..], shares)
  }

  /** The flush still belongs to the subscriber index it was started for. */
  predicate IsCurrent(h: Hub) { h.flush.Some? && h.flush.value.subscribers == h.generation }

  /** End of the next slice. */
  function SliceEnd(c: Config, h: Hub): (end: nat)
    requires h.flush.Some? && h.flush.value.next <= |h.flush.value.viewerIds|
    ensures h.flush.value.next <= end <= |h.flush.value.viewerIds|
  {
    if IsCurrent(h) then Min(h.flush.value.next + c.viewersPerTurn, |h.flush.value.viewerIds|) else h.flush.value.next
  }

  function Slice(c: Config, h: Hub, shares: map<PeerId, seq<PeerUpdate>>): Hub
    requires h.flush.Some? && h.flush.value.next <= |h.flush.value.viewerIds|
  {
    var f := h.flush.value;
    var end := SliceEnd(c, h);
    var h1 := ServeViewers(h, f.viewerIds[f.next..end], shares);
    if IsCurrent(h) && end < |f.viewerIds| then h1.(flush := Some(f.(next := end))) else h1.(flush := None)
  }

  /** `flushInventory`, when no flush is running. */
  function StartFlush(c: Config, h: Hub, o: Orders): Hub
    requires h.flush.None?
  {
    if h.pending.None? then h
    else
      var b := h.pending.value;
      var h1 := h.(pending := None, strayTimers := if b.armed then h.strayTimers + 1 else h.strayTimers);
      if h.subs == map[] || b.updates == map[] then h1
      else
        var h2 := Send(h1, Sockets(h1, Batched), BatchMessages(o.updates));
        if ViewerIds(h2) == {} then h2
        else Slice(c, h2.(flush := Some(Flush(h2.generation, b.updates, o.viewerIds, 0))), o.shares)
  }

  function FlushInventory(c: Config, h: Hub, o: Orders): Hub {
    if h.flush.Some? then h.(flushRequested := true) else StartFlush(c, h, o)
  }

  /** One event-loop turn of a running flush; a requested flush starts when this one ends. */
  function Turn(c: Config, h: Hub, shares: map<PeerId, seq<PeerUpdate>>, o: Orders): Hub
    requires h.flush.Some? && h.flush.value.next <= |h.flush.value.viewerIds|
  {
    var h1 := Slice(c, h, shares);
    if h1.flush.None? && h1.flushRequested then StartFlush(c, h1.(flushRequested := false), o) else h1
  }

  // ---- Events ----

  datatype Event =
    | EJoin(peer: PeerId, fill: NeighborViewFill)
    | ESweep(departures: seq<Departure>)
    | ESubscribe(socket: Socket, peer: PeerId, mode: Mode, fill: NeighborViewFill)
    | EClose(socket: Socket)
    | EReport(socket: Socket, update: Update)
    | ERestReport(peer: PeerId, segments: set<Segment>, replace: bool)
    | ETimer(orders: Orders)
    | EStrayTimer(orders: Orders)
    | ETurn(shares: map<PeerId, seq<PeerUpdate>>, orders: Orders)
    | ERemoveBroadcast

  ghost predicate AreShares(h: Hub, updates: map<PeerId, Update>, ids: seq<PeerId>,
                            shares: map<PeerId, seq<PeerUpdate>>) {
    forall p :: p in ids && p in h.views ==> p in shares && IsListing(shares[p], Restrict(updates, h.views[p]))
  }

  /** The orders a flush of `updates` can meet. */
  ghost predicate AreOrders(h: Hub, updates: map<PeerId, Update>, o: Orders) {
    && IsListing(o.updates, updates)
    && Distinct(o.viewerIds) && Elems(o.viewerIds) == ViewerIds(h)
    && AreShares(h, updates, o.viewerIds, o.shares)
  }

  /** The shares met so far, with some share for every other viewer. */
  lemma SharesExist(h: Hub, updates: map<PeerId, Update>, ids: seq<PeerId>, some: map<PeerId, seq<PeerUpdate>>, k: nat)
    returns (shares: map<PeerId, seq<PeerUpdate>>)
    requires k <= |ids| && Distinct(ids) && AreShares(h, updates, ids[..k], some)
    ensures AreShares(h, updates, ids, shares)
    ensures forall p :: p in ids[..k] ==> (p in some <==> p in shares) && (p in some ==> shares[p] == some[p])
    decreases |ids| - k
  {
    if k == |ids| {
      assert ids[..k] == ids;
      return some;
    }
    var p := ids[k];
    var us := SomeListing(Restrict(updates, if p in h.views then h.views[p] else {}));
    assert ids[..k + 1] == ids[..k] + [p];
    hide IsListing, Restrict;
    shares := SharesExist(h, updates, ids, some[p := us], k + 1);
  }

  lemma OrdersExist(h: Hub, updates: map<PeerId, Update>) returns (o: Orders)
    ensures AreOrders(h, updates, o)
  {
    var us := SomeListing(updates);
    var ids := OrderExists(ViewerIds(h));
    hide IsListing, Restrict;
    assert AreShares(h, updates, ids[..0], map[]);
    var shares := SharesExist(h, updates, ids, map[], 0);
    o := Orders(us, ids, shares);
  }

  ghost predicate CanFlush(h: Hub, o: Orders) {
    h.pending.Some? ==> AreOrders(h, h.pending.value.updates, o)
  }

  ghost predicate AreDepartures(c: Config, views: Views, ds: seq<Departure>)
    decreases |ds|
  {
    ds == [] ||
    (var d := ds[0];
     && AreLosers(views, d.peer, d.losers)
     && AreFills(c.viewSize, Left(views, d.peer), d.losers, d.fills)
     && d.peer !in Peers(ds[1..])
     && AreDepartures(c, RefillAll(Left(views, d.peer), d.losers, d.fills), ds[1..]))
  }

  ghost predicate Enabled(c: Config, h: Hub, e: Event) {
    match e
    case EJoin(p, f) => p !in h.store && IsFill(c.viewSize, Added(Seeded(h.(store := h.store[p := {}])), p), p, f)
    case ESweep(ds) => Peers(ds) <= h.store.Keys && AreDepartures(c, h.views, ds)
    case ESubscribe(s, p, mode, f) =>
      p in h.store && (mode == Viewer ==> IsFill(c.viewSize, Added(Seeded(h), p), p, f))
    case EClose(s) => true
    case EReport(s, u) => s in h.subs
    case ERestReport(p, segments, replace) => p in h.store
    case ETimer(o) => h.pending.Some? && h.pending.value.armed && (h.flush.None? ==> CanFlush(h, o))
    case EStrayTimer(o) => h.strayTimers > 0 && (h.flush.None? ==> CanFlush(h, o))
    case ETurn(shares, o) =>
      && h.flush.Some? && h.flush.value.next <= |h.flush.value.viewerIds|
      && AreShares(h, h.flush.value.updates, h.flush.value.viewerIds[h.flush.value.next..], shares)
      && CanFlush(h, o)
    case ERemoveBroadcast => true
  }

  lemma DeparturesFit(c: Config, views: Views, ds: seq<Departure>)
    requires AreDepartures(c, views, ds)
    ensures forall d :: d in ds ==> |d.losers| == |d.fills|
    decreases |ds|
  {
    if ds != [] { DeparturesFit(c, RefillAll(Left(views, ds[0].peer), ds[0].losers, ds[0].fills), ds[1..]); }
  }

  function Next(c: Config, h: Hub, e: Event): Hub
    requires Enabled(c, h, e)
  {
    match e
    case EJoin(p, f) => JoinPeer(h, p, f)
    case ESweep(ds) => DeparturesFit(c, h.views, ds); Sweep(h, ds)
    case ESubscribe(s, p, mode, f) => Subscribe(h, s, p, mode, f)
    case EClose(s) => Unindex(h, s)
    case EReport(s, u) => if h.subs[s].peerId in h.store then Report(h, h.subs[s].peerId, u) else h
    case ERestReport(p, segments, replace) => RestReport(h, p, segments, replace)
    case ETimer(o) => FlushInventory(c, h.(pending := Some(h.pending.value.(armed := false))), o)
    case EStrayTimer(o) => FlushInventory(c, h.(strayTimers := h.strayTimers - 1), o)
    case ETurn(shares, o) => Turn(c, h, shares, o)
    case ERemoveBroadcast =>
      h.(store := map[], views := map[], subs := map[], pending := None, live := {},
         generation := if h.subs == map[] then h.generation else h.generation + 1)
  }

  // ---- Runs ----

  ghost predicate IsRun(c: Config, h: Hub, run: seq<Event>)
    decreases |run|
  {
    run == [] || (Enabled(c, h, run[0]) && IsRun(c, Next(c, h, run[0]), run[1..]))
  }

  ghost function Outcome(c: Config, h: Hub, run: seq<Event>): Hub
    requires IsRun(c, h, run)
    decreases |run|
  {
    if run == [] then h else Outcome(c, Next(c, h, run[0]), run[1..])
  }
}
