/**
 What each event does to the store, the subscriptions and the views, said once for the whole event:
 what peers hold, who is subscribed as what, and which events leave the rest alone.
 */
module HubEffects {
  import opened Wrappers
  import opened Inventory
  import opened NeighborViews
  import opened PeerMirror
  import opened Sequences
  import opened HubModel
  import opened HubInvariants

  /** The stored inventories, the views and the subscriptions are as before. */
  predicate SameRest(h: Hub, h1: Hub) {
    && h1.store == h.store && h1.views == h.views && h1.subs == h.subs
    && h1.generation == h.generation && h1.live == h.live
  }

  // ---- Flushes ----

  lemma SliceKeepsRest(c: Config, h: Hub, shares: map<PeerId, seq<PeerUpdate>>)
    requires CanSlice(h, shares)
    ensures SameRest(h, Slice(c, h, shares))
  {
    hide Slice;
    SliceFrame(c, h, shares);
  }

  lemma FlushKeepsRest(c: Config, h: Hub, o: Orders)
    requires h.flush.None? ==> CanFlush(h, o)
    ensures SameRest(h, FlushInventory(c, h, o))
  {
    if h.flush.None? && h.pending.Some? {
      StartFlushCases(c, h, o);
      TakenOnly(h, o);
      hide Taken, StartFlush, CanSlice, CanFlush;
      if h.subs != map[] && h.pending.value.updates != map[] && ViewerIds(h) != {} {
        SliceKeepsRest(c, Taken(h, o), o.shares);
      }
    }
  }

  lemma SameOrdersFlush(h: Hub, h1: Hub, o: Orders)
    requires h1.subs == h.subs && h1.views == h.views && h1.pending.Some? == h.pending.Some?
    requires h.pending.Some? ==> h1.pending.value.updates == h.pending.value.updates
    ensures CanFlush(h1, o) == CanFlush(h, o)
  {
    assert ViewerIds(h1) == ViewerIds(h);
  }

  lemma TurnKeepsRest(c: Config, h: Hub, shares: map<PeerId, seq<PeerUpdate>>, o: Orders)
    requires PeersKnown(c, h) && Enabled(c, h, ETurn(shares, o))
    ensures SameRest(h, Turn(c, h, shares, o))
  {
    assert FlushOk(h);
    SliceKeepsRest(c, h, shares);
    SliceFrame(c, h, shares);
    var h1 := Slice(c, h, shares);
    hide Slice, StartFlush, CanSlice;
    if h1.flush.None? && h1.flushRequested {
      var h2 := h1.(flushRequested := false);
      SameOrdersFlush(h, h2, o);
      FlushKeepsRest(c, h2, o);
    }
  }

  /** Timers and turns only flush. */
  lemma FlushingKeepsRest(c: Config, h: Hub, e: Event)
    requires PeersKnown(c, h) && Enabled(c, h, e) && (e.ETimer? || e.EStrayTimer? || e.ETurn?)
    ensures SameRest(h, Next(c, h, e))
  {
    hide PeersKnown, FlushInventory, CanFlush, Turn;
    match e {
      case ETimer(o) =>
        var h1 := h.(pending := Some(h.pending.value.(armed := false)));
        SameOrdersFlush(h, h1, o);
        FlushKeepsRest(c, h1, o);
      case EStrayTimer(o) =>
        var h1 := h.(strayTimers := h.strayTimers - 1);
        SameOrdersFlush(h, h1, o);
        FlushKeepsRest(c, h1, o);
      case ETurn(shares, o) => TurnKeepsRest(c, h, shares, o);
    }
  }

  // ---- Joins, sweeps and subscriptions ----

  lemma JoinRest(c: Config, h: Hub, p: PeerId, f: NeighborViewFill)
    requires Enabled(c, h, EJoin(p, f))
    ensures var h1 := Next(c, h, EJoin(p, f));
      h1.store == h.store[p := {}] && h1.subs == h.subs && h1.generation == h.generation && h1.flush == h.flush
  {
    AdmittedOnly(h, p);
    FillAndAnnounceFrame(Admitted(h, p), p, f);
    hide FillAndAnnounce;
  }

  lemma {:induction false} GoneRest(h: Hub, ds: seq<Departure>)
    requires forall d :: d in ds ==> |d.losers| == |d.fills|
    ensures var h1 := PeersGone(h, ds);
      h1.store == h.store && h1.subs == h.subs && h1.generation == h.generation && h1.flush == h.flush
    decreases |ds|
  {
    if ds != [] {
      RefillLosersFrame(Unlisted(h, ds[0].peer), ds[0].peer, ds[0].losers, ds[0].fills);
      GoneRest(PeerGone(h, ds[0]), ds[1..]);
    }
  }

  lemma SweepRest(c: Config, h: Hub, ds: seq<Departure>)
    requires Enabled(c, h, ESweep(ds))
    ensures var h1 := Next(c, h, ESweep(ds));
      h1.store == h.store - Peers(ds) && h1.subs == h.subs && h1.generation == h.generation && h1.flush == h.flush
  {
    DeparturesFit(c, h.views, ds);
    GoneRest(DropPeers(h, Peers(ds)), ds);
  }

  lemma SubscribeRest(c: Config, h: Hub, s: Socket, p: PeerId, mode: Mode, f: NeighborViewFill)
    requires PeersKnown(c, h) && Enabled(c, h, ESubscribe(s, p, mode, f))
    ensures var h1 := Next(c, h, ESubscribe(s, p, mode, f));
      && h1.store == h.store && h1.flush == h.flush && h1.subs == h.subs[s := Subscription(p, mode)]
      && (mode != Viewer ==> h1.views == h.views)
      && (h1.generation == h.generation || (h1.generation == h.generation + 1 && h.subs.Keys == {s}))
  {
    LiveAreSubscribed(c, h);
    hide PeersKnown;
    if mode != Viewer {
      ResubscribedFrame(h, s, Subscription(p, mode), h.store);
    } else {
      var h1, sub := FillAndAnnounce(Registered(h, p), p, f), Subscription(p, Viewer);
      FillAndAnnounceFrame(Registered(h, p), p, f);
      hide FillAndAnnounce, Subscribe, Resubscribed, Snapshot, Listed;
      SubscribeIsResubscribed(h, s, p, f);
      ResubscribedFrame(h1, s, sub, Snapshot(h1, Listed(h1, sub)));
    }
  }

  // ---- What an event does ----

  /** Which inventories the tracker stores after an event. */
  lemma EventStores(c: Config, h: Hub, e: Event)
    requires PeersKnown(c, h) && Enabled(c, h, e)
    ensures Next(c, h, e).store == match e
      case EJoin(p, _) => h.store[p := {}]
      case ESweep(ds) => h.store - Peers(ds)
      case EReport(s, u) =>
        var p := h.subs[s].peerId;
        if p in h.store then h.store[p := Apply(u, h.store[p])] else h.store
      case ERestReport(p, segments, replace) => h.store[p := if replace then segments else h.store[p] + segments]
      case ERemoveBroadcast => map[]
      case _ => h.store
  {
    hide PeersKnown, JoinPeer, Sweep, Subscribe, FlushInventory, Turn;
    match e {
      case EJoin(p, f) => JoinRest(c, h, p, f);
      case ESweep(ds) => SweepRest(c, h, ds);
      case ESubscribe(s, p, mode, f) => SubscribeRest(c, h, s, p, mode, f);
      case EClose(s) => UnindexFrame(h, s);
      case EReport(s, u) =>
      case ERestReport(p, segments, replace) =>
      case ERemoveBroadcast =>
      case _ => FlushingKeepsRest(c, h, e);
    }
  }

  /** Who is subscribed, and how, after an event. */
  lemma EventSubscribes(c: Config, h: Hub, e: Event)
    requires PeersKnown(c, h) && Enabled(c, h, e)
    ensures Next(c, h, e).subs == match e
      case ESubscribe(s, p, mode, _) => h.subs[s := Subscription(p, mode)]
      case EClose(s) => h.subs - {s}
      case ERemoveBroadcast => map[]
      case _ => h.subs
  {
    hide PeersKnown, JoinPeer, Sweep, Subscribe, FlushInventory, Turn;
    match e {
      case EJoin(p, f) => JoinRest(c, h, p, f);
      case ESweep(ds) => SweepRest(c, h, ds);
      case ESubscribe(s, p, mode, f) => SubscribeRest(c, h, s, p, mode, f);
      case EClose(s) => UnindexFrame(h, s); assert s !in h.subs ==> h.subs - {s} == h.subs;
      case EReport(s, u) =>
      case ERestReport(p, segments, replace) =>
      case ERemoveBroadcast =>
      case _ => FlushingKeepsRest(c, h, e);
    }
  }

  /** Neither reports nor flushes touch the views; subscribers without views and closed sockets do not either. */
  lemma OthersKeepViews(c: Config, h: Hub, e: Event)
    requires PeersKnown(c, h) && Enabled(c, h, e)
    requires !e.EJoin? && !e.ESweep? && !e.ERemoveBroadcast? && !(e.ESubscribe? && e.mode == Viewer)
    ensures Next(c, h, e).views == h.views
  {
    hide PeersKnown, Subscribe, FlushInventory, Turn;
    match e {
      case ESubscribe(s, p, mode, f) => SubscribeRest(c, h, s, p, mode, f);
      case EClose(s) => UnindexFrame(h, s);
      case EReport(s, u) =>
      case ERestReport(p, segments, replace) =>
      case _ => FlushingKeepsRest(c, h, e);
    }
  }

  // ---- Reports ----

  /** The report that an event publishes: not one about an unknown peer, nor a replacement by what is stored. */
  function Published(h: Hub, e: Event): Option<PeerUpdate> {
    match e
    case EReport(s, u) =>
      if s !in h.subs || h.subs[s].peerId !in h.store || u == Replace(h.store[h.subs[s].peerId]) then None
      else Some(PeerUpdate(h.subs[s].peerId, u))
    case ERestReport(p, segments, replace) => if p in h.store then Some(PeerUpdate(p, Replace(segments))) else None
    case _ => None
  }

  /** A report goes out at once to the immediate subscribers, and to nobody else before the next flush. */
  lemma ReportsAreHeardAtOnce(c: Config, h: Hub, e: Event, s: Socket)
    requires Enabled(c, h, e) && (e.EReport? || e.ERestReport?) && s in h.subs
    ensures Log(Next(c, h, e), s) ==
      if Published(h, e).Some? && h.subs[s].mode == Immediate
      then Log(h, s) + [InventoryReport(Published(h, e).value.peerId, Published(h, e).value.update)] else Log(h, s)
    ensures Next(c, h, e).flush == h.flush && (Published(h, e).None? ==> Next(c, h, e) == h)
  {
    hide Apply, Merge;
  }

  // ---- Slices ----

  /** One turn sends to the viewers of one slice only, at most as many as the configuration allows. */
  lemma TurnServesFew(c: Config, h: Hub, shares: map<PeerId, seq<PeerUpdate>>, o: Orders) returns (ids: set<PeerId>)
    requires PeersKnown(c, h) && Enabled(c, h, ETurn(shares, o)) && !h.flushRequested
    ensures |ids| <= c.viewersPerTurn
    ensures forall s :: Log(Next(c, h, ETurn(shares, o)), s) != Log(h, s) ==>
      s in h.subs && h.subs[s].mode == Viewer && h.subs[s].peerId in ids
  {
    assert FlushOk(h);
    var served := SliceIds(c, h);
    ids := Elems(served);
    ElemsSize(served);
    SliceFrame(c, h, shares);
    hide Slice, ServedTo;
    forall s | Log(Slice(c, h, shares), s) != Log(h, s)
      ensures s in h.subs && h.subs[s].mode == Viewer && h.subs[s].peerId in ids
    {
      SliceLog(c, h, shares, s);
      OnlyServed(h, served, shares, s);
    }
  }

  lemma OnlyServed(h: Hub, ids: seq<PeerId>, shares: map<PeerId, seq<PeerUpdate>>, s: Socket)
    requires Log(h, s) + ServedTo(h, ids, shares, s) != Log(h, s)
    ensures s in h.subs && h.subs[s].mode == Viewer && h.subs[s].peerId in ids
  {
    assert Log(h, s) + [] == Log(h, s);
  }

  /** The index that a flush was started for is gone. */
  ghost predicate Abandoned(h: Hub) { h.flush.Some? && h.flush.value.subscribers < h.generation }

  /** When the last subscriber goes, so does the index that a running flush was started for. */
  lemma LastCloseAbandons(c: Config, h: Hub, s: Socket)
    requires PeersKnown(c, h) && h.flush.Some? && h.subs.Keys == {s}
    ensures Enabled(c, h, EClose(s)) && Abandoned(Next(c, h, EClose(s)))
  {
    assert h.subs - {s} == map[];
  }

  /** Whoever subscribes before the next turn: the flush stays abandoned. */
  lemma StaysAbandoned(c: Config, h: Hub, e: Event)
    requires PeersKnown(c, h) && Enabled(c, h, e) && Abandoned(h) && !e.ETurn?
    ensures Abandoned(Next(c, h, e))
  {
    hide PeersKnown, JoinPeer, Sweep, Subscribe;
    match e {
      case EJoin(p, f) => JoinRest(c, h, p, f);
      case ESweep(ds) => SweepRest(c, h, ds);
      case ESubscribe(s, p, mode, f) => SubscribeRest(c, h, s, p, mode, f);
      case EClose(s) => UnindexFrame(h, s);
      case _ =>
    }
  }

  /** And its next turn ends it without sending anything; only a flush requested meanwhile can start then. */
  lemma AbandonedEnds(c: Config, h: Hub, shares: map<PeerId, seq<PeerUpdate>>, o: Orders)
    requires PeersKnown(c, h) && Enabled(c, h, ETurn(shares, o)) && Abandoned(h) && !h.flushRequested
    ensures Next(c, h, ETurn(shares, o)) == h.(flush := None)
  {
    assert SliceIds(c, h) == [];
  }
}
