/**
 The hub as the code has it (tracker/src/websocket.ts): an object whose handlers change the
 subscriber index, the pending batch and the running flush in place. Every handler is proved to
 take the step that `HubModel.Next` allows, so what is proved about runs of `Next` holds for it.
 */
module TrackerHub {
  import opened Wrappers
  import opened Inventory
  import opened NeighborViews
  import opened PeerMirror
  import opened Sequences
  import opened HubModel
  import HubInvariants

  // ---- Facts about sends ----

  lemma SendNobody(h: Hub, messages: seq<Message>)
    ensures Send(h, {}, messages) == h
  {
    assert h.log.Keys + {} == h.log.Keys;
  }

  lemma SendTwiceAt(h: Hub, to: set<Socket>, a: seq<Message>, b: seq<Message>, s: Socket)
    requires s in h.log.Keys + to
    ensures s in Send(Send(h, to, a), to, b).log && s in Send(h, to, a + b).log
    ensures Send(Send(h, to, a), to, b).log[s] == Send(h, to, a + b).log[s]
  {
    var h1 := Send(h, to, a);
    assert s in to ==> Log(h1, s) == Log(h, s) + a;
    assert Log(h, s) + a + b == Log(h, s) + (a + b);
  }

  lemma SendTwice(h: Hub, to: set<Socket>, a: seq<Message>, b: seq<Message>)
    ensures Send(Send(h, to, a), to, b) == Send(h, to, a + b)
  {
    var h1, h2 := Send(Send(h, to, a), to, b), Send(h, to, a + b);
    assert h1.log.Keys == h2.log.Keys == h.log.Keys + to;
    assert h1 == h.(log := h1.log) && h2 == h.(log := h2.log);
    hide Send, Log;
    forall s | s in h1.log ensures h1.log[s] == h2.log[s] { SendTwiceAt(h, to, a, b, s); }
    assert h1.log == h2.log;
  }

  lemma SendSplit(h: Hub, a: set<Socket>, b: set<Socket>, messages: seq<Message>)
    requires a !! b
    ensures Send(Send(h, a, messages), b, messages) == Send(h, a + b, messages)
  {
  }

  /** The subscriber index of `h`: sockets by delivery mode, neighbor-view sockets by peer. */
  ghost predicate Lists(h: Hub, immediate: set<Socket>, batched: set<Socket>, viewers: map<PeerId, set<Socket>>) {
    && immediate == Sockets(h, Immediate) && batched == Sockets(h, Batched) && viewers.Keys == ViewerIds(h)
    && (forall p :: p in viewers ==> viewers[p] == ViewerSockets(h, p))
  }

  lemma SameIndex(h: Hub, h1: Hub)
    requires h1.subs == h.subs
    ensures Sockets(h1, Immediate) == Sockets(h, Immediate) && Sockets(h1, Batched) == Sockets(h, Batched)
    ensures ViewerIds(h1) == ViewerIds(h) && forall p :: ViewerSockets(h1, p) == ViewerSockets(h, p)
    ensures forall i, b, v :: Lists(h1, i, b, v) == Lists(h, i, b, v)
  {
  }

  lemma SameLists(h: Hub, h1: Hub, immediate: set<Socket>, batched: set<Socket>, viewers: map<PeerId, set<Socket>>)
    requires h1.subs == h.subs
    ensures Lists(h1, immediate, batched, viewers) == Lists(h, immediate, batched, viewers)
  {
  }

  lemma ViewerIdsHaveSockets(h: Hub, p: PeerId)
    ensures p in ViewerIds(h) <==> ViewerSockets(h, p) != {}
  {
    if p in ViewerIds(h) {
      var s :| s in h.subs && h.subs[s].mode == Viewer && h.subs[s].peerId == p;
      assert s in ViewerSockets(h, p);
    }
    assert forall s :: s in ViewerSockets(h, p) ==> h.subs[s].peerId in ViewerIds(h);
  }

  lemma ViewerSocketsWithout(h: Hub, s: Socket, q: PeerId)
    requires s in h.subs
    ensures ViewerSockets(h.(subs := h.subs - {s}), q) ==
      if q == h.subs[s].peerId then ViewerSockets(h, q) - {s} else ViewerSockets(h, q)
  {
  }

  /** The viewers of the index after one socket of `p` is gone. */
  ghost predicate ViewersWithout(viewers: map<PeerId, set<Socket>>, s: Socket, p: PeerId,
                                 viewers1: map<PeerId, set<Socket>>) {
    && viewers1.Keys == (if p in viewers && viewers[p] - {s} == {} then viewers.Keys - {p} else viewers.Keys)
    && (forall q :: q in viewers1 ==> viewers1[q] == if q == p then viewers[q] - {s} else viewers[q])
  }

  lemma ViewerIdsWithout(h: Hub, s: Socket, q: PeerId)
    requires s in h.subs
    ensures q in ViewerIds(h.(subs := h.subs - {s})) <==>
      q in ViewerIds(h) && !(q == h.subs[s].peerId && ViewerSockets(h, q) - {s} == {})
  {
    ViewerIdsHaveSockets(h, q);
    ViewerIdsHaveSockets(h.(subs := h.subs - {s}), q);
    ViewerSocketsWithout(h, s, q);
  }

  lemma SocketsWithout(h: Hub, s: Socket, m: Mode)
    requires s in h.subs
    ensures Sockets(h.(subs := h.subs - {s}), m) == Sockets(h, m) - {s}
  {
  }

  lemma ViewersIndexWithout(h: Hub, s: Socket, viewers: map<PeerId, set<Socket>>, viewers1: map<PeerId, set<Socket>>)
    requires s in h.subs && viewers.Keys == ViewerIds(h)
    requires (forall p :: p in viewers ==> viewers[p] == ViewerSockets(h, p))
    requires ViewersWithout(viewers, s, h.subs[s].peerId, viewers1)
    ensures viewers1.Keys == ViewerIds(h.(subs := h.subs - {s}))
    ensures forall q :: q in viewers1 ==> viewers1[q] == ViewerSockets(h.(subs := h.subs - {s}), q)
  {
    hide ViewerIds, ViewerSockets;
    forall q ensures q in viewers1.Keys <==> q in ViewerIds(h.(subs := h.subs - {s})) { ViewerIdsWithout(h, s, q); }
    forall q | q in viewers1 ensures viewers1[q] == ViewerSockets(h.(subs := h.subs - {s}), q) {
      ViewerSocketsWithout(h, s, q);
    }
  }

  /** The index without one socket. */
  lemma IndexWithout(h: Hub, s: Socket, immediate: set<Socket>, batched: set<Socket>, viewers: map<PeerId, set<Socket>>,
                     viewers1: map<PeerId, set<Socket>>)
    requires s in h.subs && Lists(h, immediate, batched, viewers)
    requires ViewersWithout(viewers, s, h.subs[s].peerId, viewers1)
    ensures Lists(h.(subs := h.subs - {s}), immediate - {s}, batched - {s}, viewers1)
    ensures h.subs - {s} == map[] <==> immediate - {s} == {} && batched - {s} == {} && viewers1 == map[]
  {
    hide ViewerIds, ViewerSockets, Sockets, ViewersWithout;
    ViewersIndexWithout(h, s, viewers, viewers1);
    SocketsWithout(h, s, Immediate);
    SocketsWithout(h, s, Batched);
    EmptyIndex(h.(subs := h.subs - {s}));
    assert viewers1 == map[] <==> viewers1.Keys == {};
  }

  lemma ViewerSocketsWith(h: Hub, s: Socket, sub: Subscription, q: PeerId)
    requires s !in h.subs
    ensures var h1 := h.(subs := h.subs[s := sub]);
      && ViewerSockets(h1, q) == ViewerSockets(h, q) + (if sub == Subscription(q, Viewer) then {s} else {})
      && (q in ViewerIds(h1) <==> q in ViewerIds(h) || sub == Subscription(q, Viewer))
  {
    ViewerIdsHaveSockets(h, q);
    ViewerIdsHaveSockets(h.(subs := h.subs[s := sub]), q);
  }

  lemma SocketsWith(h: Hub, s: Socket, sub: Subscription, m: Mode)
    requires s !in h.subs
    ensures Sockets(h.(subs := h.subs[s := sub]), m) == if sub.mode == m then Sockets(h, m) + {s} else Sockets(h, m)
  {
  }

  /** The index with one more socket. */
  lemma IndexWith(h: Hub, s: Socket, sub: Subscription, immediate: set<Socket>, batched: set<Socket>,
                  viewers: map<PeerId, set<Socket>>)
    requires s !in h.subs && Lists(h, immediate, batched, viewers)
    ensures Lists(h.(subs := h.subs[s := sub]),
      if sub.mode == Immediate then immediate + {s} else immediate,
      if sub.mode == Batched then batched + {s} else batched,
      if sub.mode == Viewer
      then viewers[sub.peerId := (if sub.peerId in viewers then viewers[sub.peerId] else {}) + {s}]
      else viewers)
  {
    ViewerIdsHaveSockets(h, sub.peerId);
    hide Sockets, ViewerIds, ViewerSockets;
    SocketsWith(h, s, sub, Immediate);
    SocketsWith(h, s, sub, Batched);
    var h1 := h.(subs := h.subs[s := sub]);
    forall q
      ensures ViewerSockets(h1, q) == ViewerSockets(h, q) + (if sub == Subscription(q, Viewer) then {s} else {})
      ensures q in ViewerIds(h1) <==> q in ViewerIds(h) || sub == Subscription(q, Viewer)
    {
      ViewerSocketsWith(h, s, sub, q);
    }
  }

  lemma EmptyIndex(h: Hub)
    ensures h.subs == map[] <==> Sockets(h, Immediate) == {} && Sockets(h, Batched) == {} && ViewerIds(h) == {}
  {
    if h.subs != map[] {
      var s :| s in h.subs;
      assert s in Sockets(h, h.subs[s].mode);
      if h.subs[s].mode == Viewer { assert h.subs[s].peerId in ViewerIds(h); }
    }
  }

  /** A running flush has its viewers left to serve in order; a further flush is only asked for while one runs. */
  ghost predicate FlushFits(flush: Option<Flush>, requested: bool) {
    if flush.Some? then flush.value.next <= |flush.value.viewerIds| && Distinct(flush.value.viewerIds) else !requested
  }

  class TrackerWebSocketHub {
    const config: Config
    const neighborViews: NeighborViews
    var store: map<PeerId, set<Segment>>
    var subscriptions: map<Socket, Subscription>
    /** The subscriber index: sockets by delivery mode, neighbor-view sockets by peer. */
    var immediate: set<Socket>
    var batched: set<Socket>
    var viewers: map<PeerId, set<Socket>>
    /** Stands for the identity of the subscriber index, which is dropped with its last socket. */
    var generation: nat
    var pending: Option<Batch>
    var strayTimers: nat
    var flush: Option<Flush>
    var flushRequested: bool
    var sent: map<Socket, seq<Message>>
    ghost var live: set<Socket>

    ghost function State(): Hub
      reads this, neighborViews
    {
      Hub(store, neighborViews.views, subscriptions, generation, pending, strayTimers, flush, flushRequested, sent,
        live)
    }

    /** The index lists exactly the subscriptions. */
    ghost predicate Indexed()
      reads this, neighborViews
    {
      Lists(State(), immediate, batched, viewers)
    }

    ghost predicate Valid()
      reads this, neighborViews
    {
      && ValidConfig(config)
      && neighborViews.Valid() && neighborViews.size == config.viewSize
      && Indexed()
      && live <= subscriptions.Keys
      && FlushFits(flush, flushRequested)
    }

    constructor (config: Config, store: map<PeerId, set<Segment>>)
      requires ValidConfig(config)
      ensures Valid() && State() == Start(store) && this.config == config && fresh(neighborViews)
    {
      this.config := config;
      neighborViews := new NeighborViews(config.viewSize);
      this.store := store;
      subscriptions, immediate, batched, viewers := map[], {}, {}, map[];
      generation, pending, strayTimers, flush, flushRequested := 0, None, 0, None, false;
      sent, live := map[], {};
    }

    // ---- Sending ----

    method SendTo(to: set<Socket>, messages: seq<Message>)
      modifies this`sent
      ensures State() == Send(old(State()), to, messages)
    {
      ghost var before := sent;
      var rest := to;
      while rest != {}
        invariant rest <= to
        invariant sent.Keys == before.Keys + (to - rest)
        invariant forall s :: s in sent ==>
          sent[s] == (if s in before then before[s] else []) + (if s in to - rest then messages else [])
      {
        var s :| s in rest;
        sent := sent[s := (if s in sent then sent[s] else []) + messages];
        rest := rest - {s};
      }
      assert sent == Send(old(State()), to, messages).log;
    }

    /** One message for everybody but neighbor-view clients. */
    method Broadcast(message: Message)
      requires Indexed()
      modifies this`sent
      ensures State() == Send(old(State()), Audience(old(State())), [message])
    {
      SendTo(immediate, [message]);
      SendTo(batched, [message]);
      SendSplit(old(State()), immediate, batched, [message]);
      assert immediate + batched == Audience(old(State()));
    }

    method SendToViewer(p: PeerId, message: Message)
      requires Indexed()
      modifies this`sent
      ensures State() == Send(old(State()), ViewerSockets(old(State()), p), [message])
    {
      if p !in viewers {
        NoViewerSockets(State(), p);
        SendNobody(State(), [message]);
        return;
      }
      SendTo(viewers[p], [message]);
    }

    lemma NoViewerSockets(h: Hub, p: PeerId)
      requires p !in ViewerIds(h)
      ensures ViewerSockets(h, p) == {}
    {
    }

    // ---- Neighbor views ----

    /** Announces a fill's report to the viewers it concerns. */
    method AnnounceFill(p: PeerId, f: NeighborViewFill)
      requires Indexed()
      modifies this`sent
      ensures State() == HubModel.AnnounceFill(old(State()), p, f)
    {
      ghost var h := State();
      ghost var n1, n2, n3 := AddedNotices(h, p, f.added), ReciprocalNotices(h, p, f.reciprocal),
        EvictedNotices(f.evicted);
      AnnounceAdded(p, f.added);
      ghost var h1 := State();
      ReciprocalSame(h, h1, p, f.reciprocal);
      AnnounceReciprocal(p, f.reciprocal);
      AnnounceEvicted(f.evicted);
    }

    lemma ReciprocalSame(h: Hub, h1: Hub, p: PeerId, watchers: seq<PeerId>)
      requires h1.store == h.store
      ensures ReciprocalNotices(h1, p, watchers) == ReciprocalNotices(h, p, watchers)
    {
    }

    method AnnounceAdded(p: PeerId, added: seq<PeerId>)
      requires Indexed()
      modifies this`sent
      ensures State() == SendNotices(old(State()), AddedNotices(old(State()), p, added))
    {
      ghost var h := State();
      for i := 0 to |added|
        invariant Indexed() && State() == h.(log := sent)
        invariant SendNotices(State(), AddedNotices(h, p, added[i..])) == SendNotices(h, AddedNotices(h, p, added))
      {
        assert added[i..][1..] == added[i + 1..];
        if added[i] in store {
          NextNotice(State(), Notice(p, PeerJoined(added[i], store[added[i]])), AddedNotices(h, p, added[i + 1..]));
          SendToViewer(p, PeerJoined(added[i], store[added[i]]));
        }
      }
    }

    method AnnounceReciprocal(p: PeerId, watchers: seq<PeerId>)
      requires Indexed()
      modifies this`sent
      ensures State() == SendNotices(old(State()), ReciprocalNotices(old(State()), p, watchers))
    {
      if p !in store { return; }
      ghost var h := State();
      for i := 0 to |watchers|
        invariant Indexed() && State() == h.(log := sent)
        invariant SendNotices(State(), ReciprocalNotices(h, p, watchers[i..])) ==
          SendNotices(h, ReciprocalNotices(h, p, watchers))
      {
        assert watchers[i..][1..] == watchers[i + 1..];
        NextNotice(State(), Notice(watchers[i], PeerJoined(p, store[p])), ReciprocalNotices(h, p, watchers[i + 1..]));
        SendToViewer(watchers[i], PeerJoined(p, store[p]));
      }
    }

    method AnnounceEvicted(evicted: seq<Eviction>)
      requires Indexed()
      modifies this`sent
      ensures State() == SendNotices(old(State()), EvictedNotices(evicted))
    {
      ghost var h := State();
      for i := 0 to |evicted|
        invariant Indexed() && State() == h.(log := sent)
        invariant SendNotices(State(), EvictedNotices(evicted[i..])) == SendNotices(h, EvictedNotices(evicted))
      {
        assert evicted[i..][1..] == evicted[i + 1..];
        NextNotice(State(), Notice(evicted[i].watcher, PeerLeft(evicted[i].peerId)), EvictedNotices(evicted[i + 1..]));
        SendToViewer(evicted[i].watcher, PeerLeft(evicted[i].peerId));
      }
    }

    lemma NextNotice(h: Hub, n: Notice, rest: seq<Notice>)
      ensures SendNotices(h, [n] + rest) == SendNotices(Send(h, ViewerSockets(h, n.viewer), [n.message]), rest)
    {
      assert ([n] + rest)[1..] == rest;
    }

    /** `fill`, then `announceFill`. */
    method FillAndAnnounce(p: PeerId) returns (f: NeighborViewFill)
      requires Valid()
      modifies this`sent, neighborViews
      ensures Valid()
      ensures IsFill(config.viewSize, old(State()).views, p, f)
      ensures State() == HubModel.FillAndAnnounce(old(State()), p, f)
    {
      hide HubModel.AnnounceFill, IsFill, AfterFill, WellFormed, IsTranspose;
      hide IsIndex, Lists, Sockets, ViewerIds, ViewerSockets;
      f := neighborViews.Fill(p);
      SameIndex(old(State()), State());
      assert State() == old(State()).(views := AfterFill(old(State()).views, p, f));
      AnnounceFill(p, f);
      SameIndex(old(State()), State());
    }

    /** Brings the views up to the store when they are still empty. */
    method SeededViews()
      requires Valid()
      modifies neighborViews
      ensures Valid() && State() == old(State()).(views := Seeded(old(State())))
    {
      if neighborViews.members != [] {
        MembersAreViews(neighborViews);
        return;
      }
      MembersAreViews(neighborViews);
      hide NeighborViews.Valid, Lists, Sockets, ViewerIds, ViewerSockets;
      RegisterAll();
      SameIndex(old(State()), State());
    }

    method RegisterAll()
      requires neighborViews.Valid() && neighborViews.views == map[]
      modifies neighborViews
      ensures neighborViews.Valid() && neighborViews.views == map p | p in store :: {}
    {
      hide NeighborViews.Valid;
      var rest := store.Keys;
      while rest != {}
        invariant rest <= store.Keys && neighborViews.Valid()
        invariant neighborViews.views == map p | p in store.Keys - rest :: {}
      {
        var p :| p in rest;
        neighborViews.Add(p);
        rest := rest - {p};
      }
    }

    lemma MembersAreViews(v: NeighborViews)
      requires v.Valid()
      ensures v.members == [] <==> v.views == map[]
    {
      assert Elems(v.members) == v.views.Keys;
      assert v.members != [] ==> v.members[0] in Elems(v.members);
    }

    // ---- Joins and departures ----

    /** The store admits a new peer, then `peerJoined`. */
    method Join(p: PeerId) returns (ghost e: Event)
      requires Valid() && p !in store
      modifies this`store, this`sent, neighborViews
      ensures Valid()
      ensures Enabled(config, old(State()), e) && State() == Next(config, old(State()), e) && e.EJoin? && e.peer == p
    {
      ghost var h := State();
      store := store[p := {}];
      SameIndex(h, State());
      assert Valid();
      Broadcast(PeerJoined(p, {}));
      SameIndex(h, State());
      assert Valid();
      SeededViews();
      neighborViews.Add(p);
      SameIndex(h, State());
      ghost var h1 := State();
      assert h1 == HubInvariants.Admitted(h, p);
      var f := FillAndAnnounce(p);
      e := EJoin(p, f);
    }

    /** `peerLeft`, for a peer the store has dropped. */
    method PeerGone(p: PeerId) returns (ghost d: Departure)
      requires Valid()
      modifies this`pending, this`sent, neighborViews
      ensures Valid() && d.peer == p && |d.losers| == |d.fills|
      ensures AreLosers(old(State()).views, p, d.losers)
      ensures AreFills(config.viewSize, Left(old(State()).views, p), d.losers, d.fills)
      ensures State() == HubModel.PeerGone(old(State()), d)
    {
      ghost var h := State();
      Dismiss(p);
      var lost := Withdraw(p);
      hide WellFormed, IsTranspose, IsIndex, Lists, Sockets;
      hide ViewerIds, ViewerSockets, AreLosers, AreFills, HubModel.RefillLosers, Left;
      ghost var fills := RefillLosers(p, lost);
      d := Departure(p, lost, fills);
    }

    /** Drops what is pending for `p`, so that it cannot arrive after its departure, and tells the full audience. */
    method Dismiss(p: PeerId)
      requires Valid()
      modifies this`pending, this`sent
      ensures Valid() && State() == Dismissed(old(State()), p)
    {
      ghost var h := State();
      hide WellFormed, IsTranspose, IsIndex, Lists, Sockets, ViewerIds, ViewerSockets;
      if pending.Some? {
        pending := Some(pending.value.(updates := pending.value.updates - {p}));
      }
      SameIndex(h, State());
      assert Valid();
      Broadcast(PeerLeft(p));
      SameIndex(h, State());
    }

    method Withdraw(p: PeerId) returns (lost: seq<PeerId>)
      requires Valid()
      modifies neighborViews
      ensures Valid() && AreLosers(old(State()).views, p, lost)
      ensures State() == old(State()).(views := Left(old(State()).views, p))
    {
      ghost var h := State();
      assert forall q {:trigger h.views[q]} :: q in h.views ==> h.views[q] <= h.views.Keys;
      hide WellFormed, IsTranspose, IsIndex, Lists, Sockets, ViewerIds, ViewerSockets, AreLosers, Left;
      lost := neighborViews.Leave(p);
      SameIndex(h, State());
      LostAreLosers(h.views, p, lost);
    }

    lemma LostAreLosers(views: Views, p: PeerId, lost: seq<PeerId>)
      requires if p in views then AreLosers(views, p, lost)
        else lost == [] && forall q {:trigger views[q]} :: q in views ==> views[q] <= views.Keys
      ensures AreLosers(views, p, lost)
      ensures p !in views ==> Left(views, p) == views
    {
      if p !in views {
        forall q {:trigger views[q]} | q in views ensures p !in views[q] && views[q] - {p} == views[q] {}
        assert Watchers(views, p) == {};
        assert Left(views, p) == views;
      }
    }

    method RefillLosers(gone: PeerId, losers: seq<PeerId>) returns (ghost fills: seq<NeighborViewFill>)
      requires Valid()
      modifies this`sent, neighborViews
      ensures Valid() && AreFills(config.viewSize, old(State()).views, losers, fills)
      ensures State() == HubModel.RefillLosers(old(State()), gone, losers, fills)
      decreases |losers|
    {
      if losers == [] { return []; }
      ghost var h := State();
      var f := RefillOne(gone, losers[0]);
      hide WellFormed, IsTranspose, IsIndex, Lists, Sockets, ViewerIds, ViewerSockets, IsFill, AfterFill, AreFills,
        HubModel.RefillLosers, HubModel.FillAndAnnounce;
      FillAndAnnounceViews(Send(h, ViewerSockets(h, losers[0]), [PeerLeft(gone)]), losers[0], f);
      ghost var rest := RefillLosers(gone, losers[1..]);
      fills := [f] + rest;
      RefillsFirst(config.viewSize, h, gone, losers, f, rest);
    }

    lemma FillAndAnnounceViews(h: Hub, p: PeerId, f: NeighborViewFill)
      ensures HubModel.FillAndAnnounce(h, p, f).views == AfterFill(h.views, p, f)
    {
      HubInvariants.FillAndAnnounceFrame(h, p, f);
    }

    lemma RefillsFirst(size: nat, h: Hub, gone: PeerId, losers: seq<PeerId>, f: NeighborViewFill,
                       rest: seq<NeighborViewFill>)
      requires losers != [] && |losers| == |rest| + 1
      ensures HubModel.RefillLosers(h, gone, losers, [f] + rest) ==
        HubModel.RefillLosers(HubModel.FillAndAnnounce(Send(h, ViewerSockets(h, losers[0]), [PeerLeft(gone)]),
          losers[0], f),
                              gone, losers[1..], rest)
      ensures AreFills(size, h.views, losers, [f] + rest) <==>
        IsFill(size, h.views, losers[0], f) && AreFills(size, AfterFill(h.views, losers[0], f), losers[1..], rest)
    {
      assert ([f] + rest)[1..] == rest;
    }

    method RefillOne(gone: PeerId, loser: PeerId) returns (f: NeighborViewFill)
      requires Valid()
      modifies this`sent, neighborViews
      ensures Valid() && IsFill(config.viewSize, old(State()).views, loser, f)
      ensures var told := Send(old(State()), ViewerSockets(old(State()), loser), [PeerLeft(gone)]);
        State() == HubModel.FillAndAnnounce(told, loser, f)
    {
      ghost var h := State();
      hide WellFormed, IsTranspose, IsIndex, Lists, Sockets;
      hide ViewerIds, ViewerSockets, IsFill, AfterFill, HubModel.FillAndAnnounce;
      SendToViewer(loser, PeerLeft(gone));
      SameIndex(h, State());
      f := FillAndAnnounce(loser);
    }

    method PeersLeft(ps: seq<PeerId>) returns (ghost ds: seq<Departure>)
      requires Valid() && Distinct(ps)
      modifies this`pending, this`sent, neighborViews
      ensures Valid() && Peers(ds) == Elems(ps) && |ds| == |ps|
      ensures AreDepartures(config, old(State()).views, ds)
      ensures forall d :: d in ds ==> |d.losers| == |d.fills|
      ensures State() == PeersGone(old(State()), ds)
      decreases |ps|
    {
      if ps == [] {
        assert Peers([]) == {};
        return [];
      }
      ghost var h := State();
      ghost var d := PeerGone(ps[0]);
      hide WellFormed, IsTranspose, IsIndex, Lists, Sockets;
      hide ViewerIds, ViewerSockets, AreLosers, AreFills, RefillAll, HubModel.PeerGone;
      GoneViews(h, d);
      ghost var rest := PeersLeft(ps[1..]);
      ds := [d] + rest;
      DepartsFirst(config, h, ps, d, rest);
    }

    lemma GoneViews(h: Hub, d: Departure)
      requires |d.losers| == |d.fills|
      ensures HubModel.PeerGone(h, d).views == RefillAll(Left(h.views, d.peer), d.losers, d.fills)
    {
      HubInvariants.RefillLosersFrame(HubInvariants.Unlisted(h, d.peer), d.peer, d.losers, d.fills);
    }

    lemma DepartsFirst(c: Config, h: Hub, ps: seq<PeerId>, d: Departure, rest: seq<Departure>)
      requires ps != [] && Distinct(ps) && d.peer == ps[0] && Peers(rest) == Elems(ps[1..])
      requires AreLosers(h.views, d.peer, d.losers) && AreFills(c.viewSize, Left(h.views, d.peer), d.losers, d.fills)
      requires AreDepartures(c, RefillAll(Left(h.views, d.peer), d.losers, d.fills), rest)
      requires forall e :: e in rest ==> |e.losers| == |e.fills|
      ensures Peers([d] + rest) == Elems(ps) && AreDepartures(c, h.views, [d] + rest)
      ensures forall e :: e in [d] + rest ==> |e.losers| == |e.fills|
      ensures PeersGone(h, [d] + rest) == PeersGone(HubModel.PeerGone(h, d), rest)
    {
      var ds := [d] + rest;
      hide AreLosers, AreFills, RefillAll, HubModel.PeerGone;
      assert ds[1..] == rest && ds[0] == d && |d.losers| == |d.fills| by { DepartureFits(c, h, d); }
      assert Peers(ds) == {d.peer} + Peers(rest) by {
        assert d in ds;
        assert forall e :: e in ds <==> e == d || e in rest;
      }
      assert ps == [ps[0]] + ps[1..];
      assert Elems(ps) == {ps[0]} + Elems(ps[1..]);
      assert ps[0] !in Elems(ps[1..]);
    }

    lemma DepartureFits(c: Config, h: Hub, d: Departure)
      requires AreFills(c.viewSize, Left(h.views, d.peer), d.losers, d.fills)
      ensures |d.losers| == |d.fills|
    {
    }

    /** A stale sweep (or a leave): the store drops the peers, then the hub hears of each. */
    method Sweep(ps: seq<PeerId>) returns (ghost e: Event)
      requires Valid() && Distinct(ps) && Elems(ps) <= store.Keys
      modifies this`store, this`live, this`pending, this`sent, neighborViews
      ensures Valid() && e.ESweep? && Peers(e.departures) == Elems(ps)
      ensures Enabled(config, old(State()), e) && State() == Next(config, old(State()), e)
    {
      ghost var h := State();
      hide WellFormed, IsTranspose, IsIndex, Lists, Sockets, ViewerIds, ViewerSockets, PeersGone;
      store := store - Elems(ps);
      live := set s | s in live && s in subscriptions && subscriptions[s].peerId !in Elems(ps);
      SameIndex(h, State());
      ghost var ds := PeersLeft(ps);
      e := ESweep(ds);
    }

    // ---- Subscriptions ----

    method UnindexSubscription(s: Socket)
      requires Valid()
      modifies this`subscriptions, this`immediate, this`batched, this`viewers, this`generation, this`live
      ensures Valid() && State() == Unindex(old(State()), s)
    {
      if s !in subscriptions { return; }
      ghost var h := State();
      hide NeighborViews.Valid, Lists, ViewersWithout, Sockets, ViewerIds, ViewerSockets;
      ghost var i, b, v := immediate, batched, viewers;
      RemoveFromIndex(s, subscriptions[s].peerId);
      IndexWithout(h, s, i, b, v, viewers);
      hide Unindex;
      UnindexIs(h, s, immediate == {} && batched == {} && viewers == map[]);
      SameIndex(h.(subs := h.subs - {s}), State());
    }

    lemma UnindexIs(h: Hub, s: Socket, last: bool)
      requires s in h.subs && (last <==> h.subs - {s} == map[])
      ensures Unindex(h, s) == h.(subs := h.subs - {s}, live := h.live - {s},
        generation := h.generation + if last then 1 else 0)
    {
    }

    method RemoveFromIndex(s: Socket, p: PeerId)
      requires s in subscriptions && p == subscriptions[s].peerId
      modifies this`subscriptions, this`immediate, this`batched, this`viewers, this`generation, this`live
      ensures subscriptions == old(subscriptions) - {s} && live == old(live) - {s}
      ensures generation == old(generation) + if immediate == {} && batched == {} && viewers == map[] then 1 else 0
      ensures immediate == old(immediate) - {s} && batched == old(batched) - {s}
      ensures ViewersWithout(old(viewers), s, p, viewers)
    {
      immediate := immediate - {s};
      batched := batched - {s};
      if p in viewers {
        viewers := viewers[p := viewers[p] - {s}];
        if viewers[p] == {} { viewers := viewers - {p}; }
      }
      if immediate == {} && batched == {} && viewers == map[] {
        generation := generation + 1;
      }
      subscriptions := subscriptions - {s};
      live := live - {s};
    }

    /** Files a socket under its new subscription, moving it out of an earlier one. */
    method SetSubscription(s: Socket, sub: Subscription)
      requires Valid()
      modifies this`subscriptions, this`immediate, this`batched, this`viewers, this`generation, this`live
      ensures Valid() && State() == HubModel.SetSubscription(old(State()), s, sub)
    {
      hide NeighborViews.Valid, Lists, Sockets, ViewerIds, ViewerSockets, Unindex;
      UnindexedIsOut(State(), s);
      UnindexSubscription(s);
      AddToIndex(s, sub);
    }

    lemma UnindexedIsOut(h: Hub, s: Socket)
      ensures s !in Unindex(h, s).subs
    {
    }

    method AddToIndex(s: Socket, sub: Subscription)
      requires Valid() && s !in subscriptions
      modifies this`subscriptions, this`immediate, this`batched, this`viewers, this`live
      ensures Valid()
      ensures State() == old(State()).(subs := old(subscriptions)[s := sub],
        live := if sub.mode == Viewer then old(live) + {s} else old(live))
    {
      ghost var h := State();
      hide NeighborViews.Valid, Lists, Sockets, ViewerIds, ViewerSockets, FlushFits, ValidConfig;
      ghost var h1 := h.(subs := h.subs[s := sub], live := if sub.mode == Viewer then live + {s} else live);
      FileSocket(s, sub);
      IndexWith(h, s, sub, old(immediate), old(batched), old(viewers));
      SameLists(h.(subs := h.subs[s := sub]), h1, immediate, batched, viewers);
      subscriptions := subscriptions[s := sub];
      if sub.mode == Viewer { live := live + {s}; }
      assert State() == h1;
    }

    /** Files a socket under its delivery mode, as a viewer under its peer. */
    method FileSocket(s: Socket, sub: Subscription)
      modifies this`immediate, this`batched, this`viewers
      ensures immediate == if sub.mode == Immediate then old(immediate) + {s} else old(immediate)
      ensures batched == if sub.mode == Batched then old(batched) + {s} else old(batched)
      ensures viewers == if sub.mode == Viewer
        then old(viewers)[sub.peerId := (if sub.peerId in old(viewers) then old(viewers)[sub.peerId] else {}) + {s}]
        else old(viewers)
    {
      match sub.mode {
        case Viewer =>
          viewers := viewers[sub.peerId := (if sub.peerId in viewers then viewers[sub.peerId] else {}) + {s}];
        case Batched => batched := batched + {s};
        case Immediate => immediate := immediate + {s};
      }
    }

    /**
     A `subscribe` message. The fill comes first, so its own announcements cannot reach this socket,
     and the list it is sent has the result.
     */
    method Subscribe(s: Socket, p: PeerId, mode: Mode) returns (ghost e: Event)
      requires Valid() && p in store
      modifies this, neighborViews
      ensures Valid() && e.ESubscribe? && e.socket == s && e.peer == p && e.mode == mode
      ensures Enabled(config, old(State()), e) && State() == Next(config, old(State()), e)
    {
      ghost var h := State();
      if mode != Viewer {
        SetSubscription(s, Subscription(p, mode));
        SendTo({s}, [PeerList(store)]);
        SameIndex(HubModel.SetSubscription(h, s, Subscription(p, mode)), State());
        ghost var unused: NeighborViewFill := NeighborViewFill([], [], []);
        e := ESubscribe(s, p, mode, unused);
        return;
      }
      var f := SubscribeViewer(s, p);
      e := ESubscribe(s, p, mode, f);
    }

    method SubscribeViewer(s: Socket, p: PeerId) returns (f: NeighborViewFill)
      requires Valid() && p in store
      modifies this, neighborViews
      ensures Valid() && IsFill(config.viewSize, Added(Seeded(old(State())), p), p, f)
      ensures State() == HubModel.Subscribe(old(State()), s, p, Viewer, f)
    {
      f := TopUp(p);
      hide NeighborViews.Valid, Lists, Sockets, ViewerIds, ViewerSockets, Seeded, Added, IsFill,
        HubModel.FillAndAnnounce,
        HubModel.SetSubscription;
      FileViewer(s, p);
    }

    method FileViewer(s: Socket, p: PeerId)
      requires Valid()
      modifies this
      ensures Valid()
      ensures State() == (
        var h := old(State());
        var listed := (if p in h.views then h.views[p] else {}) + {p};
        Send(HubModel.SetSubscription(h, s, Subscription(p, Viewer)), {s},
          [PeerList(map q | q in h.store && q in listed :: h.store[q])]))
    {
      ghost var h := State();
      hide NeighborViews.Valid, Lists, Sockets, ViewerIds, ViewerSockets, HubModel.SetSubscription;
      SetSubscription(s, Subscription(p, Viewer));
      SetFrame(h, s, Subscription(p, Viewer));
      var listed := (if p in neighborViews.views then neighborViews.views[p] else {}) + {p};
      SendTo({s}, [PeerList(map q | q in store && q in listed :: store[q])]);
      SameIndex(HubModel.SetSubscription(h, s, Subscription(p, Viewer)), State());
    }

    lemma SetFrame(h: Hub, s: Socket, sub: Subscription)
      ensures HubModel.SetSubscription(h, s, sub).views == h.views
      ensures HubModel.SetSubscription(h, s, sub).store == h.store
    {
    }

    /** Registers the peer and fills its view. */
    method TopUp(p: PeerId) returns (f: NeighborViewFill)
      requires Valid()
      modifies this`sent, neighborViews
      ensures Valid() && IsFill(config.viewSize, Added(Seeded(old(State())), p), p, f)
      ensures State() == HubModel.FillAndAnnounce(old(State()).(views := Added(Seeded(old(State())), p)), p, f)
    {
      ghost var h := State();
      SeededViews();
      neighborViews.Add(p);
      SameIndex(h, State());
      hide HubModel.FillAndAnnounce, IsFill;
      f := FillAndAnnounce(p);
    }

    method Close(s: Socket) returns (ghost e: Event)
      requires Valid()
      modifies this`subscriptions, this`immediate, this`batched, this`viewers, this`generation, this`live
      ensures Valid() && e == EClose(s)
      ensures Enabled(config, old(State()), e) && State() == Next(config, old(State()), e)
    {
      UnindexSubscription(s);
      e := EClose(s);
    }

    // ---- Inventory reports ----

    /** Merges an update into the next batch, arming its timer when there is none. */
    method QueueInventory(p: PeerId, u: Update)
      modifies this`pending
      ensures State() == Queue(old(State()), p, u)
    {
      if pending.None? {
        pending := Some(Batch(map[], true));
      }
      var updates := pending.value.updates;
      match u {
        case Replace(segments) =>
          updates := updates[p := Replace(segments)];
        case Delta(added, removed) =>
          if p in updates && updates[p].Replace? {
            updates := updates[p := Replace(updates[p].segments - removed + added)];
          } else {
            var a: set<Segment> := if p in updates then updates[p].added else {};
            var r: set<Segment> := if p in updates then updates[p].removed else {};
            a, r := a - removed, r + removed;
            r, a := r - added, a + added;
            updates := updates[p := Delta(a, r)];
          }
      }
      pending := Some(pending.value.(updates := updates));
    }

    method SendImmediate(message: Message)
      requires Indexed()
      modifies this`sent
      ensures State() == Send(old(State()), Sockets(old(State()), Immediate), [message])
    {
      if immediate == {} {
        SendNobody(State(), [message]);
        return;
      }
      SendTo(immediate, [message]);
    }

    /** Immediate subscribers get the report at once; it is queued only while somebody receives batches. */
    method PublishInventory(p: PeerId, u: Update)
      requires Valid()
      modifies this`pending, this`sent
      ensures Valid() && State() == Publish(old(State()), p, u)
    {
      ghost var h := State();
      BatchSubscribers(h);
      hide NeighborViews.Valid, Queue, Sockets, ViewerIds, ViewerSockets, HasBatchSubscribers;
      SendImmediate(InventoryReport(p, u));
      assert viewers == map[] <==> viewers.Keys == {};
      hide Lists;
      if batched != {} || viewers != map[] {
        QueueInventory(p, u);
      }
      QueueFrame(Send(h, Sockets(h, Immediate), [InventoryReport(p, u)]), p, u);
      SameIndex(h, State());
    }

    lemma BatchSubscribers(h: Hub)
      ensures HasBatchSubscribers(h) <==> Sockets(h, Batched) != {} || ViewerIds(h) != {}
    {
      if HasBatchSubscribers(h) {
        var s :| s in h.subs && h.subs[s].mode != Immediate;
        if h.subs[s].mode == Viewer {
          assert h.subs[s].peerId in ViewerIds(h);
        } else {
          assert s in Sockets(h, Batched);
        }
      }
    }

    lemma QueueFrame(h: Hub, p: PeerId, u: Update)
      ensures Queue(h, p, u) == h.(pending := Queue(h, p, u).pending)
    {
    }

    /** A `report_segments` message on a socket. Nothing happens when the tracker refuses the sender. */
    method ReportSegments(s: Socket, u: Update) returns (ghost e: Event)
      requires Valid() && s in subscriptions
      modifies this`store, this`pending, this`sent
      ensures Valid() && e == EReport(s, u)
      ensures Enabled(config, old(State()), e) && State() == Next(config, old(State()), e)
    {
      e := EReport(s, u);
      var p := subscriptions[s].peerId;
      if p !in store { return; }
      if u.Replace? && u.segments == store[p] { return; }
      ghost var h := State();
      var segments := match u case Replace(all) => all case Delta(added, removed) => store[p] - removed + added;
      store := store[p := segments];
      SameIndex(h, State());
      hide Publish;
      PublishInventory(p, u);
    }

    /** A report over REST, which is published as a replacement even when the store appended it. */
    method RestReportSegments(p: PeerId, segments: set<Segment>, replace: bool) returns (ghost e: Event)
      requires Valid() && p in store
      modifies this`store, this`pending, this`sent
      ensures Valid() && e == ERestReport(p, segments, replace)
      ensures Enabled(config, old(State()), e) && State() == Next(config, old(State()), e)
    {
      e := ERestReport(p, segments, replace);
      ghost var h := State();
      store := store[p := if replace then segments else store[p] + segments];
      SameIndex(h, State());
      hide Publish;
      PublishInventory(p, Replace(segments));
    }

    // ---- Flushes ----

    /** One flush for some sockets, in messages of at most 256 updates. */
    method SendBatch(us: seq<PeerUpdate>, to: set<Socket>)
      requires us != []
      modifies this`sent
      ensures State() == Send(old(State()), to, BatchMessages(us))
    {
      ghost var h := State();
      hide Sending;
      StartSending(h, to, us);
      var start := 0;
      while start < |us|
        invariant 0 <= start && Sending(h, State(), to, us, start)
      {
        var end := Min(start + MAX_UPDATES_PER_BATCH, |us|);
        ghost var h1 := State();
        SendTo(to, [InventoryBatch(us[start..end])]);
        NextChunk(h, h1, to, us, start);
        start := start + MAX_UPDATES_PER_BATCH;
      }
      Sent(h, State(), to, us, start);
    }

    /** Everything before `start` has been sent. */
    ghost predicate Sending(h: Hub, h1: Hub, to: set<Socket>, us: seq<PeerUpdate>, start: nat) {
      if start == 0 then h1 == h
      else if start < |us| then Send(h1, to, BatchMessages(us[start..])) == Send(h, to, BatchMessages(us))
      else h1 == Send(h, to, BatchMessages(us))
    }

    lemma StartSending(h: Hub, to: set<Socket>, us: seq<PeerUpdate>)
      ensures Sending(h, h, to, us, 0)
    {
    }

    lemma Sent(h: Hub, h1: Hub, to: set<Socket>, us: seq<PeerUpdate>, start: nat)
      requires us != [] && start >= |us| && Sending(h, h1, to, us, start)
      ensures h1 == Send(h, to, BatchMessages(us))
    {
    }

    lemma NextChunk(h: Hub, h1: Hub, to: set<Socket>, us: seq<PeerUpdate>, start: nat)
      requires start < |us| && Sending(h, h1, to, us, start)
      ensures Sending(h, Send(h1, to, [InventoryBatch(us[start..Min(start + MAX_UPDATES_PER_BATCH, |us|)])]), to, us,
        start + MAX_UPDATES_PER_BATCH)
    {
      var rest := us[start..];
      assert us[0..] == us;
      hide Send;
      if |rest| > MAX_UPDATES_PER_BATCH {
        assert rest[..MAX_UPDATES_PER_BATCH] == us[start..start + MAX_UPDATES_PER_BATCH];
        assert rest[MAX_UPDATES_PER_BATCH..] == us[start + MAX_UPDATES_PER_BATCH..];
        SendTwice(h1, to, [InventoryBatch(rest[..MAX_UPDATES_PER_BATCH])],
          BatchMessages(rest[MAX_UPDATES_PER_BATCH..]));
      } else {
        assert us[start..|us|] == rest;
      }
    }

    lemma RestrictOneMore(updates: map<PeerId, Update>, done: set<PeerId>, done1: set<PeerId>, p: PeerId)
      requires p !in done && done1 == done + {p}
      ensures Restrict(updates, done1) ==
        if p in updates then Restrict(updates, done)[p := updates[p]] else Restrict(updates, done)
    {
    }

    /** A viewer's share of a flush, found by walking its view. */
    method ShareByView(updates: map<PeerId, Update>, view: set<PeerId>) returns (us: seq<PeerUpdate>)
      ensures IsListing(us, Restrict(updates, view))
    {
      us := [];
      var rest := view;
      while rest != {}
        invariant rest <= view && IsListing(us, Restrict(updates, view - rest))
      {
        var p :| p in rest;
        ghost var done := view - rest;
        rest := rest - {p};
        RestrictOneMore(updates, done, view - rest, p);
        if p in updates {
          ListingGrows(us, Restrict(updates, done), p, updates[p]);
          us := us + [PeerUpdate(p, updates[p])];
        }
      }
      assert view - rest == view;
    }

    /** The same share, found by walking the updates. */
    method ShareByUpdates(updates: map<PeerId, Update>, view: set<PeerId>) returns (us: seq<PeerUpdate>)
      ensures IsListing(us, Restrict(updates, view))
    {
      us := [];
      var rest := updates.Keys;
      while rest != {}
        invariant rest <= updates.Keys && IsListing(us, Restrict(updates, view - rest))
      {
        var p :| p in rest;
        ghost var done := view - rest;
        rest := rest - {p};
        assert p !in view ==> view - rest == done;
        if p in view {
          RestrictOneMore(updates, done, view - rest, p);
          ListingGrows(us, Restrict(updates, done), p, updates[p]);
          us := us + [PeerUpdate(p, updates[p])];
        }
      }
      assert view - rest == view;
    }

    /** Walks whichever side is smaller. */
    method Share(updates: map<PeerId, Update>, view: set<PeerId>) returns (us: seq<PeerUpdate>)
      ensures IsListing(us, Restrict(updates, view))
    {
      if |view| < |updates| {
        us := ShareByView(updates, view);
      } else {
        us := ShareByUpdates(updates, view);
      }
    }

    method SendShare(p: PeerId, us: seq<PeerUpdate>)
      requires Indexed()
      modifies this`sent
      ensures State() == if us != [] then Send(old(State()), ViewerSockets(old(State()), p), BatchMessages(us))
        else old(State())
    {
      if us == [] { return; }
      if p !in viewers {
        NoViewerSockets(State(), p);
        SendNobody(State(), BatchMessages(us));
        return;
      }
      SendBatch(us, viewers[p]);
    }

    lemma ServeOne(h: Hub, p: PeerId, us: seq<PeerUpdate>)
      ensures ServeViewers(h, [p], map[p := us]) ==
        if p in h.views && us != [] then Send(h, ViewerSockets(h, p), BatchMessages(us)) else h
    {
      assert [p][1..] == [];
    }

    /** What one viewer gets of a flush: the updates of its current neighbors. */
    method ServeViewer(p: PeerId, updates: map<PeerId, Update>) returns (us: seq<PeerUpdate>)
      requires Valid()
      modifies this`sent
      ensures Valid() && (p in neighborViews.views ==> IsListing(us, Restrict(updates, neighborViews.views[p])))
      ensures State() == ServeViewers(old(State()), [p], map[p := us])
    {
      ghost var h := State();
      hide NeighborViews.Valid, IsListing, Restrict, ServeViewers, Sockets, ViewerIds, ViewerSockets;
      us := [];
      if p in neighborViews.views {
        us := Share(updates, neighborViews.views[p]);
        SendShare(p, us);
      }
      ServeOne(h, p, us);
      hide Lists;
      SameIndex(h, State());
    }

    lemma {:induction false} ServeAgain(h: Hub, ids: seq<PeerId>, p: PeerId, us: seq<PeerUpdate>,
                                        shares: map<PeerId, seq<PeerUpdate>>)
      requires p !in ids
      ensures ServeViewers(h, ids + [p], shares[p := us]) ==
        ServeViewers(ServeViewers(h, ids, shares), [p], map[p := us])
      decreases |ids|
    {
      if ids == [] {
        assert ids + [p] == [p] && [p][1..] == [];
      } else {
        var q := ids[0];
        assert (ids + [p])[1..] == ids[1..] + [p];
        var served := q in h.views && q in shares && shares[q] != [];
        ServeAgain(if served then Send(h, ViewerSockets(h, q), BatchMessages(shares[q])) else h,
                   ids[1..], p, us, shares);
      }
    }

    lemma {:induction false} SameShares(h: Hub, ids: seq<PeerId>, a: map<PeerId, seq<PeerUpdate>>,
                                        b: map<PeerId, seq<PeerUpdate>>)
      requires forall p :: p in ids ==> (p in a <==> p in b) && (p in a ==> a[p] == b[p])
      ensures ServeViewers(h, ids, a) == ServeViewers(h, ids, b)
      decreases |ids|
    {
      if ids != [] {
        var q := ids[0];
        var served := q in h.views && q in a && a[q] != [];
        SameShares(if served then Send(h, ViewerSockets(h, q), BatchMessages(a[q])) else h, ids[1..], a, b);
      }
    }

    lemma ServeNobody(h: Hub, updates: map<PeerId, Update>, ids: seq<PeerId>, shares: map<PeerId, seq<PeerUpdate>>)
      ensures AreShares(h, updates, ids[..0], shares) && ServeViewers(h, ids[..0], shares) == h
    {
    }

    lemma ServeNext(h: Hub, updates: map<PeerId, Update>, ids: seq<PeerId>, i: nat, us: seq<PeerUpdate>,
                    shares: map<PeerId, seq<PeerUpdate>>)
      requires i < |ids| && Distinct(ids) && AreShares(h, updates, ids[..i], shares)
      requires ids[i] in h.views ==> IsListing(us, Restrict(updates, h.views[ids[i]]))
      ensures AreShares(h, updates, ids[..i + 1], shares[ids[i] := us])
      ensures var h1 := ServeViewers(h, ids[..i + 1], shares[ids[i] := us]);
        h1 == ServeViewers(ServeViewers(h, ids[..i], shares), [ids[i]], map[ids[i] := us]) && h1 == h.(log := h1.log)
    {
      assert ids[..i + 1] == ids[..i] + [ids[i]];
      hide IsListing, Restrict;
      ServeAgain(h, ids[..i], ids[i], us, shares);
      HubInvariants.ServedFrame(h, ids[..i + 1], shares[ids[i] := us]);
    }

    /** Serves the viewers of one slice. */
    method ServeSlice(ids: seq<PeerId>,
                      updates: map<PeerId, Update>) returns (ghost shares: map<PeerId, seq<PeerUpdate>>)
      requires Valid() && Distinct(ids)
      modifies this`sent
      ensures Valid() && AreShares(old(State()), updates, ids, shares)
      ensures State() == ServeViewers(old(State()), ids, shares)
    {
      ghost var h := State();
      shares := map[];
      hide NeighborViews.Valid, Lists, IsListing, Restrict, ServeViewers, AreShares, Sockets, ViewerIds, ViewerSockets;
      ServeNobody(h, updates, ids, shares);
      for i := 0 to |ids|
        invariant Valid() && State() == h.(log := sent)
        invariant AreShares(h, updates, ids[..i], shares) && State() == ServeViewers(h, ids[..i], shares)
      {
        var us := ServeViewer(ids[i], updates);
        ServeNext(h, updates, ids, i, us, shares);
        shares := shares[ids[i] := us];
      }
      assert ids[..|ids|] == ids;
    }

    /** The slice as it was served; a share for every viewer still to come stands for what later turns will meet. */
    lemma SliceServed(c: Config, h: Hub,
                      some: map<PeerId, seq<PeerUpdate>>) returns (shares: map<PeerId, seq<PeerUpdate>>)
      requires HubInvariants.FlushOk(h)
      requires AreShares(h, h.flush.value.updates, h.flush.value.viewerIds[h.flush.value.next..SliceEnd(c, h)], some)
      ensures HubInvariants.CanSlice(h, shares)
      ensures Slice(c, h, shares) == AfterSlice(c, h).(
        log := ServeViewers(h, h.flush.value.viewerIds[h.flush.value.next..SliceEnd(c, h)], some).log)
    {
      var f, end := h.flush.value, SliceEnd(c, h);
      var ids := f.viewerIds[f.next..];
      assert ids[..end - f.next] == f.viewerIds[f.next..end];
      hide IsListing, Restrict, AreShares;
      shares := SharesExist(h, f.updates, ids, some, end - f.next);
      SameShares(h, f.viewerIds[f.next..end], some, shares);
      HubInvariants.SliceFrame(c, h, shares);
      HubInvariants.ServedFrame(h, f.viewerIds[f.next..end], shares);
    }

    /** A slice but for its messages. */
    ghost function AfterSlice(c: Config, h: Hub): Hub
      requires HubInvariants.FlushOk(h)
    {
      var goesOn := IsCurrent(h) && SliceEnd(c, h) < |h.flush.value.viewerIds|;
      h.(flush := if goesOn then Some(h.flush.value.(next := SliceEnd(c, h))) else None)
    }

    /**
     One slice of the running flush, filtered by the views as they are now. Says whether another
     flush was asked for.
     */
    method TakeSlice() returns (again: bool, ghost shares: map<PeerId, seq<PeerUpdate>>)
      requires Valid() && flush.Some?
      modifies this`sent, this`flush, this`flushRequested
      ensures Valid() && HubInvariants.CanSlice(old(State()), shares)
      ensures var h1 := Slice(config, old(State()), shares);
        && again == (h1.flush.None? && h1.flushRequested)
        && State() == if again then h1.(flushRequested := false) else h1
    {
      ghost var h := State();
      hide NeighborViews.Valid, Lists, IsListing, Restrict, ServeViewers, AreShares, Slice, ValidConfig;
      var f := flush.value;
      var current := f.subscribers == generation;
      var end := if current then Min(f.next + config.viewersPerTurn, |f.viewerIds|) else f.next;
      ghost var some := ServeSlice(f.viewerIds[f.next..end], f.updates);
      shares := SliceServed(config, h, some);
      HubInvariants.ServedFrame(h, f.viewerIds[f.next..end], some);
      if current && end < |f.viewerIds| {
        flush := Some(f.(next := end));
        again := false;
      } else {
        flush := None;
        again := flushRequested;
        flushRequested := false;
      }
      SameLists(h, State(), immediate, batched, viewers);
    }

    method ListUpdates(updates: map<PeerId, Update>) returns (us: seq<PeerUpdate>)
      ensures IsListing(us, updates) && (updates != map[] ==> us != [])
    {
      us := ShareByUpdates(updates, updates.Keys);
      assert Restrict(updates, updates.Keys) == updates;
      if updates != map[] {
        var p :| p in updates;
        assert PeerUpdate(p, updates[p]) in us;
      }
    }

    method ListViewers() returns (ids: seq<PeerId>)
      requires Indexed()
      ensures Distinct(ids) && Elems(ids) == ViewerIds(State())
    {
      ids := [];
      var rest := viewers.Keys;
      while rest != {}
        invariant rest <= viewers.Keys && Distinct(ids) && Elems(ids) == viewers.Keys - rest
      {
        var p :| p in rest;
        assert p !in ids by { assert p !in Elems(ids); }
        assert Elems(ids + [p]) == Elems(ids) + {p};
        ids := ids + [p];
        rest := rest - {p};
      }
    }

    /** The batch whose flush starts, and what is left behind: its timer, if that is still to fire. */
    ghost function Drained(h: Hub): Hub
      requires h.pending.Some?
    {
      h.(pending := None, strayTimers := if h.pending.value.armed then h.strayTimers + 1 else h.strayTimers)
    }

    method Drain() returns (updates: map<PeerId, Update>)
      requires Valid() && pending.Some?
      modifies this`pending, this`strayTimers
      ensures Valid() && State() == Drained(old(State())) && updates == old(pending).value.updates
    {
      ghost var h := State();
      hide NeighborViews.Valid, Lists;
      updates := pending.value.updates;
      if pending.value.armed { strayTimers := strayTimers + 1; }
      pending := None;
      SameIndex(h, State());
    }

    method SendBatched(us: seq<PeerUpdate>)
      requires Valid() && us != []
      modifies this`sent
      ensures Valid() && State() == Send(old(State()), Sockets(old(State()), Batched), BatchMessages(us))
    {
      ghost var h := State();
      if batched == {} {
        SendNobody(h, BatchMessages(us));
        return;
      }
      SendBatch(us, batched);
      SameIndex(h, State());
    }

    /** Starts serving the viewers, with a first slice right away. */
    method ServeFirst(updates: map<PeerId, Update>)
      returns (ghost ids: seq<PeerId>, ghost shares: map<PeerId, seq<PeerUpdate>>)
      requires Valid() && flush.None?
      modifies this`sent, this`flush, this`flushRequested
      ensures Valid() && Distinct(ids) && Elems(ids) == ViewerIds(old(State()))
      ensures AreShares(old(State()), updates, ids, shares)
      ensures State() == Slice(config, old(State()).(flush := Some(Flush(old(generation), updates, ids, 0))), shares)
    {
      ghost var h := State();
      hide NeighborViews.Valid, IsListing, Restrict, Slice, AreShares;
      var order := ListViewers();
      ids := order;
      hide Lists, Sockets, ViewerIds, ViewerSockets;
      flush := Some(Flush(generation, updates, order, 0));
      SameIndex(h, State());
      ghost var h1 := State();
      var again;
      again, shares := TakeSlice();
      HubInvariants.SliceFrame(config, h1, shares);
      SharesFrame(h, h1, updates, ids, shares);
    }

    lemma SharesFrame(h: Hub, h1: Hub, updates: map<PeerId, Update>, ids: seq<PeerId>,
                      shares: map<PeerId, seq<PeerUpdate>>)
      requires h1.views == h.views
      ensures AreShares(h1, updates, ids[0..], shares) <==> AreShares(h, updates, ids, shares)
    {
      assert ids[0..] == ids;
    }

    lemma CanFlushFrame(h: Hub, h1: Hub, o: Orders)
      requires h1.views == h.views && h1.pending == h.pending && ViewerIds(h1) == ViewerIds(h)
      ensures CanFlush(h1, o) <==> CanFlush(h, o)
    {
    }

    lemma FlushOrderExists(h: Hub) returns (o: Orders)
      ensures CanFlush(h, o)
    {
      if h.pending.Some? { o := OrdersExist(h, h.pending.value.updates); } else { o := Orders([], [], map[]); }
    }

    /** What a flush does once its batch is taken, when there is something to send and somebody to send it to. */
    ghost function Flushed(c: Config, h: Hub, updates: map<PeerId, Update>, o: Orders): Hub {
      var h1 := Send(h, Sockets(h, Batched), BatchMessages(o.updates));
      if ViewerIds(h) == {} then h1
        else Slice(c, h1.(flush := Some(Flush(h.generation, updates, o.viewerIds, 0))), o.shares)
    }

    lemma FlushedIs(c: Config, h: Hub, o: Orders)
      requires h.flush.None? && h.pending.Some?
      ensures HubModel.StartFlush(c, h, o) ==
        if h.subs == map[] || h.pending.value.updates == map[] then Drained(h)
          else Flushed(c, Drained(h), h.pending.value.updates, o)
    {
      hide Slice;
      var h1 := Drained(h);
      var h2 := Send(h1, Sockets(h1, Batched), BatchMessages(o.updates));
      SameIndex(h1, h2);
    }

    method FlushUpdates(updates: map<PeerId, Update>) returns (ghost o: Orders)
      requires Valid() && flush.None? && updates != map[]
      modifies this`sent, this`flush, this`flushRequested
      ensures Valid() && AreOrders(old(State()), updates, o)
      ensures State() == Flushed(config, old(State()), updates, o)
    {
      ghost var h := State();
      hide NeighborViews.Valid, IsListing, Restrict, Slice, AreShares, Sockets, ViewerIds, ViewerSockets;
      o := OrdersExist(h, updates);
      var us := ListUpdates(updates);
      SendBatched(us);
      o := o.(updates := us);
      ghost var h1 := State();
      SameIndex(h, h1);
      assert viewers == map[] <==> viewers.Keys == {};
      if viewers == map[] { return; }
      hide Lists;
      ghost var ids, shares := ServeFirst(updates);
      SharesFrame(h, h1, updates, ids, shares);
      o := Orders(us, ids, shares);
    }

    /** `flushInventory`, when no flush is running. */
    method StartFlush() returns (ghost o: Orders)
      requires Valid() && flush.None?
      modifies this`pending, this`strayTimers, this`sent, this`flush, this`flushRequested
      ensures Valid() && CanFlush(old(State()), o)
      ensures State() == HubModel.StartFlush(config, old(State()), o)
    {
      ghost var h := State();
      hide NeighborViews.Valid, AreOrders, Flushed;
      o := FlushOrderExists(h);
      if pending.None? { return; }
      var updates := Drain();
      EmptyIndex(State());
      assert viewers == map[] <==> viewers.Keys == {};
      assert subscriptions == map[] <==> immediate == {} && batched == {} && viewers == map[];
      hide Lists, Sockets, ViewerIds, ViewerSockets, HubModel.StartFlush;
      if !(immediate == {} && batched == {} && viewers == map[]) && updates != map[] {
        ghost var h1 := State();
        o := FlushUpdates(updates);
        OrdersFrame(h, h1, updates, o);
      }
      FlushedIs(config, h, o);
    }

    lemma OrdersFrame(h: Hub, h1: Hub, updates: map<PeerId, Update>, o: Orders)
      requires h1.views == h.views && h1.subs == h.subs
      ensures AreOrders(h1, updates, o) <==> AreOrders(h, updates, o)
    {
    }

    /** Batches stay in order: while a flush runs, another one is only asked for. */
    method FlushInventory() returns (ghost o: Orders)
      requires Valid()
      modifies this`pending, this`strayTimers, this`sent, this`flush, this`flushRequested
      ensures Valid() && (old(flush).None? ==> CanFlush(old(State()), o))
      ensures State() == HubModel.FlushInventory(config, old(State()), o)
    {
      ghost var h := State();
      hide NeighborViews.Valid, Lists, CanFlush, HubModel.StartFlush;
      if flush.Some? {
        flushRequested := true;
        SameIndex(h, State());
        o := Orders([], [], map[]);
        return;
      }
      o := StartFlush();
    }

    /** `sendViewerBatches` on a later event-loop turn. */
    method SendViewerBatches() returns (ghost e: Event)
      requires Valid() && flush.Some?
      modifies this`pending, this`strayTimers, this`sent, this`flush, this`flushRequested
      ensures Valid() && e.ETurn?
      ensures Enabled(config, old(State()), e) && State() == Next(config, old(State()), e)
    {
      ghost var h := State();
      hide NeighborViews.Valid, Lists, CanFlush, HubModel.StartFlush, Slice, Sockets, ViewerIds, ViewerSockets;
      ghost var o := FlushOrderExists(h);
      var again;
      ghost var shares;
      again, shares := TakeSlice();
      HubInvariants.SliceFrame(config, h, shares);
      if again {
        SameIndex(h, State());
        ghost var h1 := State();
        o := FlushInventory();
        CanFlushFrame(h, h1, o);
      }
      e := ETurn(shares, o);
    }

    /** The timer of the pending batch fires. */
    method InventoryTimer() returns (ghost e: Event)
      requires Valid() && pending.Some? && pending.value.armed
      modifies this`pending, this`strayTimers, this`sent, this`flush, this`flushRequested
      ensures Valid() && e.ETimer?
      ensures Enabled(config, old(State()), e) && State() == Next(config, old(State()), e)
    {
      ghost var h := State();
      hide NeighborViews.Valid, Lists, CanFlush, HubModel.FlushInventory, Sockets, ViewerIds, ViewerSockets;
      pending := Some(pending.value.(armed := false));
      SameIndex(h, State());
      ghost var h1 := State();
      ghost var o := FlushInventory();
      FiredFrame(h, h1, o);
      e := ETimer(o);
    }

    lemma FiredFrame(h: Hub, h1: Hub, o: Orders)
      requires h.pending.Some? && h1 == h.(pending := Some(h.pending.value.(armed := false)))
      ensures CanFlush(h1, o) <==> CanFlush(h, o)
    {
    }

    /** A timer whose batch was flushed early fires. */
    method StrayTimer() returns (ghost e: Event)
      requires Valid() && strayTimers > 0
      modifies this`pending, this`strayTimers, this`sent, this`flush, this`flushRequested
      ensures Valid() && e.EStrayTimer?
      ensures Enabled(config, old(State()), e) && State() == Next(config, old(State()), e)
    {
      ghost var h := State();
      hide NeighborViews.Valid, Lists, CanFlush, HubModel.FlushInventory, Sockets, ViewerIds, ViewerSockets;
      strayTimers := strayTimers - 1;
      SameIndex(h, State());
      ghost var h1 := State();
      ghost var o := FlushInventory();
      CanFlushFrame(h, h1, o);
      e := EStrayTimer(o);
    }

    /** The store removed the broadcast: nothing of it may leak into a new one under the same id. */
    method BroadcastRemoved() returns (ghost e: Event)
      requires Valid()
      modifies this, neighborViews
      ensures Valid() && e == ERemoveBroadcast
      ensures Enabled(config, old(State()), e) && State() == Next(config, old(State()), e)
    {
      ghost var h := State();
      store, pending := map[], None;
      neighborViews.RemoveBroadcast();
      SameIndex(h, State());
      CloseAll();
      e := ERemoveBroadcast;
    }

    method CloseAll()
      requires Valid()
      modifies this`subscriptions, this`immediate, this`batched, this`viewers, this`generation, this`live
      ensures Valid()
      ensures State() == old(State()).(subs := map[], live := {},
        generation := if old(subscriptions) == map[] then old(generation) else old(generation) + 1)
    {
      ghost var h := State();
      hide NeighborViews.Valid, Lists, Sockets, ViewerIds, ViewerSockets;
      while subscriptions != map[]
        invariant Valid() && State() == h.(subs := subscriptions, live := live, generation := generation)
        invariant generation == if h.subs != map[] && subscriptions == map[] then h.generation + 1 else h.generation
        decreases |subscriptions|
      {
        var s :| s in subscriptions;
        ghost var n := |subscriptions|;
        assert |subscriptions.Keys - {s}| < |subscriptions.Keys|;
        UnindexSubscription(s);
      }
    }
  }
}
