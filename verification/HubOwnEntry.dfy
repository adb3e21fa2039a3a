/**
 The entry that a neighbor-view client has for its own peer. No view contains its own peer, so no
 batch and no announcement ever touches that entry: it stays the inventory the client was sent when
 it subscribed.
 */
module HubOwnEntry {
  import opened Wrappers
  import opened Inventory
  import opened NeighborViews
  import opened PeerMirror
  import opened Sequences
  import opened HubModel
  import opened HubInvariants
  import opened HubDivergence

  ghost predicate HasOwn(h: Hub, s: Socket, inventory: set<Segment>) {
    s in h.subs && h.subs[s].peerId in MirrorOf(h, s) && MirrorOf(h, s)[h.subs[s].peerId] == inventory
  }

  lemma SameMirror(h: Hub, h1: Hub, s: Socket)
    requires s in h.subs && s in h1.subs && h1.subs[s] == h.subs[s] && Log(h1, s) == Log(h, s)
    requires h.subs[s].peerId in MirrorOf(h, s)
    ensures OwnKept(h, h1, s)
  {
  }

  lemma OwnKeptTwice(h: Hub, h1: Hub, h2: Hub, s: Socket)
    requires s in h.subs && OwnKept(h, h1, s) && OwnKept(h1, h2, s)
    ensures OwnKept(h, h2, s)
  {
    hide MirrorOf;
  }

  lemma FillKeepsOwn(c: Config, h: Hub, gone: set<PeerId>, p: PeerId, f: NeighborViewFill, s: Socket)
    requires Structured(c, h, gone) && p in h.views && IsFill(c.viewSize, h.views, p, f) && s in h.live
    requires s in h.subs && h.subs[s].peerId in MirrorOf(h, s)
    ensures OwnKept(h, FillAndAnnounce(h, p, f), s)
  {
    hide Structured, IsFill, MirrorOf, AfterFill, FillAndAnnounce;
    FilledViewOfLive(c, h, gone, p, f, s);
    FillAndAnnounceFrame(h, p, f);
    OwnAnnounced(h, p, f, s);
  }

  lemma OwnAnnounced(h: Hub, p: PeerId, f: NeighborViewFill, s: Socket)
    requires s in h.subs && h.subs[s].mode == Viewer && h.subs[s].peerId in MirrorOf(h, s)
    requires var v := h.subs[s].peerId;
      v !in Gained(p, f, v) && v !in Dropped(f.evicted, v) && (v == p ==> v !in f.reciprocal)
    ensures OwnKept(h, FillAndAnnounce(h, p, f), s)
  {
    var h0 := h.(views := AfterFill(h.views, p, f));
    AnnounceFillMirror(h0, p, f, s);
    assert MirrorOf(h0, s) == MirrorOf(h, s);
    assert Snapshot(h0, Elems(f.added)).Keys <= Elems(f.added);
    hide MirrorOf, Dropped, AnnounceFill, AfterFill, Snapshot;
  }

  lemma ToldKeepsOwn(h: Hub, x: PeerId, loser: PeerId, s: Socket)
    requires s in h.subs && h.subs[s].peerId in MirrorOf(h, s) && h.subs[s].peerId != x
    ensures OwnKept(h, Told(h, x, loser), s)
  {
    SendMirror(h, ViewerSockets(h, loser), PeerLeft(x), s);
    hide MirrorOf;
  }

  lemma {:induction false} RefillKeepsOwn(c: Config, h: Hub, gone: set<PeerId>, x: PeerId, losers: seq<PeerId>,
                                          fills: seq<NeighborViewFill>, s: Socket)
    requires Structured(c, h, gone) && Elems(losers) <= h.views.Keys && AreFills(c.viewSize, h.views, losers, fills)
    requires s in h.live && s in h.subs && h.subs[s].peerId in MirrorOf(h, s) && h.subs[s].peerId != x
    ensures OwnKept(h, RefillLosers(h, x, losers, fills), s)
    decreases |losers|
  {
    hide Structured, IsFill, FillAndAnnounce, AfterFill, MirrorOf;
    if losers != [] {
      assert losers[0] in Elems(losers) && Elems(losers[1..]) <= Elems(losers);
      var h1 := Told(h, x, losers[0]);
      var h2 := FillAndAnnounce(h1, losers[0], fills[0]);
      assert ToldSame(c, h, h1, gone) by { ToldStructure(c, h, gone, x, losers[0]); }
      ToldKeepsOwn(h, x, losers[0], s);
      FillKeepsOwn(c, h1, gone, losers[0], fills[0], s);
      RefillOneStructure(c, h, gone, x, losers[0], fills[0]);
      FillAndAnnounceFrame(h1, losers[0], fills[0]);
      RefillKeepsOwn(c, h2, gone, x, losers[1..], fills[1..], s);
      OwnKeptTwice(h, h1, h2, s);
      OwnKeptTwice(h, h2, RefillLosers(h, x, losers, fills), s);
    }
  }

  ghost predicate ToldSame(c: Config, h: Hub, h1: Hub, gone: set<PeerId>) {
    h1 == h.(log := h1.log) && Structured(c, h1, gone)
  }

  lemma ToldStructure(c: Config, h: Hub, gone: set<PeerId>, x: PeerId, loser: PeerId)
    requires Structured(c, h, gone)
    ensures ToldSame(c, h, Told(h, x, loser), gone)
  {
    hide WellFormed;
  }

  lemma UnlistedKeepsOwn(h: Hub, x: PeerId, s: Socket)
    requires s in h.subs && h.subs[s].mode == Viewer && h.subs[s].peerId in MirrorOf(h, s)
    ensures OwnKept(h, Unlisted(h, x), s)
  {
    UnlistedMirror(h, x, s);
    hide MirrorOf;
  }

  lemma GoneKeepsOwn(c: Config, h: Hub, gone: set<PeerId>, d: Departure, s: Socket)
    requires Structured(c, h, gone) && d.peer in gone && IsDeparture(c, h.views, d)
    requires s in h.live && s in h.subs && h.subs[s].peerId in MirrorOf(h, s)
    ensures |d.losers| == |d.fills| && OwnKept(h, PeerGone(h, d), s) && s in PeerGone(h, d).live
  {
    assert |d.losers| == |d.fills|;
    var h1 := Unlisted(h, d.peer);
    ViewOfLive(c, h, gone, s);
    hide Structured, AreLosers, AreFills, Left, RefillAll, RefillLosers, MirrorOf;
    GoneIsLost(c, h, gone, d.peer, d.losers);
    UnlistedKeepsStructure(c, h, gone, d.peer);
    UnlistedKeepsOwn(h, d.peer, s);
    RefillKeepsOwn(c, h1, gone - {d.peer}, d.peer, d.losers, d.fills, s);
    RefillLosersFrame(h1, d.peer, d.losers, d.fills);
    OwnKeptTwice(h, h1, PeerGone(h, d), s);
  }

  lemma {:induction false} PeersGoneKeepOwn(c: Config, h: Hub, ds: seq<Departure>, s: Socket)
    requires Structured(c, h, Peers(ds)) && AreDepartures(c, h.views, ds)
    requires s in h.live && s in h.subs && h.subs[s].peerId in MirrorOf(h, s)
    ensures forall d :: d in ds ==> |d.losers| == |d.fills|
    ensures OwnKept(h, PeersGone(h, ds), s)
    decreases |ds|
  {
    if ds != [] {
      DeparturesFit(c, h.views, ds);
      FirstDeparture(ds);
      assert IsDeparture(c, h.views, ds[0]);
      hide Structured, PeerGone, IsDeparture, AreLosers, RefillAll, MirrorOf;
      GoneStructure(c, h, Peers(ds), ds[0]);
      GoneKeepsOwn(c, h, Peers(ds), ds[0], s);
      PeersGoneKeepOwn(c, PeerGone(h, ds[0]), ds[1..], s);
      OwnKeptTwice(h, PeerGone(h, ds[0]), PeersGone(h, ds), s);
    }
  }

  // ---- Events ----

  lemma LiveKnowsItself(c: Config, h: Hub, s: Socket)
    requires PeersKnown(c, h) && s in h.live
    ensures s in h.subs && h.subs[s].mode == Viewer && h.subs[s].peerId in MirrorOf(h, s) && h.subs[s].peerId in h.store
    ensures h.subs[s].peerId !in View(h, h.subs[s].peerId)
  {
    assert WellFormed(c.viewSize, h.views);
    assert KnowsPeers(h, CALM, s);
    hide MirrorOf;
  }

  lemma SweepKeepsOwn(c: Config, h: Hub, ds: seq<Departure>, s: Socket)
    requires PeersKnown(c, h) && Enabled(c, h, ESweep(ds)) && s in Next(c, h, ESweep(ds)).live
    ensures s in h.live && s in h.subs && OwnKept(h, Next(c, h, ESweep(ds)), s)
  {
    DeparturesFit(c, h.views, ds);
    var h0 := DropPeers(h, Peers(ds));
    assert Next(c, h, ESweep(ds)) == PeersGone(h0, ds);
    PeersGoneLive(h0, ds);
    DropFromStore(c, h, Peers(ds));
    hide Structured, KnowsPeers, PeersGone, MirrorOf;
    LiveKnowsItself(c, h, s);
    SameMirror(h, h0, s);
    PeersGoneKeepOwn(c, h0, ds, s);
    OwnKeptTwice(h, h0, PeersGone(h0, ds), s);
  }

  lemma {:induction false} PeersGoneLive(h: Hub, ds: seq<Departure>)
    requires forall d :: d in ds ==> |d.losers| == |d.fills|
    ensures PeersGone(h, ds).live == h.live
    decreases |ds|
  {
    if ds != [] {
      RefillLosersFrame(Unlisted(h, ds[0].peer), ds[0].peer, ds[0].losers, ds[0].fills);
      PeersGoneLive(PeerGone(h, ds[0]), ds[1..]);
    }
  }

  lemma JoinKeepsOwn(c: Config, h: Hub, p: PeerId, f: NeighborViewFill, s: Socket)
    requires PeersKnown(c, h) && Enabled(c, h, EJoin(p, f)) && s in h.live
    ensures s in h.subs && OwnKept(h, JoinPeer(h, p, f), s)
  {
    var h0 := Admitted(h, p);
    assert IsFill(c.viewSize, h0.views, p, f) && JoinPeer(h, p, f) == FillAndAnnounce(h0, p, f);
    LiveKnowsItself(c, h, s);
    AdmittedMirror(h, p, s);
    AdmittedOnly(h, p);
    AdmittedStructure(c, h, p);
    hide PeersKnown, Structured, IsFill, FillAndAnnounce, Admitted, JoinPeer, MirrorOf;
    FillKeepsOwn(c, h0, {}, p, f, s);
    OwnKeptTwice(h, h0, JoinPeer(h, p, f), s);
  }

  lemma OthersFill(c: Config, h: Hub, p: PeerId, f: NeighborViewFill, s: Socket)
    requires PeersKnown(c, h) && p in h.store && IsFill(c.viewSize, Registered(h, p).views, p, f) && s in h.live
    ensures s in h.subs && OwnKept(h, FillAndAnnounce(Registered(h, p), p, f), s)
  {
    var h0 := Registered(h, p);
    LiveKnowsItself(c, h, s);
    RegisteredFrame(c, h, p);
    SameMirror(h, h0, s);
    hide PeersKnown, IsFill, FillAndAnnounce, MirrorOf, Structured, OnlyRegistered;
    RegisteredIsQuiet(c, h, p);
    LiveAreSubscribed(c, h0);
    FillKeepsOwn(c, h0, {}, p, f, s);
    hide Registered;
    OwnKeptTwice(h, h0, FillAndAnnounce(h0, p, f), s);
  }

  lemma OthersResubscribe(h: Hub, t: Socket, sub: Subscription, m: Mirror, s: Socket)
    requires h.live <= h.subs.Keys && t != s && s in h.subs && h.subs[s].peerId in MirrorOf(h, s)
    ensures OwnKept(h, Resubscribed(h, t, sub, m), s)
  {
    hide Resubscribed, MirrorOf;
    ResubscribedFrame(h, t, sub, m);
    SameMirror(h, Resubscribed(h, t, sub, m), s);
  }

  lemma OthersSubscribe(c: Config, h: Hub, t: Socket, p: PeerId, mode: Mode, f: NeighborViewFill, s: Socket)
    requires PeersKnown(c, h) && p in h.store && (mode == Viewer ==> IsFill(c.viewSize, Registered(h, p).views, p, f))
    requires t != s && s in h.live
    ensures s in h.subs && OwnKept(h, Subscribe(h, t, p, mode, f), s)
  {
    LiveKnowsItself(c, h, s);
    LiveAreSubscribed(c, h);
    if mode != Viewer {
      assert Subscribe(h, t, p, mode, f) == Resubscribed(h, t, Subscription(p, mode), h.store);
      hide PeersKnown, MirrorOf, Structured;
      OthersResubscribe(h, t, Subscription(p, mode), h.store, s);
    } else {
      var h1, sub := FillAndAnnounce(Registered(h, p), p, f), Subscription(p, Viewer);
      FillAndAnnounceFrame(Registered(h, p), p, f);
      assert h1.live == h.live && h1.subs == h.subs;
      hide PeersKnown, IsFill, FillAndAnnounce, MirrorOf, Subscribe, Resubscribed, Structured, Registered;
      SubscribeIsResubscribed(h, t, p, f);
      OthersFill(c, h, p, f, s);
      OthersResubscribe(h1, t, sub, Snapshot(h1, Listed(h1, sub)), s);
      OwnKeptTwice(h, h1, Subscribe(h, t, p, mode, f), s);
    }
  }

  /** A viewer that subscribes is sent the stored inventory of its own peer too. */
  lemma SubscribeSendsOwn(c: Config, h: Hub, s: Socket, p: PeerId, f: NeighborViewFill)
    requires PeersKnown(c, h) && Enabled(c, h, ESubscribe(s, p, Viewer, f))
    ensures HasOwn(Subscribe(h, s, p, Viewer, f), s, h.store[p])
  {
    LiveAreSubscribed(c, h);
    hide PeersKnown, Structured, IsFill, FillAndAnnounce, MirrorOf, Subscribe, Resubscribed, Snapshot, Listed;
    var h0, sub := Registered(h, p), Subscription(p, Viewer);
    var h1 := FillAndAnnounce(h0, p, f);
    FillAndAnnounceFrame(h0, p, f);
    assert h1.store == h.store && h1.live == h.live && h1.subs == h.subs;
    SubscribeIsResubscribed(h, s, p, f);
    SnapshotHas(h1, sub);
    ResubscribedFrame(h1, s, sub, Snapshot(h1, Listed(h1, sub)));
  }

  /** The snapshot a viewer is sent has its own entry. */
  lemma SnapshotHas(h: Hub, sub: Subscription)
    requires sub.peerId in h.store
    ensures sub.peerId in Snapshot(h, Listed(h, sub)) && Snapshot(h, Listed(h, sub))[sub.peerId] == h.store[sub.peerId]
  {
  }

  lemma ReportKeepsOwn(h: Hub, p: PeerId, inventory: set<Segment>, u: Update, s: Socket)
    requires s in h.subs && h.subs[s].mode == Viewer && h.subs[s].peerId in MirrorOf(h, s)
    ensures OwnKept(h, Reported(h, p, inventory, u), s) && OwnKept(h, h, s)
  {
    ReportedMirror(h, p, inventory, u, s);
    ReportedOnly(h, p, inventory, u);
    hide Reported, MirrorOf;
  }

  /** No share has an entry for the viewer's own peer. */
  lemma FlushKeepsOwn(c: Config, h: Hub, h1: Hub, s: Socket)
    requires PeersKnown(c, h) && FlushStep(c, h, h1) && s in h1.live
    ensures s in h.live && s in h.subs && OwnKept(h, h1, s)
  {
    LiveKnowsItself(c, h, s);
    hide PeersKnown, MirrorOf, Structured, Absorbed;
    assert Undisturbed(h, h1, s);
  }

  lemma CloseKeepsOwn(h: Hub, t: Socket, s: Socket)
    requires s in h.subs && t != s && h.subs[s].peerId in MirrorOf(h, s)
    ensures OwnKept(h, Unindex(h, t), s)
  {
    UnindexFrame(h, t);
    assert s in Unindex(h, t).subs && Unindex(h, t).subs[s] == h.subs[s];
    hide Unindex;
    SameMirror(h, Unindex(h, t), s);
  }

  /** Whether the event makes `s` subscribe as a viewer, which sends it its own entry afresh. */
  predicate Resubscribes(e: Event, s: Socket) { e.ESubscribe? && e.socket == s }

  /** Timers and turns, which only flush. */
  lemma FlushingKeepsOwn(c: Config, h: Hub, e: Event, s: Socket)
    requires PeersKnown(c, h) && Enabled(c, h, e) && (e.ETimer? || e.EStrayTimer? || e.ETurn?)
    requires s in Next(c, h, e).live
    ensures s in h.live && s in h.subs && OwnKept(h, Next(c, h, e), s)
  {
    hide PeersKnown, FlushInventory, Turn, OwnKept, FlushStep, CanFlush, CanSlice;
    match e {
      case ETimer(o) => TimerKeeps(c, h, h.(pending := Some(h.pending.value.(armed := false))), o);
      case EStrayTimer(o) => TimerKeeps(c, h, h.(strayTimers := h.strayTimers - 1), o);
      case ETurn(shares, o) => TurnIsStep(c, h, shares, o);
    }
    FlushKeepsOwn(c, h, Next(c, h, e), s);
  }

  /** Only a subscription changes a live client's entry for its own peer: it becomes the stored inventory. */
  lemma NextKeepsOwn(c: Config, h: Hub, e: Event, s: Socket)
    requires PeersKnown(c, h) && Enabled(c, h, e) && s in Next(c, h, e).live
    ensures Resubscribes(e, s) ==> e.mode == Viewer && HasOwn(Next(c, h, e), s, h.store[e.peer])
    ensures !Resubscribes(e, s) ==> s in h.live && s in h.subs && OwnKept(h, Next(c, h, e), s)
  {
    var h1 := Next(c, h, e);
    hide PeersKnown, JoinPeer, Sweep, FlushInventory, Turn, Subscribe, Unindex, OwnKept, HasOwn, CanFlush, CanSlice,
      IsFill;
    match e {
      case EJoin(p, f) =>
        JoinLive(h, p, f);
        JoinKeepsOwn(c, h, p, f, s);
      case ESweep(ds) => SweepKeepsOwn(c, h, ds, s);
      case ESubscribe(t, p, mode, f) => SubscribeKeepsOwn(c, h, t, p, mode, f, s);
      case EClose(t) => CloseLive(c, h, t, s);
      case EReport(t, u) =>
        var p := h.subs[t].peerId;
        ReportLive(c, h, p, if p in h.store then Apply(u, h.store[p]) else {}, u, s, h1);
      case ERestReport(p, segments, replace) =>
        ReportLive(c, h, p, if replace then segments else h.store[p] + segments, Replace(segments), s, h1);
      case ERemoveBroadcast =>
      case _ => FlushingKeepsOwn(c, h, e, s);
    }
  }

  lemma JoinLive(h: Hub, p: PeerId, f: NeighborViewFill)
    ensures JoinPeer(h, p, f).live == h.live
  {
    FillAndAnnounceFrame(Admitted(h, p), p, f);
  }

  lemma CloseLive(c: Config, h: Hub, t: Socket, s: Socket)
    requires PeersKnown(c, h) && s in Unindex(h, t).live
    ensures s in h.live && s in h.subs && OwnKept(h, Unindex(h, t), s)
  {
    UnindexFrame(h, t);
    LiveAreSubscribed(c, h);
    hide Unindex, PeersKnown, Structured;
    LiveKnowsItself(c, h, s);
    CloseKeepsOwn(h, t, s);
  }

  lemma ReportLive(c: Config, h: Hub, p: PeerId, inventory: set<Segment>, u: Update, s: Socket, h1: Hub)
    requires PeersKnown(c, h) && s in h1.live && (h1 == h || h1 == Reported(h, p, inventory, u))
    ensures s in h.live && s in h.subs && OwnKept(h, h1, s)
  {
    ReportedOnly(h, p, inventory, u);
    hide Reported, PeersKnown;
    LiveKnowsItself(c, h, s);
    ReportKeepsOwn(h, p, inventory, u, s);
  }

  lemma SubscribeKeepsOwn(c: Config, h: Hub, t: Socket, p: PeerId, mode: Mode, f: NeighborViewFill, s: Socket)
    requires PeersKnown(c, h) && Enabled(c, h, ESubscribe(t, p, mode, f)) && s in Subscribe(h, t, p, mode, f).live
    ensures t == s ==> mode == Viewer && HasOwn(Subscribe(h, t, p, mode, f), s, h.store[p])
    ensures t != s ==> s in h.live && s in h.subs && OwnKept(h, Subscribe(h, t, p, mode, f), s)
  {
    SubscribeLive(c, h, t, p, mode, f);
    hide Subscribe, PeersKnown, HasOwn, OwnKept;
    if t != s { OthersSubscribe(c, h, t, p, mode, f, s); } else { SubscribeSendsOwn(c, h, s, p, f); }
  }

  lemma SubscribeLive(c: Config, h: Hub, t: Socket, p: PeerId, mode: Mode, f: NeighborViewFill)
    requires PeersKnown(c, h) && p in h.store
    ensures Subscribe(h, t, p, mode, f).live == h.live - {t} + (if mode == Viewer then {t} else {})
  {
    LiveAreSubscribed(c, h);
    if mode != Viewer {
      SetSubscriptionFrame(h, t, Subscription(p, mode));
    } else {
      var h1, sub := FillAndAnnounce(Registered(h, p), p, f), Subscription(p, Viewer);
      FillAndAnnounceFrame(Registered(h, p), p, f);
      hide FillAndAnnounce, PeersKnown, Structured, Resubscribed, Subscribe;
      SubscribeIsResubscribed(h, t, p, f);
      ResubscribedFrame(h1, t, sub, Snapshot(h1, Listed(h1, sub)));
    }
  }

  // ---- Every run ----

  /** What the store had for the peer of `s` when `s` last subscribed during the run, or `before` if it did not. */
  ghost function SentOwn(c: Config, h: Hub, run: seq<Event>, s: Socket, before: set<Segment>): set<Segment>
    requires IsRun(c, h, run)
    decreases |run|
  {
    if run == [] then before
    else
      var e := run[0];
      SentOwn(c, Next(c, h, e), run[1..], s,
        if Resubscribes(e, s) && e.peer in h.store then h.store[e.peer] else before)
  }

  lemma {:induction false} RunKeepsOwn(c: Config, h: Hub, run: seq<Event>, s: Socket, before: set<Segment>)
    requires PeersKnown(c, h) && IsRun(c, h, run) && (s in h.live ==> HasOwn(h, s, before))
    ensures s in Outcome(c, h, run).live ==> HasOwn(Outcome(c, h, run), s, SentOwn(c, h, run, s, before))
    decreases |run|
  {
    if run != [] {
      var e := run[0];
      var h1 := Next(c, h, e);
      assert Resubscribes(e, s) ==> e.peer in h.store;
      hide PeersKnown, Enabled, Next, MirrorOf;
      NextKeepsPeers(c, h, e);
      if s in h1.live { NextKeepsOwn(c, h, e, s); }
      RunKeepsOwn(c, h1, run[1..], s, if Resubscribes(e, s) && e.peer in h.store then h.store[e.peer] else before);
    }
  }

  /**
   After every run a live viewer's entry for its own peer is what the store had when it subscribed, so
   the entry is right exactly while the peer's inventory is the one of that moment.
   */
  lemma EveryRunFreezesOwnEntry(c: Config, store: map<PeerId, set<Segment>>, run: seq<Event>, s: Socket)
    requires ValidConfig(c) && IsRun(c, Start(store), run) && s in Outcome(c, Start(store), run).live
    ensures var h, sent := Outcome(c, Start(store), run), SentOwn(c, Start(store), run, s, {});
      && HasOwn(h, s, sent) && h.subs[s].peerId in h.store
      && (HasStored(h, s, h.subs[s].peerId) <==> h.store[h.subs[s].peerId] == sent)
  {
    StartKnows(c, store);
    RunKeepsPeers(c, Start(store), run);
    RunKeepsOwn(c, Start(store), run, s, {});
    hide PeersKnown, MirrorOf;
    LiveKnowsItself(c, Outcome(c, Start(store), run), s);
  }

  /** A live viewer that rests with a wrong entry for its own peer. */
  ghost predicate RestsWrongOnItself(c: Config, h: Hub, run: seq<Event>, s: Socket) {
    IsRun(c, h, run) &&
    (var h1 := Outcome(c, h, run);
     Quiet(h1) && s in h1.live && s in h1.subs && h1.subs[s].peerId in h1.store && !HasStored(h1, s, h1.subs[s].peerId))
  }

  /** With a single viewer a flush ends in the turn it starts. */
  lemma OneViewerFlush(c: Config, h: Hub, o: Orders)
    requires ValidConfig(c) && h.flush.None? && h.pending.Some? && h.subs != map[] && h.pending.value.updates != map[]
    requires CanFlush(h, o) && ViewerIds(h) == {"a"} && !h.flushRequested
    ensures Quiet(FlushInventory(c, h, o)) && FlushInventory(c, h, o).store == h.store
  {
    StartFlushCases(c, h, o);
    TakenOnly(h, o);
    ElemsSize(o.viewerIds);
    hide Taken, CanFlush, Elems;
    SliceFrame(c, Taken(h, o), o.shares);
  }

  lemma TimerFires(c: Config, h: Hub, o: Orders)
    requires PeersKnown(c, h) && h.flush.None? && h.pending.Some? && h.pending.value.armed && CanFlush(h, o)
    requires h.subs == map[0 := Subscription("a", Viewer)] && h.pending.value.updates != map[]
    ensures Enabled(c, h, ETimer(o))
    ensures var h1 := Next(c, h, ETimer(o)); Quiet(h1) && h1.store == h.store && h1.live == h.live
  {
    var h1 := h.(pending := Some(h.pending.value.(armed := false)));
    assert ViewerIds(h) == {"a"} == ViewerIds(h1) by { assert 0 in h.subs; }
    assert ValidConfig(c);
    TimerIsArmed(c, h, o);
    hide PeersKnown, CanFlush, ViewerIds, FlushInventory, StartFlush, FlushStep, Enabled, Next;
    OneViewerFlush(c, h1, o);
    TimerKeeps(c, h, h1, o);
    LiveStays(c, h, FlushInventory(c, h1, o));
  }

  lemma LiveStays(c: Config, h: Hub, h1: Hub)
    requires FlushStep(c, h, h1)
    ensures h1.live == h.live
  {
  }

  /** The timer of a batch that only viewer "a" is there for. */
  lemma SceneAlone(c: Config, h: Hub, store: map<PeerId, set<Segment>>, batch: Batch) returns (e: Event)
    requires Scene(c, h, map[0 := Subscription("a", Viewer)], store, Some(batch), None) && batch.armed
    requires batch.updates != map[]
    requires 0 in h.live
    ensures Enabled(c, h, e) && !Resubscribes(e, 0)
    ensures var h1 := Next(c, h, e); Quiet(h1) && h1.store == store && 0 in h1.live
  {
    hide PeersKnown, Converging, CanFlush, Enabled, Next;
    var o := CanAlwaysFlush(h);
    e := ETimer(o);
    TimerFires(c, h, o);
  }

  lemma ReportKeepsLive(h: Hub, p: PeerId, u: Update)
    requires p in h.store
    ensures Report(h, p, u).live == h.live
  {
    ReportedOnly(h, p, Apply(u, h.store[p]), u);
    hide Reported;
  }

  lemma SceneLive(c: Config, h: Hub, subs: map<Socket, Subscription>, store: map<PeerId, set<Segment>>,
                  segment: Segment)
    requires Scene(c, h, subs, store, None, None) && 0 in subs && subs[0].peerId in store && 0 in h.live
    ensures Enabled(c, h, EReport(0, Delta({segment}, {})))
    ensures 0 in Next(c, h, EReport(0, Delta({segment}, {}))).live
  {
    hide PeersKnown, Converging, Report;
    ReportKeepsLive(h, subs[0].peerId, Delta({segment}, {}));
  }

  lemma SubscriberIsLive(c: Config, h: Hub, e: Event)
    requires PeersKnown(c, h) && Enabled(c, h, e) && Resubscribes(e, 0) && e.mode == Viewer
    ensures 0 in Next(c, h, e).live
  {
    hide PeersKnown;
    SubscribeLive(c, h, 0, e.peer, Viewer, e.fill);
  }

  /** Three events: a viewer subscribes, reports a segment, and the batch is sent. It never hears of its own report. */
  lemma OwnEntryGoesStale(c: Config) returns (run: seq<Event>)
    requires ValidConfig(c)
    ensures |run| == 3 && RestsWrongOnItself(c, Start(map["a" := {}]), run, 0)
  {
    hide Enabled, Next, Scene, Start, MirrorOf, PeersKnown, Converging, Quiet;
    var store: map<PeerId, set<Segment>> := map["a" := {}];
    var h0 := Start(store);
    StartKnows(c, store);
    NobodyIsLive(store);
    var e1, e2, e3 := StaleEvents(c);
    run := [e1, e2, e3];
    ThreeEvents(c, h0, e1, e2, e3);
    SentOnce(c, h0, e1, e2, e3);
    RunKeepsOwn(c, h0, run, 0, {});
    RunKeepsPeers(c, h0, run);
    LiveKnowsItself(c, Outcome(c, h0, run), 0);
  }

  lemma NobodyIsLive(store: map<PeerId, set<Segment>>)
    ensures Start(store).store == store && Start(store).live == {}
  {
  }

  /** The only viewer subscribes and reports, and its report's batch is sent. */
  lemma StaleEvents(c: Config) returns (e1: Event, e2: Event, e3: Event)
    requires ValidConfig(c)
    ensures var h0 := Start(map["a" := {}]);
      && Enabled(c, h0, e1) && Enabled(c, Next(c, h0, e1), e2) && Enabled(c, Next(c, Next(c, h0, e1), e2), e3)
      && Resubscribes(e1, 0) && e1.peer == "a" && !Resubscribes(e2, 0) && !Resubscribes(e3, 0)
      && (var h3 := Next(c, Next(c, Next(c, h0, e1), e2), e3);
          Quiet(h3) && h3.store == map["a" := {"s"}] && 0 in h3.live)
  {
    hide Enabled, Next, Scene, Start, PeersKnown, Converging, Quiet;
    var store: map<PeerId, set<Segment>> := map["a" := {}];
    var subs := map[0 := Subscription("a", Viewer)];
    var h0 := Start(store);
    SceneStart(c, store);
    StartKnows(c, store);
    assert map[][0 := Subscription("a", Viewer)] == subs && subs[0].mode != Immediate;
    e1 := SceneSubscribe(c, h0, map[], store, 0, "a", Viewer);
    var h1 := Next(c, h0, e1);
    SubscriberIsLive(c, h0, e1);
    e2 := EReport(0, Delta({"s"}, {}));
    SceneReport(c, h1, subs, store, 0, "s");
    SceneLive(c, h1, subs, store, "s");
    assert store["a" := {"s"}] == map["a" := {"s"}];
    e3 := SceneAlone(c, Next(c, h1, e2), store["a" := {"s"}], Batch(map["a" := Delta({"s"}, {})], true));
  }

  lemma ThreeEvents(c: Config, h: Hub, e1: Event, e2: Event, e3: Event)
    requires Enabled(c, h, e1) && Enabled(c, Next(c, h, e1), e2) && Enabled(c, Next(c, Next(c, h, e1), e2), e3)
    ensures IsRun(c, h, [e1, e2, e3]) && Outcome(c, h, [e1, e2, e3]) == Next(c, Next(c, Next(c, h, e1), e2), e3)
  {
    hide Enabled, Next;
    var h1 := Next(c, h, e1);
    var h2 := Next(c, h1, e2);
    assert [e1, e2, e3][1..] == [e2, e3] && [e2, e3][1..] == [e3] && [e3][1..] == [];
    assert IsRun(c, h2, [e3]) && Outcome(c, h2, [e3]) == Next(c, h2, e3);
    assert IsRun(c, h1, [e2, e3]) && Outcome(c, h1, [e2, e3]) == Outcome(c, h2, [e3]);
  }

  lemma SentOnce(c: Config, h: Hub, e1: Event, e2: Event, e3: Event)
    requires Enabled(c, h, e1) && Enabled(c, Next(c, h, e1), e2) && Enabled(c, Next(c, Next(c, h, e1), e2), e3)
    requires IsRun(c, h, [e1, e2, e3]) && Resubscribes(e1, 0) && !Resubscribes(e2, 0) && !Resubscribes(e3, 0)
    requires e1.peer in h.store
    ensures SentOwn(c, h, [e1, e2, e3], 0, {}) == h.store[e1.peer]
  {
    hide Enabled, Next;
    var h1 := Next(c, h, e1);
    var h2 := Next(c, h1, e2);
    var sent := h.store[e1.peer];
    assert [e1, e2, e3][1..] == [e2, e3] && [e2, e3][1..] == [e3] && [e3][1..] == [];
    assert IsRun(c, h2, [e3]) && SentOwn(c, h2, [e3], 0, sent) == sent;
    assert IsRun(c, h1, [e2, e3]) && SentOwn(c, h1, [e2, e3], 0, sent) == SentOwn(c, h2, [e3], 0, sent);
  }
}
