/**
 That the hub really links peers: after every run of its events from an empty tracker each peer sees
 as many others as the bound and the audience allow, and a peer that joins, subscribes as a viewer or
 loses a neighbor does so from any reachable state.
 */
module HubSaturation {
  import opened Wrappers
  import opened Inventory
  import opened NeighborViews
  import opened PeerMirror
  import opened Sequences
  import opened HubModel
  import opened HubInvariants
  import opened HubEffects

  // ---- Fills ----

  /** A fill makes its member full, and nobody less full. */
  lemma FillFills(size: nat, v: Views, p: PeerId, f: NeighborViewFill, q: PeerId)
    requires 0 < size && WellFormed(size, v) && IsFill(size, v, p, f) && p in v
    requires IsFull(size, v, q) || q == p
    ensures IsFull(size, AfterFill(v, p, f), q)
  {
    hide WellFormed, IsFill;
    FillKeepsWellFormed(size, v, p, f);
    FilledView(size, v, p, f, q);
    WellFormedView(size, Refilled(v, p, f), q);
  }

  /** A member keeps its neighbors through a fill, or is full after it. */
  lemma FillKeepsLinks(size: nat, v: Views, p: PeerId, f: NeighborViewFill, q: PeerId)
    requires 0 < size && WellFormed(size, v) && IsFill(size, v, p, f) && q in v
    ensures q in AfterFill(v, p, f) && (v[q] <= AfterFill(v, p, f)[q] || IsFull(size, AfterFill(v, p, f), q))
  {
    if p in v && q != p && q in f.reciprocal {
      ReciprocalView(size, v, p, f, q);
      hide IsFill;
      FillKeepsWellFormed(size, v, p, f);
      hide WellFormed;
      WellFormedView(size, Refilled(v, p, f), q);
    }
  }

  lemma {:induction false} RefillsKeepLinks(size: nat, v: Views, losers: seq<PeerId>, fills: seq<NeighborViewFill>,
                                            q: PeerId)
    requires 0 < size && WellFormed(size, v) && AreFills(size, v, losers, fills) && q in v
    ensures q in RefillAll(v, losers, fills)
    ensures v[q] <= RefillAll(v, losers, fills)[q] || IsFull(size, RefillAll(v, losers, fills), q)
    ensures IsFull(size, v, q) ==> IsFull(size, RefillAll(v, losers, fills), q)
    decreases |losers|
  {
    if losers != [] {
      var w := AfterFill(v, losers[0], fills[0]);
      hide WellFormed, IsFill, IsFull;
      RefillOneKeepsWellFormed(size, v, losers[0], fills[0]);
      FillKeepsLinks(size, v, losers[0], fills[0], q);
      if losers[0] in v {
        if IsFull(size, v, q) { FillFills(size, v, losers[0], fills[0], q); }
      } else {
        assert w == v;
      }
      hide AfterFill;
      RefillsKeepLinks(size, w, losers[1..], fills[1..], q);
    }
  }

  // ---- Departures ----

  /** The views after the departures of a sweep. */
  function ViewsAfter(v: Views, ds: seq<Departure>): Views
    requires forall d :: d in ds ==> |d.losers| == |d.fills|
    decreases |ds|
  {
    if ds == [] then v else ViewsAfter(RefillAll(Left(v, ds[0].peer), ds[0].losers, ds[0].fills), ds[1..])
  }

  lemma {:induction false} GoneViews(h: Hub, ds: seq<Departure>)
    requires forall d :: d in ds ==> |d.losers| == |d.fills|
    ensures PeersGone(h, ds).views == ViewsAfter(h.views, ds)
    decreases |ds|
  {
    if ds != [] {
      RefillLosersFrame(Unlisted(h, ds[0].peer), ds[0].peer, ds[0].losers, ds[0].fills);
      GoneViews(PeerGone(h, ds[0]), ds[1..]);
    }
  }

  /** The member is full, or still has a neighbor that is about to leave. */
  ghost predicate IsOwed(size: nat, v: Views, gone: set<PeerId>, q: PeerId) {
    q in v && (IsFull(size, v, q) || v[q] * gone != {})
  }

  lemma LeftView(v: Views, p: PeerId, q: PeerId)
    requires q in v && q != p
    ensures q in Left(v, p) && Left(v, p)[q] == v[q] - {p}
  {
  }

  lemma OneLeft(size: nat, v: Views, d: Departure, gone: set<PeerId>, q: PeerId)
    requires 0 < size && WellFormed(size, v) && d.peer in v && q != d.peer
    requires AreLosers(v, d.peer, d.losers) && AreFills(size, Left(v, d.peer), d.losers, d.fills)
    requires IsOwed(size, v, gone + {d.peer}, q)
    ensures IsOwed(size, RefillAll(Left(v, d.peer), d.losers, d.fills), gone, q)
  {
    hide WellFormed, RefillAll, AreLosers, AreFills, Left;
    var w := Left(v, d.peer);
    LeaveKeepsWellFormed(size, v, d.peer);
    LeftSize(v, d.peer);
    LeftView(v, d.peer, q);
    RefillAllKeepsWellFormed(size, w, d.losers, d.fills);
    if IsFull(size, v, q) || d.peer in v[q] {
      LeaveSaturates(size, v, d.peer, d.losers, d.fills, q);
    } else {
      hide IsFull;
      assert w[q] == v[q];
      RefillsKeepLinks(size, w, d.losers, d.fills, q);
    }
  }

  lemma {:induction false} KeysAfter(c: Config, v: Views, ds: seq<Departure>)
    requires 0 < c.viewSize && WellFormed(c.viewSize, v) && AreDepartures(c, v, ds)
    ensures forall d :: d in ds ==> |d.losers| == |d.fills|
    ensures ViewsAfter(v, ds).Keys == v.Keys - Peers(ds)
    decreases |ds|
  {
    DeparturesFit(c, v, ds);
    if ds == [] {
      assert Peers(ds) == {};
    } else {
      var d := ds[0];
      FirstDeparture(ds);
      LeaveKeepsWellFormed(c.viewSize, v, d.peer);
      hide WellFormed, Peers, RefillAll, Left, AreLosers, AreFills;
      RefillAllKeepsWellFormed(c.viewSize, Left(v, d.peer), d.losers, d.fills);
      KeysAfter(c, RefillAll(Left(v, d.peer), d.losers, d.fills), ds[1..]);
    }
  }

  lemma {:induction false} AllLeft(c: Config, v: Views, ds: seq<Departure>, q: PeerId)
    requires 0 < c.viewSize && WellFormed(c.viewSize, v) && AreDepartures(c, v, ds)
    requires Peers(ds) <= v.Keys && q !in Peers(ds) && IsOwed(c.viewSize, v, Peers(ds), q)
    ensures forall d :: d in ds ==> |d.losers| == |d.fills|
    ensures IsFull(c.viewSize, ViewsAfter(v, ds), q)
    decreases |ds|
  {
    DeparturesFit(c, v, ds);
    if ds == [] {
      assert Peers(ds) == {};
    } else {
      var d := ds[0];
      var v1 := RefillAll(Left(v, d.peer), d.losers, d.fills);
      FirstDeparture(ds);
      LeaveKeepsWellFormed(c.viewSize, v, d.peer);
      hide WellFormed, Peers, RefillAll, Left, AreLosers, AreFills, IsOwed;
      RefillAllKeepsWellFormed(c.viewSize, Left(v, d.peer), d.losers, d.fills);
      assert Peers(ds) == Peers(ds[1..]) + {d.peer};
      OneLeft(c.viewSize, v, d, Peers(ds[1..]), q);
      AllLeft(c, v1, ds[1..], q);
    }
  }

  // ---- Events ----

  lemma JoinViews(c: Config, h: Hub, p: PeerId, f: NeighborViewFill)
    requires PeersKnown(c, h) && Enabled(c, h, EJoin(p, f))
    ensures var w := Admitted(h, p).views;
      && WellFormed(c.viewSize, w) && p in w && IsFill(c.viewSize, w, p, f)
      && Next(c, h, EJoin(p, f)).views == AfterFill(w, p, f)
      && (h.views != map[] ==> p !in h.views && w == Added(h.views, p))
  {
    AdmittedViews(c, h, p);
    FillAndAnnounceFrame(Admitted(h, p), p, f);
  }

  lemma SubscribeViews(c: Config, h: Hub, s: Socket, p: PeerId, f: NeighborViewFill)
    requires PeersKnown(c, h) && Enabled(c, h, ESubscribe(s, p, Viewer, f))
    ensures var w := Registered(h, p).views;
      && WellFormed(c.viewSize, w) && p in w && IsFill(c.viewSize, w, p, f)
      && Next(c, h, ESubscribe(s, p, Viewer, f)).views == AfterFill(w, p, f)
      && (h.views != map[] ==> w == h.views)
  {
    var h1, sub := FillAndAnnounce(Registered(h, p), p, f), Subscription(p, Viewer);
    RegisteredFrame(c, h, p);
    LiveAreSubscribed(c, h);
    FillAndAnnounceFrame(Registered(h, p), p, f);
    hide FillAndAnnounce, Subscribe, Resubscribed, Snapshot, Listed;
    SubscribeIsResubscribed(h, s, p, f);
    ResubscribedFrame(h1, s, sub, Snapshot(h1, Listed(h1, sub)));
  }

  lemma SweepViews(c: Config, h: Hub, ds: seq<Departure>)
    requires PeersKnown(c, h) && Enabled(c, h, ESweep(ds))
    ensures forall d :: d in ds ==> |d.losers| == |d.fills|
    ensures Next(c, h, ESweep(ds)).views == ViewsAfter(h.views, ds)
    ensures ViewsAfter(h.views, ds).Keys == h.views.Keys - Peers(ds)
  {
    DeparturesFit(c, h.views, ds);
    KeysAfter(c, h.views, ds);
    GoneViews(DropPeers(h, Peers(ds)), ds);
  }

  // ---- Full views ----

  /** Whoever joins is linked at once to as many others as the bound and the audience allow. */
  lemma JoinFills(c: Config, h: Hub, p: PeerId, f: NeighborViewFill)
    requires PeersKnown(c, h) && Enabled(c, h, EJoin(p, f))
    ensures var h1 := Next(c, h, EJoin(p, f)); p in h1.views && |h1.views[p]| == Target(c.viewSize, h1.views)
  {
    hide Next, Enabled, WellFormed, IsFill, AfterFill, Admitted;
    assert 0 < c.viewSize;
    JoinViews(c, h, p, f);
    FillFills(c.viewSize, Admitted(h, p).views, p, f, p);
  }

  /** So is whoever subscribes as a viewer. */
  lemma SubscribeFills(c: Config, h: Hub, s: Socket, p: PeerId, f: NeighborViewFill)
    requires PeersKnown(c, h) && Enabled(c, h, ESubscribe(s, p, Viewer, f))
    ensures var h1 := Next(c, h, ESubscribe(s, p, Viewer, f));
      p in h1.views && |h1.views[p]| == Target(c.viewSize, h1.views)
  {
    hide Next, Enabled, WellFormed, IsFill, AfterFill, Registered;
    assert 0 < c.viewSize;
    SubscribeViews(c, h, s, p, f);
    FillFills(c.viewSize, Registered(h, p).views, p, f, p);
  }

  /** So is, after a sweep, every peer left whose neighbors it took. */
  lemma SweepFillsLosers(c: Config, h: Hub, ds: seq<Departure>, q: PeerId)
    requires PeersKnown(c, h) && Enabled(c, h, ESweep(ds)) && q in h.views && q !in Peers(ds)
    requires h.views[q] * Peers(ds) != {}
    ensures var h1 := Next(c, h, ESweep(ds)); q in h1.views && |h1.views[q]| == Target(c.viewSize, h1.views)
  {
    SweepViews(c, h, ds);
    hide Next, WellFormed, ViewsAfter;
    AllLeft(c, h.views, ds, q);
  }

  /** No event takes a peer that stays below what the bound and the audience allow. */
  lemma NextKeepsFull(c: Config, h: Hub, e: Event, q: PeerId)
    requires PeersKnown(c, h) && Enabled(c, h, e) && IsFull(c.viewSize, h.views, q)
    ensures q in Next(c, h, e).views ==> IsFull(c.viewSize, Next(c, h, e).views, q)
  {
    assert 0 < c.viewSize && WellFormed(c.viewSize, h.views);
    hide WellFormed, IsFill, AfterFill, ViewsAfter, Admitted;
    match e {
      case EJoin(p, f) =>
        JoinViews(c, h, p, f);
        hide Next, Enabled;
        JoinStaysFull(c.viewSize, h.views, p, f, q);
      case ESweep(ds) =>
        SweepViews(c, h, ds);
        hide Next;
        if q !in Peers(ds) { AllLeft(c, h.views, ds, q); }
      case ESubscribe(s, p, mode, f) =>
        if mode == Viewer {
          SubscribeViews(c, h, s, p, f);
          hide Next, Enabled;
          FillFills(c.viewSize, h.views, p, f, q);
        } else {
          OthersKeepViews(c, h, e);
        }
      case ERemoveBroadcast =>
      case _ => OthersKeepViews(c, h, e);
    }
  }

  lemma JoinStaysFull(size: nat, v: Views, p: PeerId, f: NeighborViewFill, q: PeerId)
    requires 0 < size && WellFormed(size, v) && p !in v && IsFill(size, Added(v, p), p, f) && IsFull(size, v, q)
    ensures IsFull(size, AfterFill(Added(v, p), p, f), q)
  {
    hide WellFormed, IsFill;
    AddKeepsWellFormed(size, v, p);
    AddedSize(v, p);
    FillKeepsWellFormed(size, Added(v, p), p, f);
    JoinSaturates(size, v, p, f, q);
  }

  // ---- Runs ----

  /** Every view is as large as the bound and the audience allow, and every stored peer has one. */
  ghost predicate AllFull(c: Config, h: Hub) {
    h.views.Keys == h.store.Keys && forall p :: p in h.views ==> IsFull(c.viewSize, h.views, p)
  }

  lemma NewcomerIsFull(c: Config, h: Hub, e: Event, q: PeerId)
    requires PeersKnown(c, h) && Enabled(c, h, e) && h.views.Keys == h.store.Keys
    requires q in Next(c, h, e).views && q !in h.views
    ensures IsFull(c.viewSize, Next(c, h, e).views, q)
  {
    NextKeepsPeers(c, h, e);
    EventStores(c, h, e);
    assert q in Next(c, h, e).store;
    hide Next, PeersKnown;
    assert e.EJoin? && e.peer == q;
    JoinFills(c, h, q, e.fill);
  }

  lemma NextKeepsKeys(c: Config, h: Hub, e: Event)
    requires PeersKnown(c, h) && Enabled(c, h, e) && h.views.Keys == h.store.Keys
    ensures Next(c, h, e).views.Keys == Next(c, h, e).store.Keys
  {
    NextKeepsPeers(c, h, e);
    EventStores(c, h, e);
    hide PeersKnown, WellFormed, IsFill, ViewsAfter, Admitted, Registered;
    match e {
      case EJoin(p, f) =>
        JoinFills(c, h, p, f);
        KeysAgree(c, Next(c, h, e));
      case ESweep(ds) => SweepViews(c, h, ds);
      case ESubscribe(s, p, mode, f) =>
        if mode == Viewer {
          SubscribeFills(c, h, s, p, f);
          KeysAgree(c, Next(c, h, e));
        } else {
          OthersKeepViews(c, h, e);
        }
      case ERemoveBroadcast =>
      case _ => OthersKeepViews(c, h, e);
    }
  }

  lemma KeysAgree(c: Config, h: Hub)
    requires PeersKnown(c, h) && h.views != map[]
    ensures h.views.Keys == h.store.Keys
  {
  }

  lemma NextKeepsAllFull(c: Config, h: Hub, e: Event)
    requires PeersKnown(c, h) && Enabled(c, h, e) && AllFull(c, h)
    ensures AllFull(c, Next(c, h, e))
  {
    var h1 := Next(c, h, e);
    hide PeersKnown, Next, Enabled;
    NextKeepsKeys(c, h, e);
    forall q | q in h1.views ensures IsFull(c.viewSize, h1.views, q) {
      if q in h.views { NextKeepsFull(c, h, e, q); } else { NewcomerIsFull(c, h, e, q); }
    }
  }

  lemma {:induction false} RunKeepsAllFull(c: Config, h: Hub, run: seq<Event>)
    requires PeersKnown(c, h) && AllFull(c, h) && IsRun(c, h, run)
    ensures PeersKnown(c, Outcome(c, h, run)) && AllFull(c, Outcome(c, h, run))
    decreases |run|
  {
    hide PeersKnown, AllFull, Next, Enabled;
    if run != [] {
      NextKeepsPeers(c, h, run[0]);
      NextKeepsAllFull(c, h, run[0]);
      RunKeepsAllFull(c, Next(c, h, run[0]), run[1..]);
    }
  }

  /**
   Over every run from an empty tracker, whatever joins, leaves, subscribes, reports and flushes it
   brings: every peer sees as many others as the bound and the audience allow.
   */
  lemma EveryRunIsSaturated(c: Config, run: seq<Event>)
    requires ValidConfig(c) && IsRun(c, Start(map[]), run)
    ensures Saturated(c.viewSize, Outcome(c, Start(map[]), run).views)
    ensures Outcome(c, Start(map[]), run).views.Keys == Outcome(c, Start(map[]), run).store.Keys
  {
    StartKnows(c, map[]);
    hide PeersKnown, Next, Enabled;
    RunKeepsAllFull(c, Start(map[]), run);
    var views := Outcome(c, Start(map[]), run).views;
    assert forall p :: p in views ==> IsFull(c.viewSize, views, p);
  }

  lemma ViewerKnowsView(c: Config, h: Hub, s: Socket)
    requires PeersKnown(c, h) && s in h.live
    ensures s in h.subs && h.subs[s].peerId in MirrorOf(h, s) && h.subs[s].peerId in h.views
    ensures MirrorOf(h, s).Keys - {h.subs[s].peerId} == h.views[h.subs[s].peerId]
  {
    assert s in h.subs && WellFormed(c.viewSize, h.views);
    ClientsMirrorViews(c, h, s);
    hide PeersKnown, MirrorOf;
    assert h.subs[s].peerId !in h.views[h.subs[s].peerId];
  }

  lemma ViewerIsTold(c: Config, h: Hub, s: Socket)
    requires PeersKnown(c, h) && AllFull(c, h) && s in h.live
    ensures s in h.subs && h.subs[s].peerId in MirrorOf(h, s)
    ensures |MirrorOf(h, s).Keys - {h.subs[s].peerId}| == Min(c.viewSize, |h.store| - 1)
  {
    hide PeersKnown, MirrorOf;
    ViewerKnowsView(c, h, s);
    assert IsFull(c.viewSize, h.views, h.subs[s].peerId);
    assert |h.views| == |h.views.Keys| && |h.store.Keys| == |h.store|;
  }

  /** So every viewer whose peer is still there has been told of exactly that many others. */
  lemma EveryViewerIsTold(c: Config, run: seq<Event>, s: Socket)
    requires ValidConfig(c) && IsRun(c, Start(map[]), run) && s in Outcome(c, Start(map[]), run).live
    ensures var h := Outcome(c, Start(map[]), run);
      && s in h.subs && h.subs[s].peerId in MirrorOf(h, s)
      && |MirrorOf(h, s).Keys - {h.subs[s].peerId}| == Min(c.viewSize, |h.store| - 1)
  {
    StartKnows(c, map[]);
    hide PeersKnown, Next, Enabled, MirrorOf;
    RunKeepsAllFull(c, Start(map[]), run);
    ViewerIsTold(c, Outcome(c, Start(map[]), run), s);
  }
}
