/**
 What every run of the hub keeps: clients know exactly the peers they should, no pending batch is
 stranded, and, while events are safe, every copy of an inventory is on its way to the stored one.
 */
module HubInvariants {
  import opened Wrappers
  import opened Inventory
  import opened NeighborViews
  import opened PeerMirror
  import opened Sequences
  import opened HubModel

  /**
   The part of a sweep already carried out: `gone` peers have left the store but were not announced
   yet, and the `losers` still have to hear that `last` left.
   */
  datatype Stage = Stage(gone: set<PeerId>, last: PeerId, losers: set<PeerId>)

  const CALM := Stage({}, "", {})

  function View(h: Hub, p: PeerId): set<PeerId> { if p in h.views then h.views[p] else {} }

  /** Full-audience clients know the stored peers; a live neighbor-view client knows itself and its view. */
  ghost predicate KnowsPeers(h: Hub, st: Stage, s: Socket)
    requires s in h.subs
  {
    var known, p := MirrorOf(h, s).Keys, h.subs[s].peerId;
    if h.subs[s].mode != Viewer then known == h.store.Keys + st.gone
    else s in h.live ==>
      && p in known
      && known <= View(h, p) + {p} + (if p in st.losers then {st.last} else {})
      && View(h, p) * h.store.Keys <= known
  }

  /** The viewer's share of the running flush has not been sent yet. */
  predicate Unserved(h: Hub, p: PeerId) {
    IsCurrent(h) && h.flush.value.next <= |h.flush.value.viewerIds| &&
      p in h.flush.value.viewerIds[h.flush.value.next..]
  }

  function AfterFlush(h: Hub, captured: bool, p: PeerId, inventory: set<Segment>): set<Segment> {
    if captured && IsCurrent(h) && p in h.flush.value.updates then Apply(h.flush.value.updates[p], inventory)
      else inventory
  }

  function AfterBatch(h: Hub, p: PeerId, inventory: set<Segment>): set<Segment> {
    if h.pending.Some? && p in h.pending.value.updates then Apply(h.pending.value.updates[p], inventory) else inventory
  }

  /**
   An inventory of `p` after the updates still on their way: the running flush, if `captured`, then
   the pending batch.
   */
  function Settled(h: Hub, captured: bool, p: PeerId, inventory: set<Segment>): set<Segment> {
    AfterBatch(h, p, AfterFlush(h, captured, p, inventory))
  }

  /** A client follows the inventories of the peers it knows; a neighbor-view client, those of its neighbors. */
  predicate Follows(h: Hub, s: Socket, p: PeerId)
    requires s in h.subs
  {
    h.subs[s].mode == Viewer ==> s in h.live && p in View(h, h.subs[s].peerId)
  }

  /** What a client's copy of `p` becomes once everything on its way to that client has arrived. */
  ghost function Destiny(h: Hub, s: Socket, p: PeerId): set<Segment>
    requires s in h.subs && p in MirrorOf(h, s)
  {
    var inventory := MirrorOf(h, s)[p];
    match h.subs[s].mode
    case Immediate => inventory
    case Batched => Settled(h, false, p, inventory)
    case Viewer => Settled(h, Unserved(h, h.subs[s].peerId), p, inventory)
  }

  ghost predicate Converges(h: Hub, s: Socket, p: PeerId)
    requires s in h.subs && p in h.store && p in MirrorOf(h, s)
  {
    Follows(h, s, p) ==> Destiny(h, s, p) == h.store[p]
  }

  ghost predicate KnowsInventories(h: Hub, s: Socket)
    requires s in h.subs
  {
    forall p :: p in h.store && p in MirrorOf(h, s) ==> Converges(h, s, p)
  }

  /** The running flush still owes its share to a stored peer other than `p`. */
  predicate OwedToOthers(h: Hub, p: PeerId) { exists v :: v in h.store && v != p && Unserved(h, v) }

  /** Whoever takes a copy of `p` from the store now, nothing on its way changes that copy. */
  ghost predicate Absorbs(h: Hub, p: PeerId)
    requires p in h.store
  {
    && AfterBatch(h, p, h.store[p]) == h.store[p]
    && (OwedToOthers(h, p) ==> Settled(h, true, p, h.store[p]) == h.store[p])
  }

  ghost predicate Absorbed(h: Hub) {
    forall p :: p in h.store ==> Absorbs(h, p)
  }

  ghost predicate Structured(c: Config, h: Hub, gone: set<PeerId>) {
    && ValidConfig(c)
    && WellFormed(c.viewSize, h.views)
    && gone !! h.store.Keys
    && (h.views == map[] || h.views.Keys == h.store.Keys + gone)
    && (h.pending.Some? ==> h.pending.value.updates.Keys <= h.store.Keys + gone)
    && (h.flush.Some? ==> h.flush.value.next <= |h.flush.value.viewerIds| && Distinct(h.flush.value.viewerIds))
    && (h.flush.Some? ==> h.flush.value.subscribers <= h.generation)
    && (forall s :: s in h.live ==>
      s in h.subs && h.subs[s].mode == Viewer && h.subs[s].peerId in h.store && h.subs[s].peerId in h.views)
  }

  // ---- What sends do to the clients' copies ----

  lemma SendMirror(h: Hub, to: set<Socket>, m: Message, s: Socket)
    ensures MirrorOf(Send(h, to, [m]), s) == if s in to then Handle(MirrorOf(h, s), m) else MirrorOf(h, s)
  {
    ReplayOneMore(Log(h, s), m);
  }

  lemma SendBatchMirror(h: Hub, to: set<Socket>, us: seq<PeerUpdate>, updates: map<PeerId, Update>, s: Socket)
    requires IsListing(us, updates)
    ensures MirrorOf(Send(h, to, BatchMessages(us)), s) == if s in to then Patch(MirrorOf(h, s), updates)
      else MirrorOf(h, s)
  {
    DeliveredBatchIsPatch(Log(h, s), us, updates);
  }

  function HandleNotices(m: Mirror, notices: seq<Notice>, viewer: PeerId): Mirror
    decreases |notices|
  {
    if notices == [] then m
    else HandleNotices(if notices[0].viewer == viewer then Handle(m, notices[0].message) else m, notices[1..], viewer)
  }

  lemma {:induction false} NoticesMirror(h: Hub, notices: seq<Notice>, s: Socket)
    requires s in h.subs
    ensures SendNotices(h, notices).(log := h.log) == h
    ensures MirrorOf(SendNotices(h, notices), s) ==
      if h.subs[s].mode == Viewer then HandleNotices(MirrorOf(h, s), notices, h.subs[s].peerId) else MirrorOf(h, s)
    decreases |notices|
  {
    if notices != [] {
      var h1 := Send(h, ViewerSockets(h, notices[0].viewer), [notices[0].message]);
      SendMirror(h, ViewerSockets(h, notices[0].viewer), notices[0].message, s);
      NoticesMirror(h1, notices[1..], s);
    }
  }

  lemma {:induction false} NoticesFrame(h: Hub, notices: seq<Notice>)
    ensures SendNotices(h, notices).(log := h.log) == h
    decreases |notices|
  {
    if notices != [] {
      NoticesFrame(Send(h, ViewerSockets(h, notices[0].viewer), [notices[0].message]), notices[1..]);
    }
  }

  /** The stored peers among `ids`, as a snapshot. */
  function Snapshot(h: Hub, ids: set<PeerId>): Mirror { map a | a in ids && a in h.store :: h.store[a] }

  lemma SnapshotOneMore(h: Hub, m: Mirror, added: seq<PeerId>)
    requires added != []
    ensures added[0] in h.store ==>
      m[added[0] := h.store[added[0]]] + Snapshot(h, Elems(added[1..])) == m + Snapshot(h, Elems(added))
    ensures added[0] !in h.store ==> Snapshot(h, Elems(added[1..])) == Snapshot(h, Elems(added))
  {
    assert added == [added[0]] + added[1..];
    assert Elems(added) == {added[0]} + Elems(added[1..]);
  }

  lemma {:induction false} AddedMirror(h: Hub, p: PeerId, added: seq<PeerId>, m: Mirror, viewer: PeerId)
    ensures HandleNotices(m, AddedNotices(h, p, added), viewer) ==
      if viewer == p then m + Snapshot(h, Elems(added)) else m
    decreases |added|
  {
    if added == [] {
      assert Snapshot(h, Elems(added)) == map[];
    } else {
      SnapshotOneMore(h, m, added);
      hide Snapshot;
      var a := added[0];
      if a in h.store {
        var rest := AddedNotices(h, p, added[1..]);
        var n := Notice(p, PeerJoined(a, h.store[a]));
        assert ([n] + rest)[1..] == rest;
        AddedMirror(h, p, added[1..], if viewer == p then m[a := h.store[a]] else m, viewer);
      } else {
        AddedMirror(h, p, added[1..], m, viewer);
      }
    }
  }

  lemma {:induction false} ReciprocalMirror(h: Hub, p: PeerId, watchers: seq<PeerId>, m: Mirror, viewer: PeerId)
    ensures HandleNotices(m, ReciprocalNotices(h, p, watchers), viewer) ==
      if viewer in watchers && p in h.store then m[p := h.store[p]] else m
    decreases |watchers|
  {
    if watchers != [] && p in h.store {
      var rest := ReciprocalNotices(h, p, watchers[1..]);
      var n := Notice(watchers[0], PeerJoined(p, h.store[p]));
      assert ([n] + rest)[1..] == rest;
      ReciprocalMirror(h, p, watchers[1..], if watchers[0] == viewer then m[p := h.store[p]] else m, viewer);
    }
  }

  lemma {:induction false} EvictedMirror(evicted: seq<Eviction>, m: Mirror, viewer: PeerId)
    ensures HandleNotices(m, EvictedNotices(evicted), viewer) == m - Dropped(evicted, viewer)
    decreases |evicted|
  {
    if evicted == [] {
      assert Dropped([], viewer) == {};
    } else {
      var e := evicted[0];
      var rest := EvictedNotices(evicted[1..]);
      assert ([Notice(e.watcher, PeerLeft(e.peerId))] + rest)[1..] == rest;
      var m1 := if e.watcher == viewer then m - {e.peerId} else m;
      EvictedMirror(evicted[1..], m1, viewer);
      assert evicted == [e] + evicted[1..];
      assert Dropped(evicted, viewer) ==
        Dropped(evicted[1..], viewer) + (if e.watcher == viewer then {e.peerId} else {});
    }
  }

  /** What a viewer's client makes of the announcement of a fill. */
  function Announced(h: Hub, p: PeerId, f: NeighborViewFill, m: Mirror, viewer: PeerId): Mirror {
    var m1 := if viewer == p then m + Snapshot(h, Elems(f.added)) else m;
    var m2 := if viewer in f.reciprocal && p in h.store then m1[p := h.store[p]] else m1;
    m2 - Dropped(f.evicted, viewer)
  }

  lemma AnnounceFillMirror(h: Hub, p: PeerId, f: NeighborViewFill, s: Socket)
    requires s in h.subs
    ensures AnnounceFill(h, p, f).(log := h.log) == h
    ensures MirrorOf(AnnounceFill(h, p, f), s) ==
      if h.subs[s].mode == Viewer then Announced(h, p, f, MirrorOf(h, s), h.subs[s].peerId) else MirrorOf(h, s)
  {
    var n1, n2, n3 := AddedNotices(h, p, f.added), ReciprocalNotices(h, p, f.reciprocal), EvictedNotices(f.evicted);
    var h1 := SendNotices(h, n1);
    NoticesMirror(h, n1, s);
    var h2 := SendNotices(h1, n2);
    NoticesMirror(h1, n2, s);
    NoticesMirror(h2, n3, s);
    var v := h.subs[s].peerId;
    AddedMirror(h, p, f.added, MirrorOf(h, s), v);
    ReciprocalMirror(h, p, f.reciprocal, MirrorOf(h1, s), v);
    EvictedMirror(f.evicted, MirrorOf(h2, s), v);
  }

  lemma AnnounceFillFrame(h: Hub, p: PeerId, f: NeighborViewFill)
    ensures AnnounceFill(h, p, f).(log := h.log) == h
  {
    var h1 := SendNotices(h, AddedNotices(h, p, f.added));
    NoticesFrame(h, AddedNotices(h, p, f.added));
    var h2 := SendNotices(h1, ReciprocalNotices(h, p, f.reciprocal));
    NoticesFrame(h1, ReciprocalNotices(h, p, f.reciprocal));
    NoticesFrame(h2, EvictedNotices(f.evicted));
  }

  // ---- Fills ----

  lemma SnapshotSettles(h: Hub, captured: bool, p: PeerId)
    requires Absorbed(h) && p in h.store && (captured ==> OwedToOthers(h, p))
    ensures Settled(h, captured, p, h.store[p]) == h.store[p]
  {
    assert Absorbs(h, p);
  }

  /** A live viewer that is still owed a share is somebody else than its neighbors. */
  lemma OwedNeighbor(c: Config, h: Hub, gone: set<PeerId>, s: Socket, p: PeerId)
    requires Structured(c, h, gone) && s in h.live && h.subs[s].peerId != p
    ensures h.subs[s].mode == Viewer && (Unserved(h, h.subs[s].peerId) ==> OwedToOthers(h, p))
  {
    hide WellFormed;
  }

  /** Whether snapshots stay as they are depends on the store and on what is on its way only. */
  lemma AbsorbedFrame(h: Hub, h1: Hub)
    requires h1.store == h.store && h1.pending == h.pending && h1.flush == h.flush && h1.generation == h.generation
    ensures Absorbed(h1) == Absorbed(h)
  {
    forall p | p in h.store ensures Absorbs(h1, p) == Absorbs(h, p) {
      assert forall v :: Unserved(h1, v) == Unserved(h, v);
    }
  }

  /** Snapshots that nothing changes stay so when peers go and when less is on its way. */
  lemma AbsorbedShrinks(h: Hub, h1: Hub)
    requires Absorbed(h) && (forall p :: p in h1.store ==> p in h.store && h1.store[p] == h.store[p])
    requires h1.flush == h.flush && h1.generation == h.generation && h1.pending.Some? == h.pending.Some?
    requires h.pending.Some? ==> forall p :: p in h1.store ==>
      (p in h1.pending.value.updates <==> p in h.pending.value.updates) &&
      (p in h.pending.value.updates ==> h1.pending.value.updates[p] == h.pending.value.updates[p])
    ensures Absorbed(h1)
  {
    forall p | p in h1.store ensures Absorbs(h1, p) {
      assert Absorbs(h, p);
      assert forall v :: Unserved(h1, v) == Unserved(h, v);
      assert OwedToOthers(h1, p) ==> OwedToOthers(h, p);
    }
  }

  /** So they do when viewers are served, or when the flush stops. */
  lemma AbsorbedServes(h: Hub, h1: Hub)
    requires Absorbed(h) && h1.store == h.store && h1.pending == h.pending
    requires forall v :: Unserved(h1, v) ==> Unserved(h, v)
    requires IsCurrent(h1) ==> h.flush.Some? && h1.flush.value.updates == h.flush.value.updates
    ensures Absorbed(h1)
  {
    forall p | p in h1.store ensures Absorbs(h1, p) {
      assert Absorbs(h, p);
      if OwedToOthers(h1, p) {
        var v :| v in h1.store && v != p && Unserved(h1, v);
        assert Unserved(h, v);
      }
    }
  }

  lemma FillAndAnnounceFrame(h: Hub, p: PeerId, f: NeighborViewFill)
    ensures FillAndAnnounce(h, p, f) == h.(views := AfterFill(h.views, p, f), log := FillAndAnnounce(h, p, f).log)
  {
    AnnounceFillFrame(h.(views := AfterFill(h.views, p, f)), p, f);
  }

  /** How the fill of `p` changes the view of `v`, as a set equation. */
  lemma FilledViewOf(size: nat, views: Views, p: PeerId, f: NeighborViewFill, v: PeerId)
    requires 0 < size && WellFormed(size, views) && p in views && v in views && IsFill(size, views, p, f)
    ensures v in Refilled(views, p, f)
    ensures v == p ==>
      v !in f.reciprocal && Dropped(f.evicted, v) == {} && Refilled(views, p, f)[v] == views[v] + Elems(f.added)
    ensures v != p ==>
      Refilled(views, p, f)[v] == views[v] - Dropped(f.evicted, v) + (if v in f.reciprocal then {p} else {})
    ensures v !in f.reciprocal ==> Dropped(f.evicted, v) == {}
    ensures v !in Dropped(f.evicted, v) && p !in Dropped(f.evicted, v) && Dropped(f.evicted, v) <= views[v]
  {
    if v !in f.reciprocal {
      assert Dropped(f.evicted, v) == {};
    } else {
      forall d | d in Dropped(f.evicted, v) ensures d in views[v] {}
    }
  }

  /** An announcement adds stored peers, as stored, and forgets dropped neighbors. */
  lemma AnnouncedContents(h: Hub, p: PeerId, f: NeighborViewFill, m: Mirror, v: PeerId)
    ensures Announced(h, p, f, m, v).Keys == m.Keys + (if v == p then Elems(f.added) * h.store.Keys else {}) +
        (if v in f.reciprocal && p in h.store then {p} else {}) - Dropped(f.evicted, v)
    ensures forall q :: q in Announced(h, p, f, m, v) ==>
        (q in m && Announced(h, p, f, m, v)[q] == m[q]) || (q in h.store && Announced(h, p, f, m, v)[q] == h.store[q])
  {
    assert Snapshot(h, Elems(f.added)).Keys == Elems(f.added) * h.store.Keys;
  }

  lemma ViewOfLive(c: Config, h: Hub, gone: set<PeerId>, s: Socket)
    requires Structured(c, h, gone) && s in h.live
    ensures s in h.subs && h.subs[s].mode == Viewer && h.subs[s].peerId in h.views && h.subs[s].peerId in h.store
    ensures View(h, h.subs[s].peerId) == h.views[h.subs[s].peerId] && h.subs[s].peerId !in View(h, h.subs[s].peerId)
  {
  }

  /** The neighbors `v` gains when `p` is filled. */
  function Gained(p: PeerId, f: NeighborViewFill, v: PeerId): set<PeerId> {
    if v == p then Elems(f.added) else if v in f.reciprocal then {p} else {}
  }

  /** The view of a live client before and after the fill of `p`. */
  lemma FilledViewOfLive(c: Config, h: Hub, gone: set<PeerId>, p: PeerId, f: NeighborViewFill, s: Socket)
    requires Structured(c, h, gone) && p in h.views && IsFill(c.viewSize, h.views, p, f) && s in h.live
    ensures s in h.subs && h.subs[s].mode == Viewer
    ensures var v, lost := h.subs[s].peerId, Dropped(f.evicted, h.subs[s].peerId);
      && v !in View(h, v) && v !in lost && p !in lost && lost <= View(h, v) && v in h.views
      && (v == p ==> v !in f.reciprocal && lost == {}) && v !in Gained(p, f, v)
      && v in AfterFill(h.views, p, f) && AfterFill(h.views, p, f)[v] == View(h, v) - lost + Gained(p, f, v)
  {
    ViewOfLive(c, h, gone, s);
    FilledViewOf(c.viewSize, h.views, p, f, h.subs[s].peerId);
    hide Refilled, Dropped, Elems, Structured;
  }

  /** What a neighbor-view client hears of the fill of `p`. */
  lemma FillHeardBy(h: Hub, p: PeerId, f: NeighborViewFill, s: Socket)
    requires s in h.subs && h.subs[s].mode == Viewer
    ensures var v := h.subs[s].peerId;
      MirrorOf(FillAndAnnounce(h, p, f), s).Keys ==
        MirrorOf(h, s).Keys + (if v == p then Elems(f.added) * h.store.Keys else {}) +
        (if v in f.reciprocal && p in h.store then {p} else {}) - Dropped(f.evicted, v)
  {
    var h0 := h.(views := AfterFill(h.views, p, f));
    AnnounceFillMirror(h0, p, f, s);
    assert MirrorOf(h0, s) == MirrorOf(h, s);
    hide MirrorOf, Announced;
    AnnouncedContents(h0, p, f, MirrorOf(h, s), h.subs[s].peerId);
  }

  lemma GainedIsHeard(h: Hub, p: PeerId, f: NeighborViewFill, v: PeerId)
    requires v == p ==> v !in f.reciprocal
    ensures Gained(p, f, v) * h.store.Keys ==
      (if v == p then Elems(f.added) * h.store.Keys else {}) + (if v in f.reciprocal && p in h.store then {p} else {})
  {
  }

  /** A live client's copy gains and loses exactly the stored peers its view gains and loses. */
  lemma FillSeenBy(c: Config, h: Hub, gone: set<PeerId>, p: PeerId, f: NeighborViewFill, s: Socket)
    requires Structured(c, h, gone) && p in h.views && IsFill(c.viewSize, h.views, p, f) && s in h.live
    ensures s in h.subs && h.subs[s].mode == Viewer
    ensures var v, h1 := h.subs[s].peerId, FillAndAnnounce(h, p, f); var lost := Dropped(f.evicted, v);
      && v !in View(h, v) && v !in lost && p !in lost && lost <= View(h, v)
      && View(h1, v) == View(h, v) - lost + Gained(p, f, v)
      && MirrorOf(h1, s).Keys == MirrorOf(h, s).Keys - lost + Gained(p, f, v) * h.store.Keys
  {
    hide MirrorOf, FillAndAnnounce, AfterFill, IsFill, Structured, Dropped, Elems, Gained;
    FilledViewOfLive(c, h, gone, p, f, s);
    FillAndAnnounceFrame(h, p, f);
    FillHeardBy(h, p, f, s);
    GainedIsHeard(h, p, f, h.subs[s].peerId);
  }

  lemma FillKeepsPeers(c: Config, h: Hub, st: Stage, p: PeerId, f: NeighborViewFill, s: Socket)
    requires Structured(c, h, st.gone) && p in h.views && IsFill(c.viewSize, h.views, p, f)
    requires s in h.subs && KnowsPeers(h, st, s)
    ensures s in FillAndAnnounce(h, p, f).subs && KnowsPeers(FillAndAnnounce(h, p, f), st, s)
  {
    hide Structured, IsFill;
    var h0 := h.(views := AfterFill(h.views, p, f));
    FillAndAnnounceFrame(h, p, f);
    AnnounceFillMirror(h0, p, f, s);
    if h.subs[s].mode == Viewer && s in h.live {
      FillSeenBy(c, h, st.gone, p, f, s);
    }
    hide FillAndAnnounce, MirrorOf, Announced, View;
  }

  /** The inventory a client has for a peer after an announcement: the stored one for a peer it was just told about. */
  lemma FillHeardInventory(h: Hub, p: PeerId, f: NeighborViewFill, s: Socket, q: PeerId)
    requires s in h.subs && q in h.store && q in MirrorOf(FillAndAnnounce(h, p, f), s)
    ensures MirrorOf(FillAndAnnounce(h, p, f), s)[q] == h.store[q] ||
      (q in MirrorOf(h, s) && MirrorOf(FillAndAnnounce(h, p, f), s)[q] == MirrorOf(h, s)[q])
    ensures h.subs[s].mode != Viewer ==> MirrorOf(FillAndAnnounce(h, p, f), s) == MirrorOf(h, s)
    ensures h.subs[s].mode == Viewer && q in Gained(p, f, h.subs[s].peerId) ==>
      MirrorOf(FillAndAnnounce(h, p, f), s)[q] == h.store[q]
  {
    var h0 := h.(views := AfterFill(h.views, p, f));
    AnnounceFillMirror(h0, p, f, s);
    assert MirrorOf(h0, s) == MirrorOf(h, s);
    hide MirrorOf, AnnounceFill, SendNotices;
  }

  lemma FilledConverges(c: Config, h: Hub, gone: set<PeerId>, p: PeerId, f: NeighborViewFill, s: Socket, q: PeerId)
    requires Structured(c, h, gone) && p in h.views && IsFill(c.viewSize, h.views, p, f)
    requires s in h.subs && Absorbed(h) && KnowsInventories(h, s)
    requires q in h.store && q in MirrorOf(FillAndAnnounce(h, p, f), s)
    ensures s in FillAndAnnounce(h, p, f).subs && q in FillAndAnnounce(h, p, f).store
    ensures Converges(FillAndAnnounce(h, p, f), s, q)
  {
    hide MirrorOf, FillAndAnnounce, Absorbed, IsFill, Structured, AfterFill, Dropped, Elems, Gained;
    FillAndAnnounceFrame(h, p, f);
    FillHeardInventory(h, p, f, s, q);
    SnapshotSettles(h, false, q);
    assert q in MirrorOf(h, s) ==> Converges(h, s, q);
    if s in h.live {
      FilledViewOfLive(c, h, gone, p, f, s);
      if q != h.subs[s].peerId {
        OwedNeighbor(c, h, gone, s, q);
        hide OwedToOthers;
        SnapshotSettles(h, Unserved(h, h.subs[s].peerId), q);
      }
    }
  }

  lemma FillKeepsInventories(c: Config, h: Hub, gone: set<PeerId>, p: PeerId, f: NeighborViewFill, s: Socket)
    requires Structured(c, h, gone) && p in h.views && IsFill(c.viewSize, h.views, p, f)
    requires s in h.subs && Absorbed(h) && KnowsInventories(h, s)
    ensures s in FillAndAnnounce(h, p, f).subs && KnowsInventories(FillAndAnnounce(h, p, f), s)
  {
    hide Structured, IsFill, MirrorOf, Absorbed, Converges;
    FillAndAnnounceFrame(h, p, f);
    var h1 := FillAndAnnounce(h, p, f);
    forall q | q in h1.store && q in MirrorOf(h1, s) ensures Converges(h1, s, q) {
      FilledConverges(c, h, gone, p, f, s, q);
    }
  }

  lemma FillKeepsStructure(c: Config, h: Hub, gone: set<PeerId>, p: PeerId, f: NeighborViewFill)
    requires Structured(c, h, gone) && p in h.views && IsFill(c.viewSize, h.views, p, f)
    ensures Structured(c, FillAndAnnounce(h, p, f), gone)
  {
    FillAndAnnounceFrame(h, p, f);
    FillKeepsWellFormed(c.viewSize, h.views, p, f);
    hide FillAndAnnounce, IsFill, Refilled, WellFormed;
  }

  // ---- Departures ----

  /** `peerLeft` up to the refills: the full audience is told, and `x` is out of the views. */
  function Unlisted(h: Hub, x: PeerId): Hub {
    var h1 := Dismissed(h, x);
    h1.(views := Left(h1.views, x))
  }

  lemma UnlistedKeepsStructure(c: Config, h: Hub, gone: set<PeerId>, x: PeerId)
    requires Structured(c, h, gone) && x in gone
    ensures Structured(c, Unlisted(h, x), gone - {x})
  {
    hide WellFormed, Distinct, Left, Audience, Log;
    UnlistedViews(c, h, x);
  }

  lemma UnlistedViews(c: Config, h: Hub, x: PeerId)
    requires WellFormed(c.viewSize, h.views)
    ensures WellFormed(c.viewSize, Unlisted(h, x).views) && Unlisted(h, x).views.Keys == h.views.Keys - {x}
    ensures h.views == map[] ==> Unlisted(h, x).views == map[]
  {
    LeaveKeepsWellFormed(c.viewSize, h.views, x);
  }

  lemma UnlistedKeepsAbsorbed(h: Hub, x: PeerId)
    requires Absorbed(h) && x !in h.store
    ensures Absorbed(Unlisted(h, x))
  {
    AbsorbedShrinks(h, Unlisted(h, x));
  }

  lemma UnlistedMirror(h: Hub, x: PeerId, s: Socket)
    requires s in h.subs
    ensures MirrorOf(Unlisted(h, x), s) == if h.subs[s].mode == Viewer then MirrorOf(h, s) else MirrorOf(h, s) - {x}
  {
    var h1 := WithoutPending(h, x);
    SendMirror(h1, Audience(h1), PeerLeft(x), s);
    assert h1.log == h.log && h1.subs == h.subs;
    assert MirrorOf(h1, s) == MirrorOf(h, s) && MirrorOf(Unlisted(h, x), s) == MirrorOf(Dismissed(h, x), s);
    hide MirrorOf, Left, WithoutPending;
  }

  lemma UnlistedView(c: Config, h: Hub, gone: set<PeerId>, x: PeerId, losers: seq<PeerId>, s: Socket)
    requires Structured(c, h, gone) && x in gone && AreLosers(h.views, x, losers) && s in h.live
    ensures s in h.subs && View(Unlisted(h, x), h.subs[s].peerId) == View(h, h.subs[s].peerId) - {x}
    ensures h.subs[s].peerId != x
    ensures h.subs[s].peerId in Elems(losers) <==> x in View(h, h.subs[s].peerId)
  {
    hide WellFormed, Distinct, IsTranspose;
    ViewOfLive(c, h, gone, s);
  }

  lemma GoneIsOut(c: Config, h: Hub, gone: set<PeerId>, x: PeerId)
    requires Structured(c, h, gone) && x in gone
    ensures x !in h.store
  {
    hide WellFormed, Distinct;
  }

  lemma UnlistedKeepsPeers(c: Config, h: Hub, gone: set<PeerId>, x: PeerId, losers: seq<PeerId>, s: Socket)
    requires Structured(c, h, gone) && x in gone && AreLosers(h.views, x, losers)
    requires s in h.subs && KnowsPeers(h, Stage(gone, "", {}), s)
    ensures KnowsPeers(Unlisted(h, x), Stage(gone - {x}, x, Elems(losers)), s)
  {
    hide Structured, AreLosers, MirrorOf, View;
    GoneIsOut(c, h, gone, x);
    UnlistedMirror(h, x, s);
    if s in h.live { UnlistedView(c, h, gone, x, losers, s); }
  }

  lemma UnlistedKeepsInventories(h: Hub, x: PeerId, s: Socket)
    requires s in h.subs && x !in h.store && KnowsInventories(h, s)
    ensures KnowsInventories(Unlisted(h, x), s)
  {
    UnlistedMirror(h, x, s);
    var h1 := Unlisted(h, x);
    hide MirrorOf;
    forall q | q in h1.store && q in MirrorOf(h1, s) ensures Converges(h1, s, q) {
      assert Converges(h, s, q);
    }
  }

  /** The next loser is told that `x` left. */
  function Told(h: Hub, x: PeerId, loser: PeerId): Hub { Send(h, ViewerSockets(h, loser), [PeerLeft(x)]) }

  lemma ToldKeepsPeers(h: Hub, gone: set<PeerId>, x: PeerId, losers: seq<PeerId>, s: Socket)
    requires losers != [] && s in h.subs && x !in h.store && KnowsPeers(h, Stage(gone, x, Elems(losers)), s)
    requires h.subs[s].mode == Viewer && s in h.live ==> h.subs[s].peerId in h.store
    ensures KnowsPeers(Told(h, x, losers[0]), Stage(gone, x, Elems(losers[1..])), s)
  {
    SendMirror(h, ViewerSockets(h, losers[0]), PeerLeft(x), s);
    assert Elems(losers) == {losers[0]} + Elems(losers[1..]) by { assert losers == [losers[0]] + losers[1..]; }
    hide MirrorOf, Elems;
  }

  lemma ToldKeepsInventories(h: Hub, x: PeerId, loser: PeerId, s: Socket)
    requires s in h.subs && x !in h.store && KnowsInventories(h, s)
    ensures KnowsInventories(Told(h, x, loser), s)
  {
    SendMirror(h, ViewerSockets(h, loser), PeerLeft(x), s);
    var h1 := Told(h, x, loser);
    hide MirrorOf;
    forall q | q in h1.store && q in MirrorOf(h1, s) ensures Converges(h1, s, q) {
      assert Converges(h, s, q);
    }
  }

  lemma {:induction false} RefillLosersFrame(h: Hub, x: PeerId, losers: seq<PeerId>, fills: seq<NeighborViewFill>)
    requires |losers| == |fills|
    ensures RefillLosers(h, x, losers, fills) ==
      h.(views := RefillAll(h.views, losers, fills), log := RefillLosers(h, x, losers, fills).log)
    decreases |losers|
  {
    if losers != [] {
      FillAndAnnounceFrame(Told(h, x, losers[0]), losers[0], fills[0]);
      RefillLosersFrame(FillAndAnnounce(Told(h, x, losers[0]), losers[0], fills[0]), x, losers[1..], fills[1..]);
    }
  }

  /** Telling one loser and refilling it. */
  lemma RefillOneLoser(c: Config, h: Hub, gone: set<PeerId>, x: PeerId, losers: seq<PeerId>, f: NeighborViewFill,
                       s: Socket)
    requires Structured(c, h, gone) && x !in h.store && losers != [] && losers[0] in h.views
    requires IsFill(c.viewSize, h.views, losers[0], f)
    requires s in h.subs && KnowsPeers(h, Stage(gone, x, Elems(losers)), s)
    ensures var h1 := FillAndAnnounce(Told(h, x, losers[0]), losers[0], f);
      && s in h1.subs && KnowsPeers(h1, Stage(gone, x, Elems(losers[1..])), s)
      && (Absorbed(h) && KnowsInventories(h, s) ==> KnowsInventories(h1, s))
  {
    hide IsFill, KnowsPeers, KnowsInventories, Absorbed, View;
    if h.subs[s].mode == Viewer && s in h.live { ViewOfLive(c, h, gone, s); }
    assert Structured(c, Told(h, x, losers[0]), gone);
    hide Structured, MirrorOf;
    ToldKeepsPeers(h, gone, x, losers, s);
    FillKeepsPeers(c, Told(h, x, losers[0]), Stage(gone, x, Elems(losers[1..])), losers[0], f, s);
    if Absorbed(h) && KnowsInventories(h, s) {
      ToldKeepsInventories(h, x, losers[0], s);
      AbsorbedFrame(h, Told(h, x, losers[0]));
      FillKeepsInventories(c, Told(h, x, losers[0]), gone, losers[0], f, s);
    }
  }

  lemma RefillOneStructure(c: Config, h: Hub, gone: set<PeerId>, x: PeerId, loser: PeerId, f: NeighborViewFill)
    requires Structured(c, h, gone) && loser in h.views && IsFill(c.viewSize, h.views, loser, f)
    ensures var h1 := FillAndAnnounce(Told(h, x, loser), loser, f);
      Structured(c, h1, gone) && h1.store == h.store && h1.subs == h.subs && h1.views == AfterFill(h.views, loser, f) &&
      h1.views.Keys == h.views.Keys && Absorbed(h1) == Absorbed(h)
  {
    assert Structured(c, Told(h, x, loser), gone);
    assert 0 < c.viewSize && WellFormed(c.viewSize, h.views);
    hide Structured, IsFill, WellFormed;
    FillAndAnnounceFrame(Told(h, x, loser), loser, f);
    FillKeepsStructure(c, Told(h, x, loser), gone, loser, f);
    RefillOneKeepsWellFormed(c.viewSize, h.views, loser, f);
    AbsorbedFrame(h, FillAndAnnounce(Told(h, x, loser), loser, f));
  }

  lemma {:induction false} RefillLosersKeep(c: Config, h: Hub, gone: set<PeerId>, x: PeerId, losers: seq<PeerId>,
                                            fills: seq<NeighborViewFill>, s: Socket)
    requires Structured(c, h, gone) && x !in h.store && Elems(losers) <= h.views.Keys
    requires AreFills(c.viewSize, h.views, losers, fills)
    requires s in h.subs && KnowsPeers(h, Stage(gone, x, Elems(losers)), s)
    ensures var h1 := RefillLosers(h, x, losers, fills);
      && s in h1.subs && KnowsPeers(h1, Stage(gone, x, {}), s)
      && (Absorbed(h) && KnowsInventories(h, s) ==> KnowsInventories(h1, s))
    decreases |losers|
  {
    hide Structured, IsFill, KnowsPeers, KnowsInventories, FillAndAnnounce, AfterFill, Absorbed;
    if losers == [] {
      assert Elems(losers) == {};
    } else {
      assert losers[0] in Elems(losers) && Elems(losers[1..]) <= Elems(losers);
      RefillOneLoser(c, h, gone, x, losers, fills[0], s);
      RefillOneStructure(c, h, gone, x, losers[0], fills[0]);
      RefillLosersKeep(c, FillAndAnnounce(Told(h, x, losers[0]), losers[0], fills[0]), gone, x, losers[1..],
        fills[1..], s);
    }
  }

  lemma {:induction false} RefillLosersStructure(c: Config, h: Hub, gone: set<PeerId>, x: PeerId, losers: seq<PeerId>,
                                                 fills: seq<NeighborViewFill>)
    requires Structured(c, h, gone) && Elems(losers) <= h.views.Keys && AreFills(c.viewSize, h.views, losers, fills)
    ensures Structured(c, RefillLosers(h, x, losers, fills), gone)
    ensures Absorbed(RefillLosers(h, x, losers, fills)) == Absorbed(h)
    decreases |losers|
  {
    hide Structured, IsFill, FillAndAnnounce, AfterFill, Absorbed;
    if losers != [] {
      assert losers[0] in Elems(losers) && Elems(losers[1..]) <= Elems(losers);
      RefillOneStructure(c, h, gone, x, losers[0], fills[0]);
      RefillLosersStructure(c, FillAndAnnounce(Told(h, x, losers[0]), losers[0], fills[0]), gone, x, losers[1..],
        fills[1..]);
    }
  }

  lemma LosersAreMembers(views: Views, x: PeerId, losers: seq<PeerId>)
    requires AreLosers(views, x, losers) && forall p {:trigger views[p]} :: p in views ==> p !in views[p]
    ensures Elems(losers) <= Left(views, x).Keys
  {
    forall p | p in Elems(losers) ensures p in Left(views, x) { assert p in Watchers(views, x); }
  }

  /** What a departure leaves alone of timers and flushes. */
  ghost predicate SameFlushState(h: Hub, h1: Hub) {
    && h1.flush == h.flush && h1.flushRequested == h.flushRequested && h1.pending.Some? == h.pending.Some?
    && (h.pending.Some? ==> h1.pending.value.armed == h.pending.value.armed)
  }

  ghost predicate IsDeparture(c: Config, views: Views, d: Departure) {
    AreLosers(views, d.peer, d.losers) && AreFills(c.viewSize, Left(views, d.peer), d.losers, d.fills)
  }

  lemma GoneStructure(c: Config, h: Hub, gone: set<PeerId>, d: Departure)
    requires Structured(c, h, gone) && d.peer in gone && IsDeparture(c, h.views, d)
    ensures |d.losers| == |d.fills|
    ensures var h1 := PeerGone(h, d);
      Structured(c, h1, gone - {d.peer}) && h1.views == RefillAll(Left(h.views, d.peer), d.losers, d.fills) &&
      h1.store == h.store && h1.subs == h.subs && SameFlushState(h, h1) && (Absorbed(h) ==> Absorbed(h1))
  {
    assert |d.losers| == |d.fills|;
    hide Structured, AreLosers, AreFills, Absorbed, Left, RefillAll, RefillLosers;
    GoneIsLost(c, h, gone, d.peer, d.losers);
    UnlistedKeepsStructure(c, h, gone, d.peer);
    if Absorbed(h) { UnlistedKeepsAbsorbed(h, d.peer); }
    RefillLosersFrame(Unlisted(h, d.peer), d.peer, d.losers, d.fills);
    RefillLosersStructure(c, Unlisted(h, d.peer), gone - {d.peer}, d.peer, d.losers, d.fills);
  }

  lemma GoneIsLost(c: Config, h: Hub, gone: set<PeerId>, x: PeerId, losers: seq<PeerId>)
    requires Structured(c, h, gone) && x in gone && AreLosers(h.views, x, losers)
    ensures x !in h.store && Elems(losers) <= Unlisted(h, x).views.Keys
  {
    LosersAreMembers(h.views, x, losers);
  }

  lemma GoneKeeps(c: Config, h: Hub, gone: set<PeerId>, d: Departure, s: Socket)
    requires Structured(c, h, gone) && d.peer in gone && IsDeparture(c, h.views, d)
    requires s in h.subs && KnowsPeers(h, Stage(gone, "", {}), s)
    ensures |d.losers| == |d.fills|
    ensures var h1 := PeerGone(h, d);
      && s in h1.subs && KnowsPeers(h1, Stage(gone - {d.peer}, "", {}), s)
      && (Absorbed(h) && KnowsInventories(h, s) ==> KnowsInventories(h1, s))
  {
    assert |d.losers| == |d.fills|;
    hide Structured, AreLosers, AreFills, Absorbed, Left, RefillAll, RefillLosers, KnowsInventories, KnowsPeers;
    GoneIsLost(c, h, gone, d.peer, d.losers);
    UnlistedKeepsPeers(c, h, gone, d.peer, d.losers, s);
    UnlistedKeepsStructure(c, h, gone, d.peer);
    if Absorbed(h) && KnowsInventories(h, s) {
      UnlistedKeepsAbsorbed(h, d.peer);
      UnlistedKeepsInventories(h, d.peer, s);
    }
    RefillLosersKeep(c, Unlisted(h, d.peer), gone - {d.peer}, d.peer, d.losers, d.fills, s);
    AllTold(PeerGone(h, d), gone - {d.peer}, d.peer, s);
  }

  lemma AllTold(h: Hub, gone: set<PeerId>, x: PeerId, s: Socket)
    requires s in h.subs
    ensures KnowsPeers(h, Stage(gone, x, {}), s) == KnowsPeers(h, Stage(gone, "", {}), s)
  {
    hide MirrorOf;
  }

  lemma {:induction false} PeersGoneStructure(c: Config, h: Hub, ds: seq<Departure>)
    requires Structured(c, h, Peers(ds)) && AreDepartures(c, h.views, ds)
    ensures forall d :: d in ds ==> |d.losers| == |d.fills|
    ensures Structured(c, PeersGone(h, ds), {}) && SameFlushState(h, PeersGone(h, ds))
    ensures Absorbed(h) ==> Absorbed(PeersGone(h, ds))
    decreases |ds|
  {
    if ds == [] {
      assert Peers(ds) == {};
    } else {
      DeparturesFit(c, h.views, ds);
      FirstDeparture(ds);
      assert IsDeparture(c, h.views, ds[0]);
      hide Structured, PeerGone, Absorbed, IsDeparture, AreLosers, RefillAll;
      GoneStructure(c, h, Peers(ds), ds[0]);
      PeersGoneStructure(c, PeerGone(h, ds[0]), ds[1..]);
    }
  }

  lemma FirstDeparture(ds: seq<Departure>)
    requires ds != [] && ds[0].peer !in Peers(ds[1..])
    ensures ds[0].peer in Peers(ds) && Peers(ds) - {ds[0].peer} == Peers(ds[1..])
  {
    assert ds[0] in ds;
    assert forall d :: d in ds <==> d == ds[0] || d in ds[1..];
  }

  lemma {:induction false} PeersGoneKeep(c: Config, h: Hub, ds: seq<Departure>, s: Socket)
    requires Structured(c, h, Peers(ds)) && AreDepartures(c, h.views, ds)
    requires s in h.subs && KnowsPeers(h, Stage(Peers(ds), "", {}), s)
    ensures forall d :: d in ds ==> |d.losers| == |d.fills|
    ensures s in PeersGone(h, ds).subs && KnowsPeers(PeersGone(h, ds), CALM, s)
    ensures Absorbed(h) && KnowsInventories(h, s) ==> KnowsInventories(PeersGone(h, ds), s)
    decreases |ds|
  {
    if ds == [] {
      assert Peers(ds) == {};
    } else {
      DeparturesFit(c, h.views, ds);
      FirstDeparture(ds);
      assert IsDeparture(c, h.views, ds[0]);
      hide Structured, PeerGone, Absorbed, IsDeparture, AreLosers, RefillAll, KnowsPeers, KnowsInventories;
      GoneStructure(c, h, Peers(ds), ds[0]);
      GoneKeeps(c, h, Peers(ds), ds[0], s);
      PeersGoneKeep(c, PeerGone(h, ds[0]), ds[1..], s);
    }
  }

  // ---- The two invariants ----

  /** No pending batch is stranded: its timer will fire, or a running flush will start it. */
  ghost predicate NotStranded(h: Hub) {
    && (h.pending.Some? && !h.pending.value.armed ==> h.flush.Some? && h.flushRequested)
    && (h.flushRequested ==> h.flush.Some?)
  }

  /** Every client knows exactly the peers it should. */
  ghost predicate ClientsKnow(c: Config, h: Hub) {
    Structured(c, h, {}) && forall s :: s in h.subs ==> KnowsPeers(h, CALM, s)
  }

  /** What holds in every reachable state. */
  ghost predicate PeersKnown(c: Config, h: Hub) { ClientsKnow(c, h) && NotStranded(h) }

  /** Every inventory a client knows becomes the stored one once what is on its way has arrived. */
  ghost predicate Converging(h: Hub) {
    Absorbed(h) && forall s :: s in h.subs ==> KnowsInventories(h, s)
  }

  // ---- Sweeps ----

  function DropPeers(h: Hub, gone: set<PeerId>): Hub {
    h.(store := h.store - gone, live := set s | s in h.live && s in h.subs && h.subs[s].peerId !in gone)
  }

  lemma DropKnows(c: Config, h: Hub, gone: set<PeerId>, s: Socket)
    requires s in h.subs && KnowsPeers(h, CALM, s) && gone <= h.store.Keys
    ensures KnowsPeers(DropPeers(h, gone), Stage(gone, "", {}), s)
  {
    assert DropPeers(h, gone).store.Keys + gone == h.store.Keys;
    assert MirrorOf(DropPeers(h, gone), s) == MirrorOf(h, s);
    hide MirrorOf;
  }

  lemma DropFromStore(c: Config, h: Hub, gone: set<PeerId>)
    requires PeersKnown(c, h) && gone <= h.store.Keys
    ensures Structured(c, DropPeers(h, gone), gone)
    ensures forall s :: s in h.subs ==> KnowsPeers(DropPeers(h, gone), Stage(gone, "", {}), s)
  {
    assert DropPeers(h, gone).store.Keys + gone == h.store.Keys;
    hide WellFormed, KnowsPeers;
    forall s | s in h.subs ensures KnowsPeers(DropPeers(h, gone), Stage(gone, "", {}), s) { DropKnows(c, h, gone, s); }
  }

  lemma DropKeepsConverging(h: Hub, gone: set<PeerId>)
    requires Converging(h)
    ensures Absorbed(DropPeers(h, gone))
    ensures forall s :: s in h.subs ==> KnowsInventories(DropPeers(h, gone), s)
  {
    var h1 := DropPeers(h, gone);
    AbsorbedShrinks(h, h1);
    forall s | s in h.subs ensures KnowsInventories(h1, s) {
      assert KnowsInventories(h, s) && MirrorOf(h1, s) == MirrorOf(h, s);
      hide MirrorOf;
      forall q | q in h1.store && q in MirrorOf(h1, s) ensures Converges(h1, s, q) { assert Converges(h, s, q); }
    }
  }

  lemma {:induction false} PeersGoneSubs(h: Hub, ds: seq<Departure>)
    requires forall d :: d in ds ==> |d.losers| == |d.fills|
    ensures PeersGone(h, ds).subs == h.subs
    decreases |ds|
  {
    if ds != [] {
      RefillLosersFrame(Unlisted(h, ds[0].peer), ds[0].peer, ds[0].losers, ds[0].fills);
      PeersGoneSubs(PeerGone(h, ds[0]), ds[1..]);
    }
  }

  lemma SweepKeepsPeers(c: Config, h: Hub, ds: seq<Departure>)
    requires PeersKnown(c, h) && Peers(ds) <= h.store.Keys && AreDepartures(c, h.views, ds)
    ensures forall d :: d in ds ==> |d.losers| == |d.fills|
    ensures PeersKnown(c, Sweep(h, ds))
  {
    var h0 := DropPeers(h, Peers(ds));
    DropFromStore(c, h, Peers(ds));
    hide Structured, KnowsPeers, AreDepartures, PeersGone, Peers;
    PeersGoneStructure(c, h0, ds);
    PeersGoneSubs(h0, ds);
    forall s | s in h0.subs ensures KnowsPeers(PeersGone(h0, ds), CALM, s) { PeersGoneKeep(c, h0, ds, s); }
  }

  lemma SweepKeepsConverging(c: Config, h: Hub, ds: seq<Departure>)
    requires PeersKnown(c, h) && Converging(h) && Peers(ds) <= h.store.Keys && AreDepartures(c, h.views, ds)
    ensures forall d :: d in ds ==> |d.losers| == |d.fills|
    ensures Converging(Sweep(h, ds))
  {
    var h0 := DropPeers(h, Peers(ds));
    DropFromStore(c, h, Peers(ds));
    DropKeepsConverging(h, Peers(ds));
    hide Structured, KnowsPeers, KnowsInventories, Absorbed, AreDepartures, PeersGone, Peers;
    PeersGoneStructure(c, h0, ds);
    PeersGoneSubs(h0, ds);
    forall s | s in h0.subs ensures KnowsInventories(PeersGone(h0, ds), s) { PeersGoneKeep(c, h0, ds, s); }
  }

  // ---- Joins ----

  lemma SeededKeys(h: Hub)
    requires h.views == map[] || h.views.Keys == h.store.Keys
    ensures Seeded(h).Keys == h.store.Keys
    ensures forall p :: p in Seeded(h) ==> Seeded(h)[p] == View(h, p)
  {
  }

  lemma SeededWellFormed(size: nat, h: Hub)
    requires WellFormed(size, h.views)
    ensures WellFormed(size, Seeded(h))
  {
  }

  /** The newcomer is stored and announced to the full audience, but not linked yet. */
  function Admitted(h: Hub, p: PeerId): Hub {
    var h1 := h.(store := h.store[p := {}]);
    var h2 := Send(h1, Audience(h1), [PeerJoined(p, {})]);
    h2.(views := Added(Seeded(h2), p))
  }

  lemma AdmittedViews(c: Config, h: Hub, p: PeerId)
    requires Structured(c, h, {}) && p !in h.store
    ensures WellFormed(c.viewSize, Admitted(h, p).views)
  {
    SeededWellFormed(c.viewSize, h.(store := h.store[p := {}]));
    hide WellFormed;
    AddKeepsWellFormed(c.viewSize, Seeded(h.(store := h.store[p := {}])), p);
  }

  lemma AdmittedKeys(h: Hub, p: PeerId)
    requires (h.views == map[] || h.views.Keys == h.store.Keys) && p !in h.store
    ensures Admitted(h, p).views.Keys == h.store.Keys + {p}
  {
    var h1 := h.(store := h.store[p := {}]);
    if h.views == map[] { SeededKeys(h1); }
  }

  lemma AdmittedView(h: Hub, p: PeerId, q: PeerId)
    requires h.views == map[] || h.views.Keys == h.store.Keys
    requires p !in h.store
    ensures View(Admitted(h, p), q) == View(h, q)
  {
    var h1 := h.(store := h.store[p := {}]);
    if h.views == map[] { SeededKeys(h1); }
  }

  lemma AdmittedStructure(c: Config, h: Hub, p: PeerId)
    requires Structured(c, h, {}) && p !in h.store
    ensures Structured(c, Admitted(h, p), {}) && p in Admitted(h, p).views
  {
    AdmittedViews(c, h, p);
    AdmittedKeys(h, p);
    AdmittedOnly(h, p);
    hide WellFormed, Admitted;
    StructuredAdmitted(c, h, Admitted(h, p), p);
  }

  lemma StructuredAdmitted(c: Config, h: Hub, h1: Hub, p: PeerId)
    requires Structured(c, h, {}) && AdmittedFrame(h, h1) && h1.store == h.store[p := {}]
    requires WellFormed(c.viewSize, h1.views) && h1.views.Keys == h.store.Keys + {p}
    ensures Structured(c, h1, {})
  {
    hide WellFormed;
    assert h1.store.Keys == h.store.Keys + {p};
  }

  ghost predicate AdmittedFrame(h: Hub, h1: Hub) {
    h1.subs == h.subs && h1.live == h.live && h1.flush == h.flush && h1.pending == h.pending &&
    h1.generation == h.generation && h1.flushRequested == h.flushRequested
  }

  lemma AdmittedOnly(h: Hub, p: PeerId)
    ensures AdmittedFrame(h, Admitted(h, p)) && Admitted(h, p).store == h.store[p := {}]
  {
  }

  lemma AdmittedMirror(h: Hub, p: PeerId, s: Socket)
    requires s in h.subs
    ensures MirrorOf(Admitted(h, p), s) == if h.subs[s].mode == Viewer then MirrorOf(h, s) else MirrorOf(h, s)[p := {}]
  {
    var h1 := h.(store := h.store[p := {}]);
    SendMirror(h1, Audience(h1), PeerJoined(p, {}), s);
    assert MirrorOf(h1, s) == MirrorOf(h, s);
  }

  lemma AdmittedPeers(c: Config, h: Hub, p: PeerId, s: Socket)
    requires Structured(c, h, {}) && p !in h.store && s in h.subs && KnowsPeers(h, CALM, s)
    ensures s in Admitted(h, p).subs && KnowsPeers(Admitted(h, p), CALM, s)
  {
    assert h.views == map[] || h.views.Keys == h.store.Keys;
    hide MirrorOf, Structured, View, Admitted;
    AdmittedOnly(h, p);
    AdmittedMirror(h, p, s);
    AdmittedView(h, p, h.subs[s].peerId);
    NeverSeen(c, h, p, h.subs[s].peerId);
  }

  lemma NeverSeen(c: Config, h: Hub, p: PeerId, q: PeerId)
    requires Structured(c, h, {}) && p !in h.store
    ensures p !in View(h, q)
  {
    if q in h.views { assert h.views[q] <= h.views.Keys; }
  }

  /** The running flush would give the newcomer segments that an earlier peer of the same name reported. */
  predicate FlushNames(h: Hub, p: PeerId) {
    IsCurrent(h) && p in h.flush.value.updates && Apply(h.flush.value.updates[p], {}) != {}
  }

  /** The running flush would undo something in a copy of `p` taken from the store now. */
  predicate FlushUndoes(h: Hub, p: PeerId)
    requires p in h.store
  {
    Settled(h, true, p, h.store[p]) != h.store[p]
  }

  /**
   A newcomer does no harm: the running flush has nothing for its name that it would show to others,
   and if it owes a share to that name, the share undoes nothing.
   */
  predicate JoinsCleanly(h: Hub, p: PeerId) {
    && (OwedToOthers(h, p) ==> !FlushNames(h, p))
    && (Unserved(h, p) ==> forall q :: q in h.store ==> !FlushUndoes(h, q))
  }

  lemma AdmittedOwes(h: Hub, p: PeerId, q: PeerId)
    requires p !in h.store
    ensures OwedToOthers(Admitted(h, p), q) <==> OwedToOthers(h, q) || (q != p && Unserved(h, p))
  {
    var h1 := Admitted(h, p);
    assert forall v :: Unserved(h1, v) == Unserved(h, v);
    assert h1.store.Keys == h.store.Keys + {p};
    hide Unserved, Admitted;
    if OwedToOthers(h, q) {
      var v :| v in h.store && v != q && Unserved(h, v);
      assert v in h1.store && Unserved(h1, v);
    }
    if q != p && Unserved(h, p) { assert p in h1.store && Unserved(h1, p); }
  }

  lemma AdmittedAbsorbed(c: Config, h: Hub, p: PeerId)
    requires Structured(c, h, {}) && p !in h.store && Absorbed(h)
    ensures Absorbed(Admitted(h, p)) <==> JoinsCleanly(h, p)
  {
    var h1 := Admitted(h, p);
    AdmittedOnly(h, p);
    hide Admitted, Unserved, OwedToOthers;
    AdmittedOwes(h, p, p);
    assert Absorbs(h1, p) <==> (OwedToOthers(h, p) ==> !FlushNames(h, p));
    forall q | q in h.store ensures Absorbs(h1, q) <==> (Unserved(h, p) ==> !FlushUndoes(h, q)) {
      assert Absorbs(h, q);
      AdmittedOwes(h, p, q);
    }
    assert h1.store.Keys == h.store.Keys + {p};
  }

  lemma NotPending(c: Config, h: Hub, p: PeerId)
    requires Structured(c, h, {}) && p !in h.store
    ensures h.pending.Some? ==> p !in h.pending.value.updates
  {
  }

  /** Nothing on its way names a newcomer that no copy of a viewer has. */
  lemma NewcomerConverges(c: Config, h: Hub, p: PeerId, s: Socket)
    requires Structured(c, h, {}) && p !in h.store && s in h.subs
    requires s in Admitted(h, p).subs && p in Admitted(h, p).store && p in MirrorOf(Admitted(h, p), s)
    ensures Converges(Admitted(h, p), s, p)
  {
    AdmittedOnly(h, p);
    AdmittedMirror(h, p, s);
    NotPending(c, h, p);
    AdmittedView(h, p, h.subs[s].peerId);
    NeverSeen(c, h, p, h.subs[s].peerId);
    hide MirrorOf, Admitted, Structured, View, Unserved;
  }

  lemma AdmittedCopyConverges(c: Config, h: Hub, p: PeerId, s: Socket, q: PeerId)
    requires Structured(c, h, {}) && p !in h.store && s in h.subs && KnowsInventories(h, s) && q != p
    requires s in Admitted(h, p).subs && q in Admitted(h, p).store && q in MirrorOf(Admitted(h, p), s)
    ensures Converges(Admitted(h, p), s, q)
  {
    hide MirrorOf, Admitted, View, Unserved;
    assert h.views == map[] || h.views.Keys == h.store.Keys;
    hide Structured;
    AdmittedOnly(h, p);
    AdmittedMirror(h, p, s);
    AdmittedView(h, p, h.subs[s].peerId);
    assert Converges(h, s, q);
    hide KnowsInventories;
    SameDestiny(h, Admitted(h, p), s, q);
  }

  /** A copy's destiny depends on the copy and on what is pending or being flushed. */
  lemma SameDestiny(h: Hub, h1: Hub, s: Socket, q: PeerId)
    requires s in h.subs && s in h1.subs && h1.subs[s] == h.subs[s] && q in MirrorOf(h, s) && q in MirrorOf(h1, s)
    requires MirrorOf(h1, s)[q] == MirrorOf(h, s)[q]
    requires h1.pending == h.pending && h1.flush == h.flush && h1.generation == h.generation
    ensures Destiny(h1, s, q) == Destiny(h, s, q)
  {
    hide MirrorOf;
  }

  lemma AdmittedInventories(c: Config, h: Hub, p: PeerId, s: Socket)
    requires Structured(c, h, {}) && p !in h.store && s in h.subs && KnowsInventories(h, s)
    ensures s in Admitted(h, p).subs && KnowsInventories(Admitted(h, p), s)
  {
    AdmittedOnly(h, p);
    hide MirrorOf, Admitted, Structured, View, Converges;
    forall q | q in Admitted(h, p).store && q in MirrorOf(Admitted(h, p), s) ensures Converges(Admitted(h, p), s, q) {
      if q == p { NewcomerConverges(c, h, p, s); } else { AdmittedCopyConverges(c, h, p, s, q); }
    }
  }

  // ---- Subscriptions ----

  lemma UnindexFrame(h: Hub, s: Socket)
    ensures Unindex(h, s).subs == h.subs - {s} && Unindex(h, s).live == (if s in h.subs then h.live - {s} else h.live)
    ensures Unindex(h, s).store == h.store && Unindex(h, s).views == h.views && Unindex(h, s).pending == h.pending
    ensures Unindex(h, s).flush == h.flush && Unindex(h, s).log == h.log
    ensures Unindex(h, s).flushRequested == h.flushRequested
    ensures Unindex(h, s).generation == h.generation ||
      (s in h.subs && Unindex(h, s).subs == map[] && Unindex(h, s).generation == h.generation + 1)
  {
  }

  lemma CloseKeepsPeers(c: Config, h: Hub, s: Socket)
    requires PeersKnown(c, h)
    ensures PeersKnown(c, Unindex(h, s))
  {
    UnindexFrame(h, s);
    var h1 := Unindex(h, s);
    hide WellFormed, Unindex;
    forall t | t in h1.subs ensures KnowsPeers(h1, CALM, t) {
      assert KnowsPeers(h, CALM, t) && MirrorOf(h1, t) == MirrorOf(h, t);
      hide MirrorOf;
    }
  }

  /** Dropping the subscriber index can only stop a flush, never change what a snapshot absorbs. */
  lemma CloseKeepsAbsorbed(h: Hub, s: Socket)
    requires Absorbed(h) && (h.flush.Some? ==> h.flush.value.subscribers <= h.generation)
    ensures Absorbed(Unindex(h, s))
  {
    AbsorbedServes(h, Unindex(h, s));
  }

  lemma CloseKeepsConverging(h: Hub, s: Socket)
    requires Converging(h) && (h.flush.Some? ==> h.flush.value.subscribers <= h.generation)
    ensures Converging(Unindex(h, s))
  {
    CloseKeepsAbsorbed(h, s);
    UnindexFrame(h, s);
    var h1 := Unindex(h, s);
    hide Unindex, Absorbed;
    forall t | t in h1.subs ensures KnowsInventories(h1, t) {
      assert KnowsInventories(h, t) && MirrorOf(h1, t) == MirrorOf(h, t) && h1.generation == h.generation;
      hide MirrorOf;
      forall q | q in h1.store && q in MirrorOf(h1, t) ensures Converges(h1, t, q) { assert Converges(h, t, q); }
    }
  }

  /** A socket subscribes and is sent the peers `m`. */
  function Resubscribed(h: Hub, s: Socket, sub: Subscription, m: Mirror): Hub {
    Send(SetSubscription(h, s, sub), {s}, [PeerList(m)])
  }

  /** What a subscription changes, seen from the other fields and sockets. */
  ghost predicate SubscribedFrame(h: Hub, h1: Hub, s: Socket, sub: Subscription) {
    && h1.subs == h.subs[s := sub]
    && h1.live == h.live - {s} + (if sub.mode == Viewer then {s} else {})
    && h1.store == h.store && h1.views == h.views && h1.pending == h.pending && h1.flush == h.flush
    && h1.flushRequested == h.flushRequested
    && (h1.generation == h.generation || (h1.generation == h.generation + 1 && h.subs.Keys == {s}))
    && (forall t :: t in h.subs && t != s ==> Log(h1, t) == Log(h, t))
  }

  lemma SetSubscriptionFrame(h: Hub, s: Socket, sub: Subscription)
    requires h.live <= h.subs.Keys
    ensures SubscribedFrame(h, SetSubscription(h, s, sub), s, sub)
  {
    UnindexFrame(h, s);
    hide Unindex;
    assert Unindex(h, s).subs[s := sub] == h.subs[s := sub];
    assert s !in h.subs ==> h.live - {s} == h.live;
    assert s in h.subs && h.subs - {s} == map[] ==> h.subs.Keys == {s} by {
      if s in h.subs && h.subs - {s} == map[] {
        forall t | t in h.subs ensures t == s { assert t == s || t in (h.subs - {s}).Keys; }
      }
    }
  }

  lemma ResubscribedFrame(h: Hub, s: Socket, sub: Subscription, m: Mirror)
    requires h.live <= h.subs.Keys
    ensures SubscribedFrame(h, Resubscribed(h, s, sub, m), s, sub)
    ensures MirrorOf(Resubscribed(h, s, sub, m), s) == m
  {
    SetSubscriptionFrame(h, s, sub);
    hide SetSubscription;
    SendMirror(SetSubscription(h, s, sub), {s}, PeerList(m), s);
    hide MirrorOf;
  }

  lemma ResubscribedStructure(c: Config, h: Hub, h1: Hub, s: Socket, sub: Subscription)
    requires Structured(c, h, {}) && SubscribedFrame(h, h1, s, sub) && sub.peerId in h.store
    requires sub.mode == Viewer ==> sub.peerId in h.views
    ensures Structured(c, h1, {})
  {
    hide WellFormed, Log;
  }

  lemma OthersKeepPeers(h: Hub, h1: Hub, s: Socket, sub: Subscription, t: Socket)
    requires SubscribedFrame(h, h1, s, sub) && t in h.subs && t != s && KnowsPeers(h, CALM, t)
    ensures KnowsPeers(h1, CALM, t)
  {
    assert MirrorOf(h1, t) == MirrorOf(h, t);
    hide MirrorOf, Log;
  }

  lemma OthersKeepInventories(h: Hub, h1: Hub, s: Socket, sub: Subscription, t: Socket)
    requires SubscribedFrame(h, h1, s, sub) && t in h.subs && t != s && KnowsInventories(h, t)
    ensures KnowsInventories(h1, t)
  {
    assert MirrorOf(h1, t) == MirrorOf(h, t) && h1.generation == h.generation;
    hide MirrorOf, Log;
    forall q | q in h1.store && q in MirrorOf(h1, t) ensures Converges(h1, t, q) { assert Converges(h, t, q); }
  }

  lemma ResubscribedAbsorbed(h: Hub, h1: Hub, s: Socket, sub: Subscription)
    requires SubscribedFrame(h, h1, s, sub) && Absorbed(h)
    requires h.flush.Some? ==> h.flush.value.subscribers <= h.generation
    ensures Absorbed(h1)
  {
    hide Log;
    AbsorbedServes(h, h1);
  }

  /** The peers a new subscriber is sent: everybody, or its own peer and its view. */
  function Listed(h: Hub, sub: Subscription): set<PeerId> {
    if sub.mode == Viewer then (View(h, sub.peerId) + {sub.peerId}) * h.store.Keys else h.store.Keys
  }

  lemma LiveAreSubscribed(c: Config, h: Hub)
    requires PeersKnown(c, h)
    ensures Structured(c, h, {}) && h.live <= h.subs.Keys
    ensures (h.flush.Some? ==> h.flush.value.subscribers <= h.generation)
  {
  }

  lemma NewcomerKnowsPeers(h: Hub, h1: Hub, s: Socket, sub: Subscription)
    requires SubscribedFrame(h, h1, s, sub) && MirrorOf(h1, s) == Snapshot(h, Listed(h, sub)) && sub.peerId in h.store
    ensures KnowsPeers(h1, CALM, s)
  {
    assert Snapshot(h, Listed(h, sub)).Keys == Listed(h, sub);
    hide MirrorOf, Snapshot, Log;
  }

  lemma NewcomerKnowsInventories(h: Hub, h1: Hub, s: Socket, sub: Subscription)
    requires SubscribedFrame(h, h1, s, sub) && MirrorOf(h1, s) == Snapshot(h, Listed(h, sub)) && Absorbed(h1)
    requires sub.peerId in h.store && sub.peerId !in View(h, sub.peerId)
    ensures KnowsInventories(h1, s)
  {
    hide MirrorOf, Unserved, Absorbed, Log;
    forall q | q in h1.store && q in MirrorOf(h1, s) ensures Converges(h1, s, q) {
      SnapshotSettles(h1, false, q);
      if sub.mode == Viewer && Unserved(h1, sub.peerId) && q != sub.peerId {
        assert OwedToOthers(h1, q);
        SnapshotSettles(h1, true, q);
      }
    }
  }

  lemma ResubscribedKeepsPeers(c: Config, h: Hub, s: Socket, sub: Subscription)
    requires PeersKnown(c, h) && sub.peerId in h.store && (sub.mode == Viewer ==> sub.peerId in h.views)
    ensures PeersKnown(c, Resubscribed(h, s, sub, Snapshot(h, Listed(h, sub))))
  {
    var h1 := Resubscribed(h, s, sub, Snapshot(h, Listed(h, sub)));
    hide Resubscribed, Structured, SubscribedFrame, Listed, Snapshot, KnowsPeers, MirrorOf;
    LiveAreSubscribed(c, h);
    ResubscribedFrame(h, s, sub, Snapshot(h, Listed(h, sub)));
    ResubscribedStructure(c, h, h1, s, sub);
    SubscribedFields(h, h1, s, sub);
    forall t | t in h1.subs ensures KnowsPeers(h1, CALM, t) {
      if t == s { NewcomerKnowsPeers(h, h1, s, sub); } else { OthersKeepPeers(h, h1, s, sub, t); }
    }
  }

  lemma SubscribedFields(h: Hub, h1: Hub, s: Socket, sub: Subscription)
    requires SubscribedFrame(h, h1, s, sub)
    ensures h1.subs == h.subs[s := sub] && (NotStranded(h) ==> NotStranded(h1))
  {
  }

  lemma NotOwnNeighbor(c: Config, h: Hub, p: PeerId)
    requires PeersKnown(c, h)
    ensures p !in View(h, p)
  {
    assert WellFormed(c.viewSize, h.views);
  }

  lemma ResubscribedKeepsConverging(c: Config, h: Hub, s: Socket, sub: Subscription)
    requires PeersKnown(c, h) && Converging(h) && sub.peerId in h.store
    ensures Converging(Resubscribed(h, s, sub, Snapshot(h, Listed(h, sub))))
  {
    var h1 := Resubscribed(h, s, sub, Snapshot(h, Listed(h, sub)));
    hide Resubscribed, Structured, SubscribedFrame, Listed, Snapshot, KnowsInventories, Absorbed, MirrorOf;
    LiveAreSubscribed(c, h);
    ResubscribedFrame(h, s, sub, Snapshot(h, Listed(h, sub)));
    ResubscribedAbsorbed(h, h1, s, sub);
    SubscribedFields(h, h1, s, sub);
    forall t | t in h1.subs ensures KnowsInventories(h1, t) {
      if t == s {
        NotOwnNeighbor(c, h, sub.peerId); NewcomerKnowsInventories(h, h1, s, sub);
      } else {
        OthersKeepInventories(h, h1, s, sub, t);
      }
    }
  }

  /** Registering the stored peers shows nobody anything new. */
  function Registered(h: Hub, p: PeerId): Hub { h.(views := Added(Seeded(h), p)) }

  /** The views changed, but not what anybody sees. */
  ghost predicate OnlyRegistered(c: Config, h: Hub, h1: Hub) {
    && h1 == h.(views := h1.views) && WellFormed(c.viewSize, h1.views) && h1.views.Keys == h.store.Keys
    && (forall q :: View(h1, q) == View(h, q))
  }

  lemma RegisteredFrame(c: Config, h: Hub, p: PeerId)
    requires Structured(c, h, {}) && p in h.store
    ensures OnlyRegistered(c, h, Registered(h, p)) && p in Registered(h, p).views
  {
    SeededKeys(h);
    SeededWellFormed(c.viewSize, h);
    assert Registered(h, p).views == Seeded(h);
    hide WellFormed, Seeded;
  }

  lemma RegisteredStructure(c: Config, h: Hub, h1: Hub)
    requires Structured(c, h, {}) && OnlyRegistered(c, h, h1)
    ensures Structured(c, h1, {})
  {
    hide WellFormed, View;
  }

  lemma RegisteredKnows(c: Config, h: Hub, h1: Hub, s: Socket)
    requires OnlyRegistered(c, h, h1) && s in h.subs
    ensures KnowsPeers(h, CALM, s) ==> KnowsPeers(h1, CALM, s)
    ensures KnowsInventories(h, s) ==> KnowsInventories(h1, s)
  {
    assert MirrorOf(h1, s) == MirrorOf(h, s) && View(h1, h.subs[s].peerId) == View(h, h.subs[s].peerId);
    hide MirrorOf, View, WellFormed, OnlyRegistered;
    if KnowsInventories(h, s) {
      forall q | q in h1.store && q in MirrorOf(h1, s) ensures Converges(h1, s, q) { assert Converges(h, s, q); }
    }
  }

  lemma RegisteredIsQuiet(c: Config, h: Hub, p: PeerId)
    requires PeersKnown(c, h) && p in h.store
    ensures PeersKnown(c, Registered(h, p)) && p in Registered(h, p).views
    ensures Converging(h) ==> Converging(Registered(h, p))
  {
    var h1 := Registered(h, p);
    hide Structured, KnowsPeers, KnowsInventories, Absorbed, OnlyRegistered;
    RegisteredFrame(c, h, p);
    RegisteredStructure(c, h, h1);
    AbsorbedFrame(h, h1);
    forall s | s in h1.subs
      ensures KnowsPeers(h1, CALM, s)
      ensures KnowsInventories(h, s) ==> KnowsInventories(h1, s)
    {
      RegisteredKnows(c, h, h1, s);
    }
  }

  lemma FillKeepsAll(c: Config, h: Hub, p: PeerId, f: NeighborViewFill)
    requires PeersKnown(c, h) && p in h.views && IsFill(c.viewSize, h.views, p, f)
    ensures PeersKnown(c, FillAndAnnounce(h, p, f)) && p in FillAndAnnounce(h, p, f).views
    ensures FillAndAnnounce(h, p, f).store == h.store
    ensures Converging(h) ==> Converging(FillAndAnnounce(h, p, f))
  {
    hide Structured, KnowsPeers, KnowsInventories, IsFill, FillAndAnnounce, Absorbed;
    FillAndAnnounceFrame(h, p, f);
    FillKeepsStructure(c, h, {}, p, f);
    forall s | s in h.subs ensures KnowsPeers(FillAndAnnounce(h, p, f), CALM, s) {
      FillKeepsPeers(c, h, CALM, p, f, s);
    }
    if Converging(h) {
      AbsorbedFrame(h, FillAndAnnounce(h, p, f));
      forall s | s in h.subs ensures KnowsInventories(FillAndAnnounce(h, p, f), s) {
        FillKeepsInventories(c, h, {}, p, f, s);
      }
    }
  }

  lemma AdmittedKnows(c: Config, h: Hub, p: PeerId)
    requires PeersKnown(c, h) && p !in h.store
    ensures PeersKnown(c, Admitted(h, p)) && p in Admitted(h, p).views
  {
    var h0 := Admitted(h, p);
    hide Structured, KnowsPeers, Admitted;
    AdmittedOnly(h, p);
    AdmittedStructure(c, h, p);
    forall s | s in h0.subs ensures KnowsPeers(h0, CALM, s) { AdmittedPeers(c, h, p, s); }
  }

  lemma AdmittedConverges(c: Config, h: Hub, p: PeerId)
    requires PeersKnown(c, h) && Converging(h) && p !in h.store
    ensures Converging(Admitted(h, p)) <==> JoinsCleanly(h, p)
    ensures Absorbed(Admitted(h, p)) <==> JoinsCleanly(h, p)
  {
    var h0 := Admitted(h, p);
    hide Structured, KnowsInventories, Absorbed, JoinsCleanly, Admitted;
    AdmittedOnly(h, p);
    AdmittedAbsorbed(c, h, p);
    forall s | s in h0.subs ensures KnowsInventories(h0, s) { AdmittedInventories(c, h, p, s); }
  }

  lemma JoinKeeps(c: Config, h: Hub, p: PeerId, f: NeighborViewFill)
    requires PeersKnown(c, h) && Enabled(c, h, EJoin(p, f))
    ensures PeersKnown(c, JoinPeer(h, p, f))
    ensures Converging(h) ==> (Converging(JoinPeer(h, p, f)) <==> JoinsCleanly(h, p))
  {
    var h0 := Admitted(h, p);
    assert IsFill(c.viewSize, h0.views, p, f);
    assert JoinPeer(h, p, f) == FillAndAnnounce(h0, p, f);
    hide PeersKnown, Converging, IsFill, FillAndAnnounce, Admitted, JoinsCleanly, JoinPeer;
    AdmittedKnows(c, h, p);
    FillKeepsAll(c, h0, p, f);
    if Converging(h) { AdmittedConverges(c, h, p); LinkingAbsorbs(h0, p, f); }
  }

  /** Linking cannot repair a snapshot that does not absorb what is on its way. */
  lemma LinkingAbsorbs(h: Hub, p: PeerId, f: NeighborViewFill)
    ensures Converging(FillAndAnnounce(h, p, f)) ==> Absorbed(h)
  {
    hide FillAndAnnounce;
    FillAndAnnounceFrame(h, p, f);
    AbsorbedFrame(h, FillAndAnnounce(h, p, f));
  }

  /** A viewer subscribes once its view is filled, and is sent that view. */
  lemma SubscribeIsResubscribed(h: Hub, s: Socket, p: PeerId, f: NeighborViewFill)
    requires p in h.store
    ensures var h1, sub := FillAndAnnounce(Registered(h, p), p, f), Subscription(p, Viewer);
      Subscribe(h, s, p, Viewer, f) == Resubscribed(h1, s, sub, Snapshot(h1, Listed(h1, sub)))
  {
    var h1 := FillAndAnnounce(Registered(h, p), p, f);
    FillAndAnnounceFrame(Registered(h, p), p, f);
    hide FillAndAnnounce;
    var listed := (if p in h1.views then h1.views[p] else {}) + {p};
    assert Snapshot(h1, Listed(h1, Subscription(p, Viewer))) == map q | q in h1.store && q in listed :: h1.store[q];
  }

  lemma SubscribeKeeps(c: Config, h: Hub, s: Socket, p: PeerId, mode: Mode, f: NeighborViewFill)
    requires PeersKnown(c, h) && Enabled(c, h, ESubscribe(s, p, mode, f))
    ensures PeersKnown(c, Subscribe(h, s, p, mode, f))
    ensures Converging(h) ==> Converging(Subscribe(h, s, p, mode, f))
  {
    var sub := Subscription(p, mode);
    if mode != Viewer {
      assert Snapshot(h, Listed(h, sub)) == h.store;
      hide PeersKnown, Converging, Snapshot, Listed;
      ResubscribedKeepsPeers(c, h, s, sub);
      if Converging(h) { ResubscribedKeepsConverging(c, h, s, sub); }
    } else {
      var h0 := Registered(h, p);
      assert IsFill(c.viewSize, h0.views, p, f);
      var h1 := FillAndAnnounce(h0, p, f);
      SubscribeIsResubscribed(h, s, p, f);
      hide PeersKnown, Converging, IsFill, Snapshot, Listed, FillAndAnnounce, Subscribe, Resubscribed;
      RegisteredIsQuiet(c, h, p);
      FillKeepsAll(c, h0, p, f);
      ResubscribedKeepsPeers(c, h1, s, sub);
      if Converging(h) { ResubscribedKeepsConverging(c, h1, s, sub); }
    }
  }

  // ---- Reports ----

  /** Everything still on its way for `p`, merged into one update. */
  function Net(h: Hub, p: PeerId): Option<Update> {
    var pending := if h.pending.Some? && p in h.pending.value.updates then Some(h.pending.value.updates[p]) else None;
    if IsCurrent(h) && p in h.flush.value.updates then
      Some(if pending.Some? then Merge(h.flush.value.updates[p], pending.value) else h.flush.value.updates[p])
    else pending
  }

  /** The report undoes part of an update that is still on its way. */
  predicate NetContradicts(h: Hub, p: PeerId, u: Update) { Net(h, p).Some? && Contradicts(Net(h, p).value, u) }

  predicate PendingContradicts(h: Hub, p: PeerId, u: Update) {
    h.pending.Some? && p in h.pending.value.updates && Contradicts(h.pending.value.updates[p], u)
  }

  /** Somebody who copies a report that is not queued would be sent an older update that undoes it. */
  predicate Undone(h: Hub, p: PeerId, u: Update) {
    PendingContradicts(h, p, u) || (OwedToOthers(h, p) && NetContradicts(h, p, u))
  }

  lemma NetSettles(h: Hub, p: PeerId, inventory: set<Segment>)
    ensures Settled(h, true, p, inventory) == if Net(h, p).Some? then Apply(Net(h, p).value, inventory) else inventory
  {
    if IsCurrent(h) && p in h.flush.value.updates && h.pending.Some? && p in h.pending.value.updates {
      MergeIsComposition(h.flush.value.updates[p], h.pending.value.updates[p], inventory);
    }
  }

  lemma QueuedBatch(h: Hub, p: PeerId, u: Update, q: PeerId, inventory: set<Segment>)
    ensures AfterBatch(Queue(h, p, u), q, inventory) ==
      if q == p then Apply(u, AfterBatch(h, q, inventory)) else AfterBatch(h, q, inventory)
  {
    if h.pending.Some? && p in h.pending.value.updates {
      MergeIsComposition(h.pending.value.updates[p], u, inventory);
    } else {
      MergeIsComposition(Delta({}, {}), u, inventory);
      assert Apply(Delta({}, {}), inventory) == inventory;
    }
    hide Merge, Apply;
  }

  lemma QueuedSettles(h: Hub, p: PeerId, u: Update, captured: bool, q: PeerId, inventory: set<Segment>)
    ensures Settled(Queue(h, p, u), captured, q, inventory) ==
      if q == p then Apply(u, Settled(h, captured, q, inventory)) else Settled(h, captured, q, inventory)
  {
    QueuedBatch(h, p, u, q, AfterFlush(h, captured, q, inventory));
    hide Merge, Apply, AfterBatch;
  }

  /** The store took the report of `p` in as `inventory`; the hub publishes `u`. */
  function Reported(h: Hub, p: PeerId, inventory: set<Segment>, u: Update): Hub {
    Publish(h.(store := h.store[p := inventory]), p, u)
  }

  lemma ReportedMirror(h: Hub, p: PeerId, inventory: set<Segment>, u: Update, s: Socket)
    requires s in h.subs
    ensures MirrorOf(Reported(h, p, inventory, u), s) ==
      if h.subs[s].mode == Immediate then ApplyUpdate(MirrorOf(h, s), PeerUpdate(p, u)) else MirrorOf(h, s)
  {
    var h1 := h.(store := h.store[p := inventory]);
    SendMirror(h1, Sockets(h1, Immediate), InventoryReport(p, u), s);
    assert MirrorOf(h1, s) == MirrorOf(h, s);
    assert MirrorOf(Reported(h, p, inventory, u),
      s) == MirrorOf(Send(h1, Sockets(h1, Immediate), [InventoryReport(p, u)]), s);
  }

  /** What a report leaves alone. */
  ghost predicate ReportedFrame(h: Hub, h1: Hub, p: PeerId, inventory: set<Segment>) {
    && h1.store == h.store[p := inventory] && h1.views == h.views && h1.subs == h.subs && h1.live == h.live
    && h1.generation == h.generation && h1.flush == h.flush && h1.flushRequested == h.flushRequested
    && (h1.pending == h.pending || (h1.pending.Some? &&
         (h.pending.Some? ==> h1.pending.value.armed == h.pending.value.armed) &&
           (h.pending.None? ==> h1.pending.value.armed) &&
         h1.pending.value.updates.Keys == (if h.pending.Some? then h.pending.value.updates.Keys else {}) + {p}))
  }

  lemma ReportedOnly(h: Hub, p: PeerId, inventory: set<Segment>, u: Update)
    ensures ReportedFrame(h, Reported(h, p, inventory, u), p, inventory)
    ensures HasBatchSubscribers(h) ==> Reported(h, p, inventory, u).pending == Queue(h, p, u).pending
    ensures !HasBatchSubscribers(h) ==> Reported(h, p, inventory, u).pending == h.pending
  {
  }

  lemma ReportedStructure(c: Config, h: Hub, h1: Hub, p: PeerId, inventory: set<Segment>)
    requires Structured(c, h, {}) && NotStranded(h) && p in h.store && ReportedFrame(h, h1, p, inventory)
    ensures Structured(c, h1, {}) && NotStranded(h1)
  {
    hide WellFormed;
    assert h1.store.Keys == h.store.Keys;
  }

  lemma ReportKeepsPeers(c: Config, h: Hub, p: PeerId, inventory: set<Segment>, u: Update)
    requires PeersKnown(c, h) && p in h.store
    ensures PeersKnown(c, Reported(h, p, inventory, u))
  {
    var h1 := Reported(h, p, inventory, u);
    hide Reported, Structured, NotStranded;
    ReportedOnly(h, p, inventory, u);
    ReportedStructure(c, h, h1, p, inventory);
    forall s | s in h1.subs ensures KnowsPeers(h1, CALM, s) {
      assert KnowsPeers(h, CALM, s);
      ReportedMirror(h, p, inventory, u, s);
      assert MirrorOf(h1, s).Keys == MirrorOf(h, s).Keys && h1.store.Keys == h.store.Keys;
      hide MirrorOf;
    }
  }

  lemma ReportKeepsInventories(h: Hub, p: PeerId, u: Update, s: Socket)
    requires p in h.store && s in h.subs && KnowsInventories(h, s)
    ensures s in Reported(h, p, Apply(u, h.store[p]), u).subs
    ensures KnowsInventories(Reported(h, p, Apply(u, h.store[p]), u), s)
  {
    var h1 := Reported(h, p, Apply(u, h.store[p]), u);
    ReportedOnly(h, p, Apply(u, h.store[p]), u);
    ReportedMirror(h, p, Apply(u, h.store[p]), u, s);
    hide MirrorOf, Reported;
    forall q | q in h1.store && q in MirrorOf(h1, s) ensures Converges(h1, s, q) {
      assert Converges(h, s, q);
      if h.subs[s].mode != Immediate {
        var captured := h.subs[s].mode == Viewer && Unserved(h, h.subs[s].peerId);
        assert HasBatchSubscribers(h);
        QueuedSettles(h, p, u, captured, q, MirrorOf(h, s)[q]);
        assert Settled(h1, captured, q, MirrorOf(h, s)[q]) == Settled(Queue(h, p, u), captured, q, MirrorOf(h, s)[q]);
        hide Settled, Queue;
      }
    }
  }

  lemma OwedFrame(h: Hub, h1: Hub, p: PeerId)
    requires h1.store.Keys == h.store.Keys && h1.flush == h.flush && h1.generation == h.generation
    ensures OwedToOthers(h1, p) == OwedToOthers(h, p)
  {
    assert forall v :: Unserved(h1, v) == Unserved(h, v);
  }

  /** A report that is queued stays, and one that is not stays iff nothing undoes it. */
  lemma ReportedAbsorbs(h: Hub, h1: Hub, p: PeerId, u: Update)
    requires p in h.store && Absorbs(h, p) && ReportedFrame(h, h1, p, Apply(u, h.store[p]))
    requires h1.pending == if HasBatchSubscribers(h) then Queue(h, p, u).pending else h.pending
    ensures Absorbs(h1, p) <==> HasBatchSubscribers(h) || !Undone(h, p, u)
  {
    var S := h.store[p];
    var now := Apply(u, S);
    OwedFrame(h, h1, p);
    NetSettles(h, p, S);
    NetSettles(h, p, now);
    hide Contradicts, OwedToOthers, Apply, Merge, Queue, HasBatchSubscribers;
    if HasBatchSubscribers(h) {
      QueuedBatch(h, p, u, p, now);
      QueuedSettles(h, p, u, true, p, now);
      assert AfterBatch(h1, p, now) == AfterBatch(Queue(h, p, u), p, now);
      assert Settled(h1, true, p, now) == Settled(Queue(h, p, u), true, p, now);
      QueuedStays(h, p, u);
    } else {
      assert AfterBatch(h1, p, now) == AfterBatch(h, p, now) && Settled(h1, true, p, now) == Settled(h, true, p, now);
      if h.pending.Some? && p in h.pending.value.updates { ContradictionIsExact(h.pending.value.updates[p], u, S); }
      if OwedToOthers(h, p) && Net(h, p).Some? { ContradictionIsExact(Net(h, p).value, u, S); }
    }
  }

  lemma QueuedStays(h: Hub, p: PeerId, u: Update)
    requires p in h.store && Absorbs(h, p)
    ensures var now := Apply(u, h.store[p]);
      Apply(u, AfterBatch(h, p, now)) == now && (OwedToOthers(h, p) ==> Apply(u, Settled(h, true, p, now)) == now)
  {
    var S := h.store[p];
    var now := Apply(u, S);
    NetSettles(h, p, S);
    NetSettles(h, p, now);
    ApplyTwice(u, S);
    hide OwedToOthers, Apply, Merge;
    if h.pending.Some? && p in h.pending.value.updates { ReportAfterPending(h.pending.value.updates[p], u, S); }
    if OwedToOthers(h, p) && Net(h, p).Some? { ReportAfterPending(Net(h, p).value, u, S); }
  }

  /** The report of `p` changes nothing about copies of other peers. */
  lemma OthersAbsorb(h: Hub, h1: Hub, p: PeerId, u: Update, q: PeerId)
    requires p in h.store && q in h.store && q != p && Absorbs(h, q) && ReportedFrame(h, h1, p, Apply(u, h.store[p]))
    requires h1.pending == if HasBatchSubscribers(h) then Queue(h, p, u).pending else h.pending
    ensures q in h1.store && Absorbs(h1, q)
  {
    OwedFrame(h, h1, q);
    QueuedBatch(h, p, u, q, h.store[q]);
    QueuedSettles(h, p, u, true, q, h.store[q]);
    hide OwedToOthers, Apply, Merge, HasBatchSubscribers;
  }

  /** A copy taken from the store stays as it is iff the report was queued or nothing on its way undoes it. */
  lemma ReportAbsorbed(h: Hub, p: PeerId, u: Update)
    requires p in h.store && Absorbed(h)
    ensures Absorbed(Reported(h, p, Apply(u, h.store[p]), u)) <==> HasBatchSubscribers(h) || !Undone(h, p, u)
  {
    var h1 := Reported(h, p, Apply(u, h.store[p]), u);
    ReportedOnly(h, p, Apply(u, h.store[p]), u);
    hide Reported, Absorbs, Queue, HasBatchSubscribers, Undone;
    assert Absorbs(h, p);
    ReportedAbsorbs(h, h1, p, u);
    forall q | q in h.store && q != p ensures Absorbs(h1, q) {
      assert Absorbs(h, q);
      OthersAbsorb(h, h1, p, u, q);
    }
    assert h1.store.Keys == h.store.Keys;
  }

  lemma ReportKeepsConverging(c: Config, h: Hub, p: PeerId, u: Update)
    requires Converging(h) && p in h.store
    ensures Converging(Reported(h, p, Apply(u, h.store[p]), u)) <==> HasBatchSubscribers(h) || !Undone(h, p, u)
  {
    var h1 := Reported(h, p, Apply(u, h.store[p]), u);
    hide Reported, Absorbed, KnowsInventories, Undone;
    ReportedOnly(h, p, Apply(u, h.store[p]), u);
    ReportAbsorbed(h, p, u);
    forall s | s in h1.subs ensures KnowsInventories(h1, s) { ReportKeepsInventories(h, p, u, s); }
  }

  lemma RestReportKeepsConverging(c: Config, h: Hub, p: PeerId, segments: set<Segment>)
    requires PeersKnown(c, h) && Converging(h) && p in h.store && !(h.store[p] <= segments)
    ensures Converging(RestReport(h, p, segments, false)) <==> h.subs == map[] && !Undone(h, p, Delta(segments, {}))
  {
    var stored := h.store[p] + segments;
    hide PeersKnown, Converging, Reported, Undone;
    if h.subs == map[] {
      UnheardAppend(c, h, p, segments);
    } else if HasBatchSubscribers(h) {
      QueuedAppend(h, p, segments);
    } else {
      ImmediateAppend(c, h, p, segments);
    }
  }

  /** With nobody subscribed, an append is stored and published to nobody. */
  lemma UnheardAppend(c: Config, h: Hub, p: PeerId, segments: set<Segment>)
    requires Converging(h) && p in h.store && h.subs == map[]
    ensures Converging(Reported(h, p, h.store[p] + segments, Replace(segments))) <==> !Undone(h, p, Delta(segments, {}))
  {
    var stored := h.store[p] + segments;
    assert stored == Apply(Delta(segments, {}), h.store[p]);
    var h1, h2 := Reported(h, p, stored, Replace(segments)), Reported(h, p, stored, Delta(segments, {}));
    ReportedOnly(h, p, stored, Replace(segments));
    ReportedOnly(h, p, stored, Delta(segments, {}));
    ReportKeepsConverging(c, h, p, Delta(segments, {}));
    assert !HasBatchSubscribers(h);
    hide Reported, Absorbed, Undone;
    AbsorbedFrame(h2, h1);
  }

  /** Queued as a replacement, an append takes stored segments away from the next subscriber. */
  lemma QueuedAppend(h: Hub, p: PeerId, segments: set<Segment>)
    requires p in h.store && HasBatchSubscribers(h) && !(h.store[p] <= segments)
    ensures !Converging(Reported(h, p, h.store[p] + segments, Replace(segments)))
  {
    var stored := h.store[p] + segments;
    var h1 := Reported(h, p, stored, Replace(segments));
    ReportedOnly(h, p, stored, Replace(segments));
    hide Reported, HasBatchSubscribers;
    QueuedBatch(h, p, Replace(segments), p, stored);
    assert AfterBatch(h1, p, stored) == AfterBatch(Queue(h, p, Replace(segments)), p, stored) == segments;
    assert h1.store[p] == stored && !Absorbs(h1, p);
  }

  /** Sent as a replacement, an append takes stored segments away from whoever gets reports at once. */
  lemma ImmediateAppend(c: Config, h: Hub, p: PeerId, segments: set<Segment>)
    requires PeersKnown(c, h) && p in h.store && h.subs != map[] && !HasBatchSubscribers(h) && !(h.store[p] <= segments)
    ensures !Converging(Reported(h, p, h.store[p] + segments, Replace(segments)))
  {
    var stored := h.store[p] + segments;
    var h1 := Reported(h, p, stored, Replace(segments));
    var s :| s in h.subs;
    assert KnowsPeers(h, CALM, s) && h.subs[s].mode == Immediate;
    hide Reported, Structured, MirrorOf, NotStranded, ReportedFrame, Absorbed;
    ReportedMirror(h, p, stored, Replace(segments), s);
    StoredAsReported(h, p, stored, Replace(segments));
    assert MirrorOf(h1, s)[p] == segments;
    assert KnowsInventories(h1, s) ==> Converges(h1, s, p);
  }

  lemma StoredAsReported(h: Hub, p: PeerId, inventory: set<Segment>, u: Update)
    ensures Reported(h, p, inventory, u).store == h.store[p := inventory] && Reported(h, p, inventory, u).subs == h.subs
  {
    ReportedOnly(h, p, inventory, u);
    hide Reported;
  }

  // ---- Flushes ----

  lemma {:induction false} ServedFrame(h: Hub, ids: seq<PeerId>, shares: map<PeerId, seq<PeerUpdate>>)
    ensures ServeViewers(h, ids, shares) == h.(log := ServeViewers(h, ids, shares).log)
    decreases |ids|
  {
    if ids != [] {
      var p := ids[0];
      var served := p in h.views && p in shares && shares[p] != [];
      ServedFrame(if served then Send(h, ViewerSockets(h, p), BatchMessages(shares[p])) else h, ids[1..], shares);
    }
  }

  /** What serving `ids` sends to one socket: its viewer's share, cut into messages. */
  function ServedTo(h: Hub, ids: seq<PeerId>, shares: map<PeerId, seq<PeerUpdate>>, s: Socket): seq<Message> {
    if s in h.subs && h.subs[s].mode == Viewer && h.subs[s].peerId in ids && h.subs[s].peerId in h.views &&
      h.subs[s].peerId in shares
    then BatchMessages(shares[h.subs[s].peerId])
    else []
  }

  /** Serving sends each share exactly once, to the sockets of its viewer, and nothing else to anybody. */
  lemma {:induction false} ServedLog(h: Hub, ids: seq<PeerId>, shares: map<PeerId, seq<PeerUpdate>>, s: Socket)
    requires Distinct(ids)
    ensures Log(ServeViewers(h, ids, shares), s) == Log(h, s) + ServedTo(h, ids, shares, s)
    decreases |ids|
  {
    if ids != [] {
      var p := ids[0];
      var served := p in h.views && p in shares && shares[p] != [];
      var h1 := if served then Send(h, ViewerSockets(h, p), BatchMessages(shares[p])) else h;
      assert Distinct(ids[1..]) && forall q :: q in ids <==> q == p || q in ids[1..];
      assert p !in ids[1..];
      ServedLog(h1, ids[1..], shares, s);
    }
  }

  /** So a viewer that is served has its copy patched with the flush restricted to its view. */
  lemma ServedMirror(h: Hub, ids: seq<PeerId>, shares: map<PeerId, seq<PeerUpdate>>, updates: map<PeerId, Update>,
                     s: Socket)
    requires Distinct(ids) && AreShares(h, updates, ids, shares) && s in h.subs
    ensures MirrorOf(ServeViewers(h, ids, shares), s) ==
      if h.subs[s].mode == Viewer && h.subs[s].peerId in ids && h.subs[s].peerId in h.views
      then Patch(MirrorOf(h, s), Restrict(updates, h.views[h.subs[s].peerId])) else MirrorOf(h, s)
  {
    var p := h.subs[s].peerId;
    ServedLog(h, ids, shares, s);
    if h.subs[s].mode == Viewer && p in ids && p in h.views {
      DeliveredBatchIsPatch(Log(h, s), shares[p], Restrict(updates, h.views[p]));
    } else {
      assert Log(h, s) + [] == Log(h, s);
    }
  }

  ghost predicate FlushOk(h: Hub) {
    h.flush.Some? && h.flush.value.next <= |h.flush.value.viewerIds| && Distinct(h.flush.value.viewerIds)
  }

  /** The choices a slice of the running flush can meet. */
  ghost predicate CanSlice(h: Hub, shares: map<PeerId, seq<PeerUpdate>>) {
    FlushOk(h) && AreShares(h, h.flush.value.updates, h.flush.value.viewerIds[h.flush.value.next..], shares)
  }

  /** The viewers that the next slice serves. */
  function SliceIds(c: Config, h: Hub): seq<PeerId>
    requires h.flush.Some? && h.flush.value.next <= |h.flush.value.viewerIds|
  {
    h.flush.value.viewerIds[h.flush.value.next..SliceEnd(c, h)]
  }

  /** What a slice leaves alone: everything but the logs and its own progress. */
  lemma SliceFrame(c: Config, h: Hub, shares: map<PeerId, seq<PeerUpdate>>)
    requires FlushOk(h)
    ensures Slice(c, h, shares) == h.(log := Slice(c, h, shares).log, flush := Slice(c, h, shares).flush)
    ensures Slice(c, h, shares).flush ==
      if IsCurrent(h) && SliceEnd(c, h) < |h.flush.value.viewerIds| then Some(h.flush.value.(next := SliceEnd(c, h)))
        else None
  {
    ServedFrame(h, SliceIds(c, h), shares);
  }

  lemma SliceLog(c: Config, h: Hub, shares: map<PeerId, seq<PeerUpdate>>, s: Socket)
    requires FlushOk(h)
    ensures Log(Slice(c, h, shares), s) == Log(h, s) + ServedTo(h, SliceIds(c, h), shares, s)
  {
    ServedLog(h, SliceIds(c, h), shares, s);
  }

  lemma SliceMirror(c: Config, h: Hub, shares: map<PeerId, seq<PeerUpdate>>, s: Socket)
    requires CanSlice(h, shares) && s in h.subs
    ensures MirrorOf(Slice(c, h, shares), s) ==
      if h.subs[s].mode == Viewer && h.subs[s].peerId in SliceIds(c, h) && h.subs[s].peerId in h.views
      then Patch(MirrorOf(h, s), Restrict(h.flush.value.updates, h.views[h.subs[s].peerId])) else MirrorOf(h, s)
  {
    var f := h.flush.value;
    var ids := SliceIds(c, h);
    assert forall p :: p in ids ==> p in f.viewerIds[f.next..];
    assert MirrorOf(Slice(c, h, shares), s) == MirrorOf(ServeViewers(h, ids, shares), s);
    hide MirrorOf, Restrict, IsListing, ServeViewers;
    ServedMirror(h, ids, shares, f.updates, s);
  }

  lemma SliceKeepsStructure(c: Config, h: Hub, shares: map<PeerId, seq<PeerUpdate>>)
    requires Structured(c, h, {}) && FlushOk(h)
    ensures Structured(c, Slice(c, h, shares), {})
  {
    SliceFrame(c, h, shares);
    hide Slice, WellFormed;
  }

  /** Who is still unserved after a slice. */
  lemma SliceServes(c: Config, h: Hub, shares: map<PeerId, seq<PeerUpdate>>, p: PeerId)
    requires FlushOk(h)
    ensures Unserved(h, p) <==> Unserved(Slice(c, h, shares), p) || p in SliceIds(c, h)
    ensures !(Unserved(Slice(c, h, shares), p) && p in SliceIds(c, h))
  {
    SliceFrame(c, h, shares);
    hide Slice;
    var f, end := h.flush.value, SliceEnd(c, h);
    assert f.viewerIds[f.next..] == f.viewerIds[f.next..end] + f.viewerIds[end..];
    assert !(p in f.viewerIds[f.next..end] && p in f.viewerIds[end..]);
  }

  /** A client's entry for its own peer is as it was. */
  ghost predicate OwnKept(h: Hub, h1: Hub, s: Socket)
    requires s in h.subs
  {
    var p := h.subs[s].peerId;
    s in h1.subs && h1.subs[s] == h.subs[s] && p in MirrorOf(h, s) && p in MirrorOf(h1, s) &&
      MirrorOf(h1, s)[p] == MirrorOf(h, s)[p]
  }

  /** A step of a flush: it changes who has been sent what, but not where any copy is going. */
  ghost predicate Undisturbed(h: Hub, h1: Hub, s: Socket)
    requires s in h.subs
  {
    && h1.subs == h.subs && h1.store == h.store && h1.views == h.views && h1.live == h.live
    && MirrorOf(h1, s).Keys == MirrorOf(h, s).Keys
    && (forall q :: q in MirrorOf(h, s) && Follows(h, s, q) ==> Destiny(h1, s, q) == Destiny(h, s, q))
    && (var p := h.subs[s].peerId;
        h.subs[s].mode == Viewer && p in MirrorOf(h, s) && p !in View(h, p) ==> OwnKept(h, h1, s))
  }

  lemma UndisturbedKnows(h: Hub, h1: Hub, s: Socket)
    requires s in h.subs && Undisturbed(h, h1, s)
    ensures KnowsPeers(h, CALM, s) ==> KnowsPeers(h1, CALM, s)
    ensures KnowsInventories(h, s) ==> KnowsInventories(h1, s)
  {
    hide MirrorOf, Destiny;
    if KnowsInventories(h, s) {
      forall q | q in h1.store && q in MirrorOf(h1, s) ensures Converges(h1, s, q) { assert Converges(h, s, q); }
    }
  }

  lemma UndisturbedTwice(h: Hub, h1: Hub, h2: Hub, s: Socket)
    requires s in h.subs && Undisturbed(h, h1, s) && Undisturbed(h1, h2, s)
    ensures Undisturbed(h, h2, s)
  {
    hide MirrorOf, Destiny;
    forall q | q in MirrorOf(h, s) && Follows(h, s, q) ensures Destiny(h2, s, q) == Destiny(h, s, q) {
      assert Destiny(h1, s, q) == Destiny(h, s, q);
    }
  }

  /** The clients know what they knew, and their copies go where they went. */
  lemma UndisturbedKeep(c: Config, h: Hub, h1: Hub)
    requires ClientsKnow(c, h) && Structured(c, h1, {}) && h1.subs == h.subs
    requires forall s :: s in h.subs ==> Undisturbed(h, h1, s)
    ensures ClientsKnow(c, h1)
    ensures Converging(h) && Absorbed(h1) ==> Converging(h1)
  {
    hide Structured, Undisturbed, KnowsPeers, KnowsInventories, Absorbed;
    forall s | s in h1.subs
      ensures KnowsPeers(h1, CALM, s)
      ensures Converging(h) ==> KnowsInventories(h1, s)
    {
      UndisturbedKnows(h, h1, s);
    }
  }

  lemma SliceUndisturbed(c: Config, h: Hub, shares: map<PeerId, seq<PeerUpdate>>, s: Socket)
    requires CanSlice(h, shares) && s in h.subs
    ensures Undisturbed(h, Slice(c, h, shares), s)
  {
    SliceFrame(c, h, shares);
    SliceMirror(c, h, shares, s);
    var h1 := Slice(c, h, shares);
    hide Slice, CanSlice, Unserved, SliceIds;
    forall q | q in MirrorOf(h, s) && Follows(h, s, q)
      ensures q in MirrorOf(h1, s) && Destiny(h1, s, q) == Destiny(h, s, q)
    {
      SliceKeepsDestiny(c, h, shares, s, q);
    }
    hide MirrorOf, Destiny;
  }

  /** What a slice delivers to a socket is what that socket was owed. */
  lemma SliceKeepsDestiny(c: Config, h: Hub, shares: map<PeerId, seq<PeerUpdate>>, s: Socket, q: PeerId)
    requires CanSlice(h, shares) && s in h.subs && q in MirrorOf(h, s) && Follows(h, s, q)
    ensures s in Slice(c, h, shares).subs && q in MirrorOf(Slice(c, h, shares), s)
    ensures Destiny(Slice(c, h, shares), s, q) == Destiny(h, s, q)
  {
    SliceFrame(c, h, shares);
    SliceMirror(c, h, shares, s);
    SliceServes(c, h, shares, h.subs[s].peerId);
    hide MirrorOf, Slice, CanSlice, Unserved, SliceIds;
  }

  lemma SliceKeepsAbsorbed(c: Config, h: Hub, shares: map<PeerId, seq<PeerUpdate>>)
    requires FlushOk(h) && Absorbed(h)
    ensures Absorbed(Slice(c, h, shares))
  {
    SliceFrame(c, h, shares);
    var h1 := Slice(c, h, shares);
    hide Slice;
    forall v ensures Unserved(h1, v) ==> Unserved(h, v) { SliceServes(c, h, shares, v); }
    AbsorbedServes(h, h1);
  }

  /** The pending batch is taken: batched clients have it, and its viewers are next. */
  function Taken(h: Hub, o: Orders): Hub
    requires h.pending.Some?
  {
    var b := h.pending.value;
    var h1 := h.(pending := None, strayTimers := if b.armed then h.strayTimers + 1 else h.strayTimers);
    var h2 := Send(h1, Sockets(h1, Batched), BatchMessages(o.updates));
    h2.(flush := Some(Flush(h2.generation, b.updates, o.viewerIds, 0)))
  }

  /** What taking a batch leaves alone. */
  ghost predicate TakenFrame(h: Hub, h1: Hub) {
    && h1.store == h.store && h1.views == h.views && h1.subs == h.subs && h1.live == h.live &&
      h1.generation == h.generation
    && h1.flushRequested == h.flushRequested && h1.pending.None?
  }

  lemma TakenOnly(h: Hub, o: Orders)
    requires h.pending.Some?
    ensures TakenFrame(h, Taken(h, o))
    ensures Taken(h, o).flush == Some(Flush(h.generation, h.pending.value.updates, o.viewerIds, 0))
  {
  }

  lemma TakenMirror(h: Hub, o: Orders, s: Socket)
    requires h.pending.Some? && AreOrders(h, h.pending.value.updates, o) && s in h.subs
    ensures MirrorOf(Taken(h, o), s) ==
      if h.subs[s].mode == Batched then Patch(MirrorOf(h, s), h.pending.value.updates) else MirrorOf(h, s)
  {
    var b := h.pending.value;
    var h1 := h.(pending := None, strayTimers := if b.armed then h.strayTimers + 1 else h.strayTimers);
    SendBatchMirror(h1, Sockets(h1, Batched), o.updates, b.updates, s);
    assert MirrorOf(h1, s) == MirrorOf(h, s);
    assert MirrorOf(Taken(h, o), s) == MirrorOf(Send(h1, Sockets(h1, Batched), BatchMessages(o.updates)), s);
  }

  lemma TakenStructure(c: Config, h: Hub, h1: Hub, o: Orders)
    requires Structured(c, h, {}) && h.pending.Some? && TakenFrame(h, h1) && Distinct(o.viewerIds)
    requires h1.flush == Some(Flush(h.generation, h.pending.value.updates, o.viewerIds, 0))
    ensures Structured(c, h1, {}) && FlushOk(h1)
  {
    hide WellFormed;
  }

  /** Everybody who sees viewers' batches is among the viewers of a new flush. */
  lemma TakenServes(h: Hub, o: Orders, s: Socket)
    requires h.pending.Some? && AreOrders(h, h.pending.value.updates, o) && s in h.subs && h.subs[s].mode == Viewer
    ensures Unserved(Taken(h, o), h.subs[s].peerId)
  {
    assert h.subs[s].peerId in ViewerIds(h);
    assert h.subs[s].peerId in Elems(o.viewerIds) && o.viewerIds[0..] == o.viewerIds;
  }

  lemma TakenUndisturbed(h: Hub, o: Orders, s: Socket)
    requires h.flush.None? && h.pending.Some? && AreOrders(h, h.pending.value.updates, o) && s in h.subs
    ensures Undisturbed(h, Taken(h, o), s)
  {
    TakenOnly(h, o);
    TakenMirror(h, o, s);
    if h.subs[s].mode == Viewer { TakenServes(h, o, s); }
    hide MirrorOf, Taken, AreOrders;
  }

  lemma TakenKeepsAbsorbed(h: Hub, o: Orders)
    requires h.flush.None? && h.pending.Some? && Absorbed(h)
    ensures Absorbed(Taken(h, o))
  {
    TakenOnly(h, o);
    var h1 := Taken(h, o);
    hide Taken;
    forall q | q in h1.store ensures Absorbs(h1, q) { assert Absorbs(h, q); }
  }

  /** Whether the batch is dropped, sent to batched clients only, or also to viewers. */
  lemma StartFlushCases(c: Config, h: Hub, o: Orders)
    requires h.flush.None? && h.pending.Some? && CanFlush(h, o)
    ensures h.subs == map[] || h.pending.value.updates == map[] ==>
      StartFlush(c, h, o) == h.(pending := None, strayTimers := StartFlush(c, h, o).strayTimers)
    ensures h.subs != map[] && h.pending.value.updates != map[] && ViewerIds(h) == {} ==>
      StartFlush(c, h, o) == Taken(h, o).(flush := None)
    ensures h.subs != map[] && h.pending.value.updates != map[] && ViewerIds(h) != {} ==>
      CanSlice(Taken(h, o), o.shares) && StartFlush(c, h, o) == Slice(c, Taken(h, o), o.shares)
  {
    assert o.viewerIds[0..] == o.viewerIds;
    assert ViewerIds(Taken(h, o)) == ViewerIds(h);
  }

  /** A batch nobody gets, because nobody is subscribed or nothing is left in it. */
  lemma DroppedBatch(c: Config, h: Hub, h1: Hub)
    requires Structured(c, h, {}) && h.flush.None? && h.pending.Some?
    requires h1 == h.(pending := None, strayTimers := h1.strayTimers)
    requires h.subs == map[] || h.pending.value.updates == map[]
    ensures Structured(c, h1, {}) && (Absorbed(h) ==> Absorbed(h1))
    ensures forall s :: s in h.subs ==> Undisturbed(h, h1, s)
  {
    hide WellFormed;
    forall s | s in h.subs ensures Undisturbed(h, h1, s) {
      assert MirrorOf(h1, s) == MirrorOf(h, s);
      hide MirrorOf;
    }
    if Absorbed(h) {
      forall q | q in h1.store ensures Absorbs(h1, q) { assert Absorbs(h, q); }
    }
  }

  lemma ViewerIsListed(h: Hub, s: Socket)
    requires s in h.subs
    ensures h.subs[s].mode == Viewer ==> h.subs[s].peerId in ViewerIds(h)
  {
  }

  /** A batch that only batched clients get. */
  lemma NoViewers(c: Config, h: Hub, h1: Hub)
    requires Structured(c, h, {}) && FlushOk(h) && ViewerIds(h) == {} && h1 == h.(flush := None)
    ensures Structured(c, h1, {}) && (Absorbed(h) ==> Absorbed(h1))
    ensures forall s :: s in h.subs ==> Undisturbed(h, h1, s)
  {
    hide WellFormed;
    forall s | s in h.subs ensures Undisturbed(h, h1, s) {
      assert MirrorOf(h1, s) == MirrorOf(h, s);
      ViewerIsListed(h, s);
      hide MirrorOf, ViewerIds;
    }
    if Absorbed(h) { AbsorbedServes(h, h1); }
  }

  lemma TakenKeepsAll(c: Config, h: Hub, o: Orders)
    requires Structured(c, h, {}) && h.flush.None? && h.pending.Some? && CanFlush(h, o)
    ensures Structured(c, Taken(h, o), {}) && FlushOk(Taken(h, o)) && TakenFrame(h, Taken(h, o))
    ensures Absorbed(h) ==> Absorbed(Taken(h, o))
    ensures forall s :: s in h.subs ==> Undisturbed(h, Taken(h, o), s)
  {
    assert Distinct(o.viewerIds);
    hide Structured, Taken, Absorbed, AreOrders, Undisturbed;
    TakenOnly(h, o);
    TakenStructure(c, h, Taken(h, o), o);
    if Absorbed(h) { TakenKeepsAbsorbed(h, o); }
    forall s | s in h.subs ensures Undisturbed(h, Taken(h, o), s) { TakenUndisturbed(h, o, s); }
  }

  /** What every step of a flush keeps. */
  ghost predicate FlushStep(c: Config, h: Hub, h1: Hub) {
    && Structured(c, h1, {}) && h1.subs == h.subs && h1.live == h.live && (Absorbed(h) ==> Absorbed(h1))
    && forall s :: s in h.subs ==> Undisturbed(h, h1, s)
  }

  lemma FlushStepTwice(c: Config, h: Hub, h1: Hub, h2: Hub)
    requires FlushStep(c, h, h1) && FlushStep(c, h1, h2)
    ensures FlushStep(c, h, h2)
  {
    hide Structured, Absorbed, Undisturbed;
    forall s | s in h.subs ensures Undisturbed(h, h2, s) { UndisturbedTwice(h, h1, h2, s); }
  }

  lemma FlushStepKeeps(c: Config, h: Hub, h1: Hub)
    requires ClientsKnow(c, h) && FlushStep(c, h, h1)
    ensures ClientsKnow(c, h1) && (Converging(h) ==> Converging(h1))
  {
    hide Structured, Absorbed, Undisturbed, KnowsPeers, KnowsInventories;
    UndisturbedKeep(c, h, h1);
  }

  lemma SliceStep(c: Config, h: Hub, shares: map<PeerId, seq<PeerUpdate>>)
    requires Structured(c, h, {}) && CanSlice(h, shares)
    ensures FlushStep(c, h, Slice(c, h, shares))
  {
    hide Structured, Slice, Absorbed, AreShares, Undisturbed;
    SliceFrame(c, h, shares);
    SliceKeepsStructure(c, h, shares);
    if Absorbed(h) { SliceKeepsAbsorbed(c, h, shares); }
    forall s | s in h.subs ensures Undisturbed(h, Slice(c, h, shares), s) { SliceUndisturbed(c, h, shares, s); }
  }

  lemma StartFlushStep(c: Config, h: Hub, o: Orders)
    requires Structured(c, h, {}) && !h.flushRequested && h.flush.None? && CanFlush(h, o)
    ensures FlushStep(c, h, StartFlush(c, h, o)) && NotStranded(StartFlush(c, h, o))
    ensures StartFlush(c, h, o).pending.None? && !StartFlush(c, h, o).flushRequested
  {
    var h1 := StartFlush(c, h, o);
    if h.pending.None? {
      forall s | s in h.subs ensures Undisturbed(h, h1, s) { hide MirrorOf; }
    } else {
      StartFlushCases(c, h, o);
      hide StartFlush, Structured, Absorbed, CanFlush, AreOrders, Undisturbed;
      if h.subs == map[] || h.pending.value.updates == map[] {
        DroppedBatch(c, h, h1);
      } else {
        TakenKeepsAll(c, h, o);
        var h0 := Taken(h, o);
        assert ViewerIds(h0) == ViewerIds(h);
        hide Taken, ViewerIds;
        if ViewerIds(h) == {} {
          NoViewers(c, h0, h1);
        } else {
          SliceFrame(c, h0, o.shares);
          SliceStep(c, h0, o.shares);
        }
        FlushStepTwice(c, h, h0, h1);
      }
    }
  }

  /** A timer that fires, or a request for another flush, changes nothing by itself. */
  lemma TimerStep(c: Config, h: Hub, h1: Hub)
    requires Structured(c, h, {})
    requires h1 == h.(pending := h1.pending, strayTimers := h1.strayTimers, flushRequested := h1.flushRequested)
    requires h1.pending.Some? == h.pending.Some?
    requires (h.pending.Some? ==> h1.pending.value.updates == h.pending.value.updates)
    ensures FlushStep(c, h, h1)
  {
    hide WellFormed;
    forall s | s in h.subs ensures Undisturbed(h, h1, s) {
      assert MirrorOf(h1, s) == MirrorOf(h, s);
      hide MirrorOf;
    }
    if Absorbed(h) { AbsorbedShrinks(h, h1); }
  }

  /** `flushInventory`, called by a timer. */
  lemma FlushKeeps(c: Config, h: Hub, o: Orders)
    requires Structured(c, h, {}) && (h.flushRequested ==> h.flush.Some?) && (h.flush.None? ==> CanFlush(h, o))
    ensures FlushStep(c, h, FlushInventory(c, h, o)) && NotStranded(FlushInventory(c, h, o))
  {
    hide CanFlush, StartFlush, Structured, FlushStep;
    if h.flush.Some? {
      TimerStep(c, h, h.(flushRequested := true));
    } else {
      StartFlushStep(c, h, o);
    }
  }

  lemma TurnStep(c: Config, h: Hub, shares: map<PeerId, seq<PeerUpdate>>, o: Orders)
    requires Structured(c, h, {}) && NotStranded(h) && Enabled(c, h, ETurn(shares, o))
    ensures FlushStep(c, h, Turn(c, h, shares, o)) && NotStranded(Turn(c, h, shares, o))
  {
    assert CanSlice(h, shares) && CanFlush(h, o);
    var h1 := Slice(c, h, shares);
    SliceFrame(c, h, shares);
    StillCanFlush(h, h1, o);
    hide CanFlush, StartFlush, Structured, Slice, CanSlice, FlushStep;
    SliceStep(c, h, shares);
    if h1.flush.None? && h1.flushRequested {
      var h2 := h1.(flushRequested := false);
      StepIsStructured(c, h, h1);
      TimerStep(c, h1, h2);
      StepIsStructured(c, h1, h2);
      StillCanFlush(h1, h2, o);
      StartFlushStep(c, h2, o);
      FlushStepTwice(c, h, h1, h2);
      FlushStepTwice(c, h, h2, StartFlush(c, h2, o));
    }
  }

  lemma StepIsStructured(c: Config, h: Hub, h1: Hub)
    requires FlushStep(c, h, h1)
    ensures Structured(c, h1, {})
  {
  }

  lemma TurnIsStep(c: Config, h: Hub, shares: map<PeerId, seq<PeerUpdate>>, o: Orders)
    requires PeersKnown(c, h) && Enabled(c, h, ETurn(shares, o))
    ensures FlushStep(c, h, Turn(c, h, shares, o))
  {
    hide FlushStep, Turn, Structured, KnowsPeers, Enabled;
    TurnStep(c, h, shares, o);
  }

  lemma TurnKeeps(c: Config, h: Hub, shares: map<PeerId, seq<PeerUpdate>>, o: Orders)
    requires PeersKnown(c, h) && Enabled(c, h, ETurn(shares, o))
    ensures PeersKnown(c, Turn(c, h, shares, o))
    ensures Converging(h) ==> Converging(Turn(c, h, shares, o))
  {
    TurnStep(c, h, shares, o);
    hide FlushStep, Turn, Structured, Absorbed, KnowsPeers, KnowsInventories;
    FlushStepKeeps(c, h, Turn(c, h, shares, o));
  }

  lemma StillCanFlush(h: Hub, h1: Hub, o: Orders)
    requires h1.pending == h.pending && h1.subs == h.subs && h1.views == h.views
    ensures CanFlush(h1, o) == CanFlush(h, o)
  {
    assert ViewerIds(h1) == ViewerIds(h);
  }

  // ---- Every run ----

  /**
   What keeps a run converging: a newcomer joins cleanly; a report is queued or nothing on its way
   undoes it; a REST append reports the whole inventory, or nobody listens and nothing undoes it.
   */
  predicate Safe(h: Hub, e: Event) {
    match e
    case EJoin(p, f) => JoinsCleanly(h, p)
    case EReport(s, u) =>
      s in h.subs && h.subs[s].peerId in h.store ==> HasBatchSubscribers(h) || !Undone(h, h.subs[s].peerId, u)
    case ERestReport(p, segments, replace) =>
      if p in h.store && !replace && !(h.store[p] <= segments)
      then h.subs == map[] && !Undone(h, p, Delta(segments, {}))
      else HasBatchSubscribers(h) || !Undone(h, p, Replace(segments))
    case _ => true
  }

  lemma RemoveKeeps(c: Config, h: Hub)
    requires PeersKnown(c, h)
    ensures PeersKnown(c, Next(c, h, ERemoveBroadcast)) && Converging(Next(c, h, ERemoveBroadcast))
  {
  }

  lemma WsReportKeepsPeers(c: Config, h: Hub, p: PeerId, u: Update)
    requires PeersKnown(c, h) && p in h.store
    ensures PeersKnown(c, Report(h, p, u))
  {
    hide PeersKnown;
    ReportKeepsPeers(c, h, p, Apply(u, h.store[p]), u);
  }

  /** Whatever happens, every client knows exactly the peers it should, and no batch is stranded. */
  lemma NextKeepsPeers(c: Config, h: Hub, e: Event)
    requires PeersKnown(c, h) && Enabled(c, h, e)
    ensures PeersKnown(c, Next(c, h, e))
  {
    hide PeersKnown, JoinPeer, Sweep, Subscribe, Unindex, Report, FlushInventory, Turn;
    match e {
      case EJoin(p, f) => JoinKeeps(c, h, p, f);
      case ESweep(ds) => SweepKeepsPeers(c, h, ds);
      case ESubscribe(s, p, mode, f) => SubscribeKeeps(c, h, s, p, mode, f);
      case EClose(s) => CloseKeepsPeers(c, h, s);
      case EReport(s, u) =>
        if h.subs[s].peerId in h.store { WsReportKeepsPeers(c, h, h.subs[s].peerId, u); }
      case ERestReport(p, segments, replace) =>
        ReportKeepsPeers(c, h, p, if replace then segments else h.store[p] + segments, Replace(segments));
      case ETimer(o) => TimerKeeps(c, h, h.(pending := Some(h.pending.value.(armed := false))), o);
      case EStrayTimer(o) => TimerKeeps(c, h, h.(strayTimers := h.strayTimers - 1), o);
      case ETurn(shares, o) => TurnKeeps(c, h, shares, o);
      case ERemoveBroadcast => RemoveKeeps(c, h);
    }
  }

  lemma TimerKeeps(c: Config, h: Hub, h1: Hub, o: Orders)
    requires PeersKnown(c, h) && h1 == h.(pending := h1.pending, strayTimers := h1.strayTimers)
    requires (h.flush.None? ==> CanFlush(h, o))
    requires h1.pending.Some? == h.pending.Some?
    requires (h.pending.Some? ==> h1.pending.value.updates == h.pending.value.updates)
    ensures FlushStep(c, h, FlushInventory(c, h1, o)) && PeersKnown(c, FlushInventory(c, h1, o))
    ensures Converging(h) ==> Converging(FlushInventory(c, h1, o))
  {
    assert ViewerIds(h1) == ViewerIds(h);
    assert CanFlush(h1, o) == CanFlush(h, o);
    hide CanFlush, FlushInventory, FlushStep, Structured, Absorbed, KnowsPeers, KnowsInventories;
    TimerStep(c, h, h1);
    StepIsStructured(c, h, h1);
    FlushKeeps(c, h1, o);
    FlushStepTwice(c, h, h1, FlushInventory(c, h1, o));
    FlushStepKeeps(c, h, FlushInventory(c, h1, o));
  }

  /** One event keeps the copies converging exactly when it is safe. */
  lemma NextConvergesIffSafe(c: Config, h: Hub, e: Event)
    requires PeersKnown(c, h) && Converging(h) && Enabled(c, h, e)
    ensures Converging(Next(c, h, e)) <==> Safe(h, e)
  {
    hide PeersKnown, Converging, JoinPeer, Sweep, Subscribe, Unindex;
    hide Report, RestReport, FlushInventory, Turn, Undone, JoinsCleanly;
    match e {
      case EJoin(p, f) => JoinKeeps(c, h, p, f);
      case ESweep(ds) => SweepKeepsConverging(c, h, ds);
      case ESubscribe(s, p, mode, f) => SubscribeKeeps(c, h, s, p, mode, f);
      case EClose(s) => CloseConverges(c, h, s);
      case EReport(s, u) => if h.subs[s].peerId in h.store { WsReportConverges(c, h, h.subs[s].peerId, u); }
      case ERestReport(p, segments, replace) => RestReportConverges(c, h, p, segments, replace);
      case ETimer(o) => TimerKeeps(c, h, h.(pending := Some(h.pending.value.(armed := false))), o);
      case EStrayTimer(o) => TimerKeeps(c, h, h.(strayTimers := h.strayTimers - 1), o);
      case ETurn(shares, o) => TurnKeeps(c, h, shares, o);
      case ERemoveBroadcast => RemoveKeeps(c, h);
    }
  }

  lemma CloseConverges(c: Config, h: Hub, s: Socket)
    requires PeersKnown(c, h) && Converging(h)
    ensures Converging(Unindex(h, s))
  {
    LiveAreSubscribed(c, h);
    hide Converging, PeersKnown;
    CloseKeepsConverging(h, s);
  }

  /** A repeated replacement is dropped, and would have been harmless. */
  lemma WsReportConverges(c: Config, h: Hub, p: PeerId, u: Update)
    requires Converging(h) && p in h.store
    ensures Converging(Report(h, p, u)) <==> HasBatchSubscribers(h) || !Undone(h, p, u)
  {
    if u == Replace(h.store[p]) { RepeatIsHarmless(h, p); } else { ReportKeepsConverging(c, h, p, u); }
  }

  lemma RepeatIsHarmless(h: Hub, p: PeerId)
    requires p in h.store && Absorbed(h)
    ensures !Undone(h, p, Replace(h.store[p]))
  {
    assert Absorbs(h, p);
    NetSettles(h, p, h.store[p]);
    if h.pending.Some? && p in h.pending.value.updates {
      ContradictionIsExact(h.pending.value.updates[p], Replace(h.store[p]), h.store[p]);
    }
    if OwedToOthers(h, p) && Net(h, p).Some? { ContradictionIsExact(Net(h, p).value, Replace(h.store[p]), h.store[p]); }
  }

  lemma RestReportConverges(c: Config, h: Hub, p: PeerId, segments: set<Segment>, replace: bool)
    requires PeersKnown(c, h) && Converging(h) && p in h.store
    ensures Converging(RestReport(h, p, segments, replace)) <==> Safe(h, ERestReport(p, segments, replace))
  {
    if !replace && !(h.store[p] <= segments) {
      RestReportKeepsConverging(c, h, p, segments);
    } else {
      assert (if replace then segments else h.store[p] + segments) == segments == Apply(Replace(segments), h.store[p]);
      ReportKeepsConverging(c, h, p, Replace(segments));
    }
  }

  ghost predicate AllSafe(c: Config, h: Hub, run: seq<Event>)
    requires IsRun(c, h, run)
    decreases |run|
  {
    run == [] || (Safe(h, run[0]) && AllSafe(c, Next(c, h, run[0]), run[1..]))
  }

  lemma StartKnows(c: Config, store: map<PeerId, set<Segment>>)
    requires ValidConfig(c)
    ensures PeersKnown(c, Start(store)) && Converging(Start(store))
  {
  }

  lemma {:induction false} RunKeepsPeers(c: Config, h: Hub, run: seq<Event>)
    requires PeersKnown(c, h) && IsRun(c, h, run)
    ensures PeersKnown(c, Outcome(c, h, run))
    decreases |run|
  {
    hide PeersKnown, Enabled, Next;
    if run != [] {
      NextKeepsPeers(c, h, run[0]);
      RunKeepsPeers(c, Next(c, h, run[0]), run[1..]);
    }
  }

  lemma {:induction false} SafeRunConverges(c: Config, h: Hub, run: seq<Event>)
    requires PeersKnown(c, h) && Converging(h) && IsRun(c, h, run) && AllSafe(c, h, run)
    ensures Converging(Outcome(c, h, run))
    decreases |run|
  {
    hide PeersKnown, Enabled, Next, Converging, Safe;
    if run != [] {
      NextKeepsPeers(c, h, run[0]);
      NextConvergesIffSafe(c, h, run[0]);
      SafeRunConverges(c, Next(c, h, run[0]), run[1..]);
    }
  }

  // ---- What the invariants mean for the clients ----

  /** Full-audience clients know all stored peers; a live neighbor-view client knows exactly itself and its view. */
  lemma ClientsMirrorViews(c: Config, h: Hub, s: Socket)
    requires PeersKnown(c, h) && s in h.subs
    ensures h.subs[s].mode != Viewer ==> MirrorOf(h, s).Keys == h.store.Keys
    ensures s in h.live ==>
      h.subs[s].peerId in h.views && MirrorOf(h, s).Keys == h.views[h.subs[s].peerId] + {h.subs[s].peerId}
  {
    hide MirrorOf;
    assert KnowsPeers(h, CALM, s);
    if s in h.live {
      ViewOfLive(c, h, {}, s);
      assert h.views[h.subs[s].peerId] <= h.views.Keys;
      hide Structured, WellFormed;
      assert View(h, h.subs[s].peerId) * h.store.Keys == View(h, h.subs[s].peerId);
    }
  }

  /** After every run, each client knows exactly the peers it should. */
  lemma EveryRunMirrorsViews(c: Config, store: map<PeerId, set<Segment>>, run: seq<Event>, s: Socket)
    requires ValidConfig(c) && IsRun(c, Start(store), run) && s in Outcome(c, Start(store), run).subs
    ensures var h := Outcome(c, Start(store), run);
      && (h.subs[s].mode != Viewer ==> MirrorOf(h, s).Keys == h.store.Keys)
      && (s in h.live ==>
          h.subs[s].peerId in h.views && MirrorOf(h, s).Keys == h.views[h.subs[s].peerId] + {h.subs[s].peerId})
  {
    StartKnows(c, store);
    RunKeepsPeers(c, Start(store), run);
    ClientsMirrorViews(c, Outcome(c, Start(store), run), s);
  }

  /** After every run, a batch waits for an armed timer or for a running flush that was asked to start it. */
  lemma EveryRunStrandsNothing(c: Config, store: map<PeerId, set<Segment>>, run: seq<Event>)
    requires ValidConfig(c) && IsRun(c, Start(store), run)
    ensures var h := Outcome(c, Start(store), run);
      h.pending.Some? ==> h.pending.value.armed || (h.flush.Some? && h.flushRequested)
  {
    StartKnows(c, store);
    RunKeepsPeers(c, Start(store), run);
  }

  /** Nothing is pending and no flush is running. */
  predicate Quiet(h: Hub) { h.pending.None? && h.flush.None? }

  /** A client's copy of `p` is the stored inventory. A neighbor-view client tracks its neighbors. */
  ghost predicate HasStored(h: Hub, s: Socket, p: PeerId)
    requires s in h.subs && p in h.store
  {
    p in MirrorOf(h, s) && MirrorOf(h, s)[p] == h.store[p]
  }

  lemma QuietCopiesAreStored(c: Config, h: Hub, s: Socket, p: PeerId)
    requires PeersKnown(c, h) && Converging(h) && Quiet(h) && s in h.subs && p in h.store
    ensures h.subs[s].mode != Viewer ==> HasStored(h, s, p)
    ensures s in h.live && p in View(h, h.subs[s].peerId) ==> HasStored(h, s, p)
  {
    ClientsMirrorViews(c, h, s);
    assert KnowsInventories(h, s);
    hide MirrorOf, Structured, KnowsPeers, Absorbed;
    assert p in MirrorOf(h, s) ==> Converges(h, s, p);
  }

  /** After every safe run, whenever nothing is on its way, every copy is the stored inventory. */
  lemma EverySafeRunConverges(c: Config, store: map<PeerId, set<Segment>>, run: seq<Event>, s: Socket, p: PeerId)
    requires ValidConfig(c) && IsRun(c, Start(store), run) && AllSafe(c, Start(store), run)
    requires var h := Outcome(c, Start(store), run); Quiet(h) && s in h.subs && p in h.store
    ensures var h := Outcome(c, Start(store), run);
      h.subs[s].mode != Viewer || (s in h.live && p in View(h, h.subs[s].peerId)) ==> HasStored(h, s, p)
  {
    StartKnows(c, store);
    RunKeepsPeers(c, Start(store), run);
    SafeRunConverges(c, Start(store), run);
    QuietCopiesAreStored(c, Outcome(c, Start(store), run), s, p);
  }

  /** A flush ends: every turn that leaves it running serves at least one more viewer. */
  lemma FlushAdvances(c: Config, h: Hub, shares: map<PeerId, seq<PeerUpdate>>)
    requires ValidConfig(c) && FlushOk(h) && Slice(c, h, shares).flush.Some?
    ensures h.flush.value.next < Slice(c, h, shares).flush.value.next < |h.flush.value.viewerIds|
    ensures Slice(c, h, shares).flush.value.viewerIds == h.flush.value.viewerIds
  {
    SliceFrame(c, h, shares);
  }
}
