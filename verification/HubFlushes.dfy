/**
 What a neighbor-view client is sent of the flushes: each flush exactly once and in order, as the
 flush restricted to the view its peer has at that turn.
 */
module HubFlushes {
  import opened Wrappers
  import opened Inventory
  import opened NeighborViews
  import opened PeerMirror
  import opened Sequences
  import opened HubModel
  import opened HubInvariants

  // ---- Batches in a log ----

  /** The inventory batches of a log. */
  function Batches(log: seq<Message>): seq<Message> {
    if log == [] then []
    else Batches(log[..|log| - 1]) + (if log[|log| - 1].InventoryBatch? then [log[|log| - 1]] else [])
  }

  lemma {:induction false} BatchesSplit(a: seq<Message>, b: seq<Message>)
    ensures Batches(a + b) == Batches(a) + Batches(b)
    decreases |b|
  {
    if b == [] {
      assert a + b == a;
    } else {
      assert (a + b)[..|a + b| - 1] == a + b[..|b| - 1];
      BatchesSplit(a, b[..|b| - 1]);
    }
  }

  lemma {:induction false} AllBatches(messages: seq<Message>)
    requires forall m :: m in messages ==> m.InventoryBatch?
    ensures Batches(messages) == messages
  {
    if messages != [] { AllBatches(messages[..|messages| - 1]); }
  }

  lemma {:induction false} NoBatch(messages: seq<Message>)
    requires forall m :: m in messages ==> !m.InventoryBatch?
    ensures Batches(messages) == []
  {
    if messages != [] { NoBatch(messages[..|messages| - 1]); }
  }

  // ---- Everything but flushes sends no batches ----

  /** Nobody is sent a batch between these states. */
  ghost predicate NoBatches(h: Hub, h1: Hub) { forall s :: Batches(Log(h1, s)) == Batches(Log(h, s)) }

  lemma NoBatchesTwice(h: Hub, h1: Hub, h2: Hub)
    requires NoBatches(h, h1) && NoBatches(h1, h2)
    ensures NoBatches(h, h2)
  {
    forall s ensures Batches(Log(h2, s)) == Batches(Log(h, s)) {
      assert Batches(Log(h1, s)) == Batches(Log(h, s));
    }
  }

  lemma SendNoBatches(h: Hub, to: set<Socket>, messages: seq<Message>)
    requires forall m :: m in messages ==> !m.InventoryBatch?
    ensures NoBatches(h, Send(h, to, messages))
  {
    forall s ensures Batches(Log(Send(h, to, messages), s)) == Batches(Log(h, s)) {
      NoBatch(messages);
      BatchesSplit(Log(h, s), messages);
    }
  }

  ghost predicate AreCalm(notices: seq<Notice>) { forall n :: n in notices ==> !n.message.InventoryBatch? }

  lemma {:induction false} NoticesNoBatches(h: Hub, notices: seq<Notice>)
    requires AreCalm(notices)
    ensures NoBatches(h, SendNotices(h, notices))
    decreases |notices|
  {
    if notices != [] {
      assert notices[0] in notices;
      hide NoBatches, Send;
      var h1 := Send(h, ViewerSockets(h, notices[0].viewer), [notices[0].message]);
      SendNoBatches(h, ViewerSockets(h, notices[0].viewer), [notices[0].message]);
      NoticesNoBatches(h1, notices[1..]);
      NoBatchesTwice(h, h1, SendNotices(h, notices));
    } else {
      Same(h, h);
    }
  }

  lemma Same(h: Hub, h1: Hub)
    requires h1.log == h.log
    ensures NoBatches(h, h1)
  {
  }

  lemma {:induction false} AddedCalm(h: Hub, p: PeerId, added: seq<PeerId>)
    ensures AreCalm(AddedNotices(h, p, added))
  {
    if added != [] { AddedCalm(h, p, added[1..]); }
  }

  lemma {:induction false} ReciprocalCalm(h: Hub, p: PeerId, watchers: seq<PeerId>)
    ensures AreCalm(ReciprocalNotices(h, p, watchers))
  {
    if watchers != [] { ReciprocalCalm(h, p, watchers[1..]); }
  }

  lemma {:induction false} EvictedCalm(evicted: seq<Eviction>)
    ensures AreCalm(EvictedNotices(evicted))
  {
    if evicted != [] { EvictedCalm(evicted[1..]); }
  }

  lemma FillNoBatches(h: Hub, p: PeerId, f: NeighborViewFill)
    ensures NoBatches(h, FillAndAnnounce(h, p, f))
  {
    var h0 := h.(views := AfterFill(h.views, p, f));
    var n1, n2, n3 := AddedNotices(h0, p, f.added), ReciprocalNotices(h0, p, f.reciprocal), EvictedNotices(f.evicted);
    var h1 := SendNotices(h0, n1);
    var h2 := SendNotices(h1, n2);
    Same(h, h0);
    NoticesFrame(h0, n1);
    hide NoBatches, AreCalm;
    AddedCalm(h0, p, f.added);
    ReciprocalCalm(h0, p, f.reciprocal);
    EvictedCalm(f.evicted);
    NoticesNoBatches(h0, n1);
    NoticesNoBatches(h1, n2);
    NoticesNoBatches(h2, n3);
    NoBatchesTwice(h, h0, h1);
    NoBatchesTwice(h, h1, h2);
    NoBatchesTwice(h, h2, SendNotices(h2, n3));
  }

  lemma {:induction false} RefillNoBatches(h: Hub, x: PeerId, losers: seq<PeerId>, fills: seq<NeighborViewFill>)
    requires |losers| == |fills|
    ensures NoBatches(h, RefillLosers(h, x, losers, fills))
    decreases |losers|
  {
    hide NoBatches, FillAndAnnounce;
    if losers == [] {
      Same(h, h);
    } else {
      var h1 := Told(h, x, losers[0]);
      var h2 := FillAndAnnounce(h1, losers[0], fills[0]);
      SendNoBatches(h, ViewerSockets(h, losers[0]), [PeerLeft(x)]);
      FillNoBatches(h1, losers[0], fills[0]);
      RefillNoBatches(h2, x, losers[1..], fills[1..]);
      NoBatchesTwice(h, h1, h2);
      NoBatchesTwice(h, h2, RefillLosers(h, x, losers, fills));
    }
  }

  lemma UnlistedNoBatches(h: Hub, x: PeerId)
    ensures NoBatches(h, Unlisted(h, x))
  {
    var h1 := WithoutPending(h, x);
    var h2 := Send(h1, Audience(h1), [PeerLeft(x)]);
    Same(h, h1);
    SendNoBatches(h1, Audience(h1), [PeerLeft(x)]);
    Same(h2, Unlisted(h, x));
    hide NoBatches;
    NoBatchesTwice(h, h1, h2);
    NoBatchesTwice(h, h2, Unlisted(h, x));
  }

  lemma {:induction false} PeersGoneNoBatches(h: Hub, ds: seq<Departure>)
    requires forall d :: d in ds ==> |d.losers| == |d.fills|
    ensures NoBatches(h, PeersGone(h, ds))
    decreases |ds|
  {
    hide NoBatches, RefillLosers;
    if ds == [] {
      Same(h, h);
    } else {
      var d := ds[0];
      var h1 := Unlisted(h, d.peer);
      UnlistedNoBatches(h, d.peer);
      RefillNoBatches(h1, d.peer, d.losers, d.fills);
      PeersGoneNoBatches(PeerGone(h, d), ds[1..]);
      NoBatchesTwice(h, h1, PeerGone(h, d));
      NoBatchesTwice(h, PeerGone(h, d), PeersGone(h, ds));
    }
  }

  lemma JoinNoBatches(h: Hub, p: PeerId, f: NeighborViewFill)
    ensures NoBatches(h, JoinPeer(h, p, f))
  {
    var h1 := h.(store := h.store[p := {}]);
    var h2 := Send(h1, Audience(h1), [PeerJoined(p, {})]);
    Same(h, h1);
    SendNoBatches(h1, Audience(h1), [PeerJoined(p, {})]);
    Same(h2, Admitted(h, p));
    hide NoBatches, FillAndAnnounce;
    FillNoBatches(Admitted(h, p), p, f);
    NoBatchesTwice(h, h1, h2);
    NoBatchesTwice(h, h2, Admitted(h, p));
    NoBatchesTwice(h, Admitted(h, p), JoinPeer(h, p, f));
  }

  lemma ResubscribedNoBatches(h: Hub, s: Socket, sub: Subscription, m: Mirror)
    ensures NoBatches(h, Resubscribed(h, s, sub, m))
  {
    var h1 := SetSubscription(h, s, sub);
    Same(h, h1);
    SendNoBatches(h1, {s}, [PeerList(m)]);
    hide NoBatches, Send;
    NoBatchesTwice(h, h1, Resubscribed(h, s, sub, m));
  }

  lemma SubscribeNoBatches(h: Hub, s: Socket, p: PeerId, mode: Mode, f: NeighborViewFill)
    requires p in h.store
    ensures NoBatches(h, Subscribe(h, s, p, mode, f))
  {
    if mode != Viewer {
      ResubscribedNoBatches(h, s, Subscription(p, mode), h.store);
    } else {
      var h0, sub := Registered(h, p), Subscription(p, Viewer);
      var h1 := FillAndAnnounce(h0, p, f);
      SubscribeIsResubscribed(h, s, p, f);
      Same(h, h0);
      hide NoBatches, FillAndAnnounce, Resubscribed, Subscribe;
      FillNoBatches(h0, p, f);
      ResubscribedNoBatches(h1, s, sub, Snapshot(h1, Listed(h1, sub)));
      NoBatchesTwice(h, h0, h1);
      NoBatchesTwice(h, h1, Subscribe(h, s, p, mode, f));
    }
  }

  lemma ReportedNoBatches(h: Hub, p: PeerId, inventory: set<Segment>, u: Update)
    ensures NoBatches(h, Reported(h, p, inventory, u))
  {
    var h1 := h.(store := h.store[p := inventory]);
    var h2 := Send(h1, Sockets(h1, Immediate), [InventoryReport(p, u)]);
    Same(h, h1);
    SendNoBatches(h1, Sockets(h1, Immediate), [InventoryReport(p, u)]);
    Same(h2, Reported(h, p, inventory, u));
    hide NoBatches, Send;
    NoBatchesTwice(h, h1, h2);
    NoBatchesTwice(h, h2, Reported(h, p, inventory, u));
  }

  // ---- The ledger of one neighbor-view client ----

  /** One viewer's share of a flush: the flush, the view it was restricted to, and the updates as listed. */
  datatype Share = Share(updates: map<PeerId, Update>, view: set<PeerId>, listing: seq<PeerUpdate>)

  /** The socket keeps its subscription through this event. */
  predicate Spares(e: Event, s: Socket) {
    !(e.ESubscribe? && e.socket == s) && !(e.EClose? && e.socket == s) && !e.ERemoveBroadcast?
  }

  /** The flush that still owes a share to `p`, if one does. */
  function Owed(h: Hub, p: PeerId): seq<map<PeerId, Update>> {
    if Unserved(h, p) then [h.flush.value.updates] else []
  }

  /** The share that a slice of the running flush sends to `p`, if it serves `p`. */
  function SliceShare(c: Config, h: Hub, shares: map<PeerId, seq<PeerUpdate>>, p: PeerId): seq<Share>
    requires h.flush.Some? && h.flush.value.next <= |h.flush.value.viewerIds|
  {
    if p in SliceIds(c, h)
    then [Share(h.flush.value.updates, View(h, p), if p in h.views && p in shares then shares[p] else [])]
    else []
  }

  /** The pending batch becomes a flush that viewers get a share of. */
  predicate StartsForViewers(h: Hub) {
    h.pending.Some? && h.subs != map[] && h.pending.value.updates != map[] && ViewerIds(h) != {}
  }

  function StartShare(c: Config, h: Hub, o: Orders, p: PeerId): seq<Share> {
    if StartsForViewers(h) then SliceShare(c, Taken(h, o), o.shares, p) else []
  }

  function StartBegun(h: Hub): seq<map<PeerId, Update>> {
    if StartsForViewers(h) then [h.pending.value.updates] else []
  }

  function TurnBegun(c: Config, h: Hub, shares: map<PeerId, seq<PeerUpdate>>): seq<map<PeerId, Update>>
    requires h.flush.Some? && h.flush.value.next <= |h.flush.value.viewerIds|
  {
    var h1 := Slice(c, h, shares);
    if h1.flush.None? && h1.flushRequested then StartBegun(h1) else []
  }

  function TurnShares(c: Config, h: Hub, shares: map<PeerId, seq<PeerUpdate>>, o: Orders, p: PeerId): seq<Share>
    requires h.flush.Some? && h.flush.value.next <= |h.flush.value.viewerIds|
  {
    var h1 := Slice(c, h, shares);
    SliceShare(c, h, shares, p) +
    (if h1.flush.None? && h1.flushRequested then StartShare(c, h1.(flushRequested := false), o, p) else [])
  }

  /** The flushes that an event begins. */
  function Begins(c: Config, h: Hub, e: Event): seq<map<PeerId, Update>>
    requires Enabled(c, h, e)
  {
    match e
    case ETimer(o) => if h.flush.None? then StartBegun(h) else []
    case EStrayTimer(o) => if h.flush.None? then StartBegun(h) else []
    case ETurn(shares, o) => TurnBegun(c, h, shares)
    case _ => []
  }

  /** The shares that an event sends to `p`: at most one of the running flush, then one of the next. */
  function Serves(c: Config, h: Hub, e: Event, p: PeerId): seq<Share>
    requires Enabled(c, h, e)
  {
    match e
    case ETimer(o) => if h.flush.None? then StartShare(c, h.(pending := Some(h.pending.value.(armed := false))), o, p)
      else []
    case EStrayTimer(o) => if h.flush.None? then StartShare(c, h.(strayTimers := h.strayTimers - 1), o, p) else []
    case ETurn(shares, o) => TurnShares(c, h, shares, o, p)
    case _ => []
  }

  function Flushes(shares: seq<Share>): seq<map<PeerId, Update>> {
    if shares == [] then [] else [shares[0].updates] + Flushes(shares[1..])
  }

  function Delivered(shares: seq<Share>): seq<Message> {
    if shares == [] then [] else BatchMessages(shares[0].listing) + Delivered(shares[1..])
  }

  ghost predicate AreRestricted(shares: seq<Share>) {
    forall share :: share in shares ==> IsListing(share.listing, Restrict(share.updates, share.view))
  }

  lemma {:induction false} FlushesSplit(a: seq<Share>, b: seq<Share>)
    ensures Flushes(a + b) == Flushes(a) + Flushes(b)
    decreases |a|
  {
    if a == [] {
      assert a + b == b;
    } else {
      assert (a + b)[1..] == a[1..] + b;
      FlushesSplit(a[1..], b);
    }
  }

  lemma {:induction false} DeliveredSplit(a: seq<Share>, b: seq<Share>)
    ensures Delivered(a + b) == Delivered(a) + Delivered(b)
    decreases |a|
  {
    hide BatchMessages;
    if a == [] {
      assert a + b == b;
    } else {
      assert (a + b)[1..] == a[1..] + b;
      DeliveredSplit(a[1..], b);
      var first := BatchMessages(a[0].listing);
      assert first + (Delivered(a[1..]) + Delivered(b)) == first + Delivered(a[1..]) + Delivered(b);
    }
  }

  /** Between these states `s` is sent exactly these shares, in which `p` gets what it was owed and what was begun. */
  ghost predicate Accounts(h: Hub, h1: Hub, s: Socket, p: PeerId, begun: seq<map<PeerId, Update>>, shares: seq<Share>) {
    && s in h1.subs && h1.subs[s] == Subscription(p, Viewer)
    && Owed(h, p) + begun == Flushes(shares) + Owed(h1, p)
    && Batches(Log(h1, s)) == Batches(Log(h, s)) + Delivered(shares)
    && AreRestricted(shares)
  }

  lemma AccountsAdd(h: Hub, h1: Hub, h2: Hub, s: Socket, p: PeerId, begun1: seq<map<PeerId, Update>>,
                    shares1: seq<Share>,
                    begun2: seq<map<PeerId, Update>>, shares2: seq<Share>)
    requires Accounts(h, h1, s, p, begun1, shares1) && Accounts(h1, h2, s, p, begun2, shares2)
    ensures Accounts(h, h2, s, p, begun1 + begun2, shares1 + shares2)
  {
    FlushesSplit(shares1, shares2);
    DeliveredSplit(shares1, shares2);
    hide Owed, Batches, Log, Flushes, Delivered, IsListing;
    Chain(Owed(h, p), begun1, Flushes(shares1), Owed(h1, p), begun2, Flushes(shares2), Owed(h2, p));
    assert Batches(Log(h2, s)) == Batches(Log(h, s)) + (Delivered(shares1) + Delivered(shares2));
  }

  lemma Chain<T>(a: seq<T>, b: seq<T>, x: seq<T>, m: seq<T>, c: seq<T>, y: seq<T>, z: seq<T>)
    requires a + b == x + m && m + c == y + z
    ensures a + (b + c) == x + y + z
  {
    calc {
      a + (b + c);
      (a + b) + c;
      x + (m + c);
      x + y + z;
    }
  }

  /** An event without flushes: nothing is begun, served or sent. */
  lemma NothingAccounts(h: Hub, h1: Hub, s: Socket, p: PeerId)
    requires s in h1.subs && h1.subs[s] == Subscription(p, Viewer)
    requires NoBatches(h, h1) && h1.flush == h.flush && h1.generation == h.generation
    ensures Accounts(h, h1, s, p, [], [])
  {
    assert Batches(Log(h, s)) + [] == Batches(Log(h, s));
    hide Batches, Log;
    assert Unserved(h1, p) == Unserved(h, p);
  }

  /** A slice settles the flush with `p` if it serves `p`, and leaves it owed if not. */
  lemma SliceSettles(c: Config, h: Hub, shares: map<PeerId, seq<PeerUpdate>>, p: PeerId)
    requires FlushOk(h)
    ensures Owed(h, p) == Flushes(SliceShare(c, h, shares, p)) + Owed(Slice(c, h, shares), p)
  {
    var sent := SliceShare(c, h, shares, p);
    SliceFrame(c, h, shares);
    SliceServes(c, h, shares, p);
    assert Flushes(sent) == if p in SliceIds(c, h) then [h.flush.value.updates] else [] by {
      if p in SliceIds(c, h) { assert sent[1..] == []; }
    }
    hide Slice, SliceShare, Flushes, SliceIds;
  }

  /** A slice sends `s` exactly the share of its viewer. */
  lemma SliceDelivers(c: Config, h: Hub, shares: map<PeerId, seq<PeerUpdate>>, s: Socket, p: PeerId)
    requires CanSlice(h, shares) && s in h.subs && h.subs[s] == Subscription(p, Viewer)
    ensures Batches(Log(Slice(c, h, shares), s)) == Batches(Log(h, s)) + Delivered(SliceShare(c, h, shares, p))
  {
    var sent := SliceShare(c, h, shares, p);
    assert FlushOk(h);
    ShareLog(c, h, shares, s, p);
    hide Slice, SliceShare, CanSlice, Batches, Log, Delivered, ServedTo, FlushOk;
    SliceLog(c, h, shares, s);
    AllBatches(Delivered(sent));
    BatchesSplit(Log(h, s), Delivered(sent));
  }

  lemma SliceAccounts(c: Config, h: Hub, shares: map<PeerId, seq<PeerUpdate>>, s: Socket, p: PeerId)
    requires FlushOk(h) && CanSlice(h, shares) && s in h.subs && h.subs[s] == Subscription(p, Viewer)
    ensures Accounts(h, Slice(c, h, shares), s, p, [], SliceShare(c, h, shares, p))
  {
    hide Slice, SliceShare, CanSlice, Owed, Flushes, Batches, Log, Delivered, AreRestricted;
    SliceFrame(c, h, shares);
    SliceSettles(c, h, shares, p);
    SliceDelivers(c, h, shares, s, p);
    ShareRestricted(c, h, shares, p);
    assert Owed(h, p) + [] == Owed(h, p);
  }

  lemma ShareLog(c: Config, h: Hub, shares: map<PeerId, seq<PeerUpdate>>, s: Socket, p: PeerId)
    requires CanSlice(h, shares) && s in h.subs && h.subs[s] == Subscription(p, Viewer)
    ensures ServedTo(h, SliceIds(c, h), shares, s) == Delivered(SliceShare(c, h, shares, p))
    ensures forall m :: m in Delivered(SliceShare(c, h, shares, p)) ==> m.InventoryBatch?
  {
  }

  lemma ShareRestricted(c: Config, h: Hub, shares: map<PeerId, seq<PeerUpdate>>, p: PeerId)
    requires CanSlice(h, shares)
    ensures AreRestricted(SliceShare(c, h, shares, p))
  {
    var f := h.flush.value;
    assert forall q :: q in SliceIds(c, h) ==> q in f.viewerIds[f.next..];
    hide IsListing, Restrict;
    if p !in h.views { assert IsListing([], Restrict(f.updates, {})) by { EmptyShare(f.updates); } }
  }

  lemma EmptyShare(updates: map<PeerId, Update>)
    ensures IsListing([], Restrict(updates, {}))
  {
    assert Restrict(updates, {}) == map[];
  }

  lemma TakenAccounts(h: Hub, o: Orders, s: Socket, p: PeerId)
    requires h.flush.None? && h.pending.Some? && AreOrders(h, h.pending.value.updates, o)
    requires s in h.subs && h.subs[s] == Subscription(p, Viewer)
    ensures Accounts(h, Taken(h, o), s, p, [h.pending.value.updates], [])
  {
    TakenOnly(h, o);
    TakenServes(h, o, s);
    assert Log(Taken(h, o), s) == Log(h, s);
    assert Batches(Log(h, s)) + [] == Batches(Log(h, s));
    hide Taken, Log, Batches;
  }

  lemma StartAccounts(c: Config, h: Hub, o: Orders, s: Socket, p: PeerId)
    requires h.flush.None? && CanFlush(h, o) && s in h.subs && h.subs[s] == Subscription(p, Viewer)
    ensures Accounts(h, StartFlush(c, h, o), s, p, StartBegun(h), StartShare(c, h, o, p))
  {
    var h1 := StartFlush(c, h, o);
    ViewerIsListed(h, s);
    if StartsForViewers(h) {
      StartFlushCases(c, h, o);
      TakenOnly(h, o);
      hide Taken, StartFlush, Slice, CanSlice, AreOrders, ViewerIds, Accounts, SliceShare;
      TakenAccounts(h, o, s, p);
      SliceAccounts(c, Taken(h, o), o.shares, s, p);
      AccountsAdd(h, Taken(h, o), h1, s, p, StartBegun(h), [], [], StartShare(c, h, o, p));
      assert [] + StartShare(c, h, o, p) == StartShare(c, h, o, p) && StartBegun(h) + [] == StartBegun(h);
    } else {
      if h.pending.Some? { StartFlushCases(c, h, o); }
      Same(h, h1);
      NothingAccounts(h, h1, s, p);
    }
  }

  /** Timers and requests are no part of the account. */
  lemma FlagsAccount(h: Hub, h1: Hub, s: Socket, p: PeerId)
    requires h1 == h.(pending := h1.pending, strayTimers := h1.strayTimers, flushRequested := h1.flushRequested)
    requires s in h.subs && h.subs[s] == Subscription(p, Viewer)
    ensures Accounts(h, h1, s, p, [], [])
  {
    Same(h, h1);
    NothingAccounts(h, h1, s, p);
  }

  /** The account of a timer: of the batch that it starts, or of nothing. */
  lemma FiredAccounts(c: Config, h: Hub, h1: Hub, o: Orders, s: Socket, p: PeerId)
    requires h1 == h.(pending := h1.pending, strayTimers := h1.strayTimers) && (h.flush.None? ==> CanFlush(h, o))
    requires h1.pending.Some? == h.pending.Some?
    requires (h.pending.Some? ==> h1.pending.value.updates == h.pending.value.updates)
    requires s in h.subs && h.subs[s] == Subscription(p, Viewer)
    ensures Accounts(h, FlushInventory(c, h1, o), s, p, if h.flush.None? then StartBegun(h) else [],
                     if h.flush.None? then StartShare(c, h1, o, p) else [])
  {
    var h2 := FlushInventory(c, h1, o);
    if h.flush.None? {
      assert ViewerIds(h1) == ViewerIds(h);
      assert CanFlush(h1, o) && StartBegun(h1) == StartBegun(h);
      hide StartFlush, CanFlush, Accounts, StartShare, StartBegun;
      FlagsAccount(h, h1, s, p);
      StartAccounts(c, h1, o, s, p);
      AccountsAdd(h, h1, h2, s, p, [], [], StartBegun(h), StartShare(c, h1, o, p));
      assert [] + StartBegun(h) == StartBegun(h) && [] + StartShare(c, h1, o, p) == StartShare(c, h1, o, p);
    } else {
      FlagsAccount(h, h2, s, p);
    }
  }

  /** When the slice ends its flush and another was asked for, the next flush starts in the same turn. */
  lemma NextFlushAccounts(c: Config, h: Hub, h1: Hub, o: Orders, s: Socket, p: PeerId, first: seq<Share>)
    requires Accounts(h, h1, s, p, [], first) && h1.flush.None? && CanFlush(h1, o)
    ensures var h2 := h1.(flushRequested := false);
      Accounts(h, StartFlush(c, h2, o), s, p, StartBegun(h1), first + StartShare(c, h2, o, p))
  {
    var h2 := h1.(flushRequested := false);
    StillCanFlush(h1, h2, o);
    assert s in h1.subs && h1.subs[s] == Subscription(p, Viewer);
    hide Accounts, StartFlush, CanFlush, StartShare, StartBegun;
    FlagsAccount(h1, h2, s, p);
    StartAccounts(c, h2, o, s, p);
    SameStart(h1, h2);
    AccountsAdd(h, h1, h2, s, p, [], first, [], []);
    assert first + [] == first;
    AccountsAdd(h, h2, StartFlush(c, h2, o), s, p, [], first, StartBegun(h1), StartShare(c, h2, o, p));
    assert [] + StartBegun(h1) == StartBegun(h1);
  }

  lemma TurnAccounts(c: Config, h: Hub, shares: map<PeerId, seq<PeerUpdate>>, o: Orders, s: Socket, p: PeerId)
    requires FlushOk(h) && CanSlice(h, shares) && CanFlush(h, o) && s in h.subs && h.subs[s] == Subscription(p, Viewer)
    ensures Accounts(h, Turn(c, h, shares, o), s, p, TurnBegun(c, h, shares), TurnShares(c, h, shares, o, p))
  {
    hide Slice, CanSlice, StartFlush, CanFlush, Accounts, StartShare, SliceShare, StartBegun, Unserved;
    SliceAccounts(c, h, shares, s, p);
    SliceCanFlush(c, h, shares, o);
    var h1, first := Slice(c, h, shares), SliceShare(c, h, shares, p);
    if h1.flush.None? && h1.flushRequested {
      NextFlushAccounts(c, h, h1, o, s, p, first);
    } else {
      assert first + [] == first;
    }
  }

  lemma SliceCanFlush(c: Config, h: Hub, shares: map<PeerId, seq<PeerUpdate>>, o: Orders)
    requires CanSlice(h, shares) && CanFlush(h, o)
    ensures CanFlush(Slice(c, h, shares), o) && h.flush.Some? && h.flush.value.next <= |h.flush.value.viewerIds|
  {
    SliceFrame(c, h, shares);
    hide Slice, CanSlice, CanFlush;
    StillCanFlush(h, Slice(c, h, shares), o);
  }

  lemma CanTurn(c: Config, h: Hub, shares: map<PeerId, seq<PeerUpdate>>, o: Orders)
    requires PeersKnown(c, h) && Enabled(c, h, ETurn(shares, o))
    ensures FlushOk(h) && CanSlice(h, shares) && CanFlush(h, o)
  {
  }

  lemma SameStart(h: Hub, h1: Hub)
    requires h1 == h.(flushRequested := h1.flushRequested)
    ensures StartBegun(h1) == StartBegun(h)
  {
    assert ViewerIds(h1) == ViewerIds(h);
  }

  // ---- Events that send no batches leave the account alone ----

  lemma SweepAccounts(c: Config, h: Hub, ds: seq<Departure>, s: Socket, p: PeerId)
    requires PeersKnown(c, h) && Enabled(c, h, ESweep(ds)) && s in h.subs && h.subs[s] == Subscription(p, Viewer)
    ensures Accounts(h, Next(c, h, ESweep(ds)), s, p, [], [])
  {
    DeparturesFit(c, h.views, ds);
    var h0 := DropPeers(h, Peers(ds));
    Same(h, h0);
    hide PeersKnown, Enabled, NoBatches, PeersGone;
    PeersGoneNoBatches(h0, ds);
    NoBatchesTwice(h, h0, Sweep(h, ds));
    PeersGoneFrame(h0, ds);
    NothingAccounts(h, Sweep(h, ds), s, p);
  }

  lemma {:induction false} PeersGoneFrame(h: Hub, ds: seq<Departure>)
    requires forall d :: d in ds ==> |d.losers| == |d.fills|
    ensures PeersGone(h, ds).subs == h.subs && PeersGone(h, ds).flush == h.flush
    ensures PeersGone(h, ds).generation == h.generation
    decreases |ds|
  {
    if ds != [] {
      RefillLosersFrame(Unlisted(h, ds[0].peer), ds[0].peer, ds[0].losers, ds[0].fills);
      PeersGoneFrame(PeerGone(h, ds[0]), ds[1..]);
    }
  }

  lemma SubscribeAccounts(c: Config, h: Hub, t: Socket, q: PeerId, mode: Mode, f: NeighborViewFill, s: Socket,
                          p: PeerId)
    requires PeersKnown(c, h) && Enabled(c, h, ESubscribe(t, q, mode, f)) && t != s
    requires s in h.subs && h.subs[s] == Subscription(p, Viewer)
    ensures Accounts(h, Next(c, h, ESubscribe(t, q, mode, f)), s, p, [], [])
  {
    var h2 := Subscribe(h, t, q, mode, f);
    LiveAreSubscribed(c, h);
    hide PeersKnown, NoBatches, Resubscribed, FillAndAnnounce;
    SubscribeNoBatches(h, t, q, mode, f);
    if mode != Viewer {
      ResubscribedFrame(h, t, Subscription(q, mode), h.store);
      assert h2 == Resubscribed(h, t, Subscription(q, mode), h.store);
    } else {
      var h1, sub := FillAndAnnounce(Registered(h, q), q, f), Subscription(q, Viewer);
      FillAndAnnounceFrame(Registered(h, q), q, f);
      SubscribeIsResubscribed(h, t, q, f);
      ResubscribedFrame(h1, t, sub, Snapshot(h1, Listed(h1, sub)));
    }
    hide Subscribe;
    NothingAccounts(h, h2, s, p);
  }

  lemma JoinAccounts(c: Config, h: Hub, q: PeerId, f: NeighborViewFill, s: Socket, p: PeerId)
    requires s in h.subs && h.subs[s] == Subscription(p, Viewer)
    ensures Accounts(h, JoinPeer(h, q, f), s, p, [], [])
  {
    FillAndAnnounceFrame(Admitted(h, q), q, f);
    hide NoBatches;
    JoinNoBatches(h, q, f);
    hide FillAndAnnounce;
    NothingAccounts(h, JoinPeer(h, q, f), s, p);
  }

  lemma CloseAccounts(h: Hub, t: Socket, s: Socket, p: PeerId)
    requires s in h.subs && h.subs[s] == Subscription(p, Viewer) && t != s
    ensures Accounts(h, Unindex(h, t), s, p, [], [])
  {
    UnindexFrame(h, t);
    Same(h, Unindex(h, t));
    assert s in Unindex(h, t).subs;
    hide Unindex;
    NothingAccounts(h, Unindex(h, t), s, p);
  }

  lemma ReportAccounts(h: Hub, q: PeerId, inventory: set<Segment>, u: Update, s: Socket, p: PeerId)
    requires s in h.subs && h.subs[s] == Subscription(p, Viewer)
    ensures Accounts(h, Reported(h, q, inventory, u), s, p, [], [])
    ensures Accounts(h, h, s, p, [], [])
  {
    ReportedNoBatches(h, q, inventory, u);
    ReportedOnly(h, q, inventory, u);
    Same(h, h);
    hide Reported, NoBatches;
    NothingAccounts(h, Reported(h, q, inventory, u), s, p);
    NothingAccounts(h, h, s, p);
  }

  /**
   Every event sends a subscribed viewer exactly the shares it serves, and each settles a flush that
   was owed or begun.
   */
  lemma NextAccounts(c: Config, h: Hub, e: Event, s: Socket, p: PeerId)
    requires PeersKnown(c, h) && Enabled(c, h, e) && Spares(e, s) && s in h.subs && h.subs[s] == Subscription(p, Viewer)
    ensures Accounts(h, Next(c, h, e), s, p, Begins(c, h, e), Serves(c, h, e, p))
  {
    hide PeersKnown, Accounts, JoinPeer, Sweep, Subscribe, Unindex, FlushInventory, Turn;
    match e {
      case EJoin(q, f) => JoinAccounts(c, h, q, f, s, p);
      case ESweep(ds) => SweepAccounts(c, h, ds, s, p);
      case ESubscribe(t, q, mode, f) => SubscribeAccounts(c, h, t, q, mode, f, s, p);
      case EClose(t) => CloseAccounts(h, t, s, p);
      case EReport(t, u) =>
        var q := h.subs[t].peerId;
        ReportAccounts(h, q, if q in h.store then Apply(u, h.store[q]) else {}, u, s, p);
      case ERestReport(q, segments, replace) =>
        ReportAccounts(h, q, if replace then segments else h.store[q] + segments, Replace(segments), s, p);
      case ETimer(o) => FiredAccounts(c, h, h.(pending := Some(h.pending.value.(armed := false))), o, s, p);
      case EStrayTimer(o) => FiredAccounts(c, h, h.(strayTimers := h.strayTimers - 1), o, s, p);
      case ETurn(shares, o) =>
        CanTurn(c, h, shares, o);
        TurnAccounts(c, h, shares, o, s, p);
    }
  }

  // ---- Every run ----

  ghost function BegunIn(c: Config, h: Hub, run: seq<Event>): seq<map<PeerId, Update>>
    requires IsRun(c, h, run)
    decreases |run|
  {
    if run == [] then [] else Begins(c, h, run[0]) + BegunIn(c, Next(c, h, run[0]), run[1..])
  }

  /** The shares sent to `p`, each with the view of its turn. */
  ghost function ServedIn(c: Config, h: Hub, run: seq<Event>, p: PeerId): seq<Share>
    requires IsRun(c, h, run)
    decreases |run|
  {
    if run == [] then [] else Serves(c, h, run[0], p) + ServedIn(c, Next(c, h, run[0]), run[1..], p)
  }

  /**
   While a socket stays subscribed as viewer `p`, the flush it was owed and those begun since reach it
   in order and exactly once, each restricted to the view of its turn; a flush still running is owed.
   It is sent no other batches.
   */
  lemma {:induction false} EveryFlushArrivesOnce(c: Config, h: Hub, run: seq<Event>, s: Socket, p: PeerId)
    requires PeersKnown(c, h) && IsRun(c, h, run) && (forall e :: e in run ==> Spares(e, s))
    requires s in h.subs && h.subs[s] == Subscription(p, Viewer)
    ensures var h1, served := Outcome(c, h, run), ServedIn(c, h, run, p);
      && s in h1.subs && h1.subs[s] == Subscription(p, Viewer)
      && Owed(h, p) + BegunIn(c, h, run) == Flushes(served) + Owed(h1, p)
      && Batches(Log(h1, s)) == Batches(Log(h, s)) + Delivered(served)
      && AreRestricted(served)
    decreases |run|
  {
    if run == [] {
      Same(h, h);
      NothingAccounts(h, h, s, p);
    } else {
      var e := run[0];
      var h1 := Next(c, h, e);
      hide PeersKnown, Enabled, Next, Begins, Serves, Batches, Log, Owed;
      NextAccounts(c, h, e, s, p);
      NextKeepsPeers(c, h, e);
      EveryFlushArrivesOnce(c, h1, run[1..], s, p);
      AccountsAdd(h, h1, Outcome(c, h, run), s, p, Begins(c, h, e), Serves(c, h, e, p),
                  BegunIn(c, h1, run[1..]), ServedIn(c, h1, run[1..], p));
    }
  }

  /** From rest to rest a viewer gets exactly the flushes begun in between, in order. */
  lemma FlushesArriveAtRest(c: Config, h: Hub, run: seq<Event>, s: Socket, p: PeerId)
    requires PeersKnown(c, h) && IsRun(c, h, run) && (forall e :: e in run ==> Spares(e, s))
    requires s in h.subs && h.subs[s] == Subscription(p, Viewer)
    requires h.flush.None? && Outcome(c, h, run).flush.None?
    ensures Flushes(ServedIn(c, h, run, p)) == BegunIn(c, h, run)
    ensures Batches(Log(Outcome(c, h, run), s)) == Batches(Log(h, s)) + Delivered(ServedIn(c, h, run, p))
  {
    assert Owed(h, p) == [] && Owed(Outcome(c, h, run), p) == [];
    hide Batches, Log, Owed, PeersKnown, IsRun, Outcome, BegunIn, ServedIn, Flushes, Delivered, AreRestricted;
    EveryFlushArrivesOnce(c, h, run, s, p);
    assert [] + BegunIn(c, h, run) == BegunIn(c, h, run);
  }
}
