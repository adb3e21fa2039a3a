/**
 Where the clients' copies end. From a state that does not converge some run that brings no report
 and no newcomer comes to rest with a wrong copy; from one that does, none. So an event is safe
 exactly if nothing that can follow it in silence ends wrong.
 */
module HubDivergence {
  import opened Wrappers
  import opened Inventory
  import opened NeighborViews
  import opened PeerMirror
  import opened Sequences
  import opened HubModel
  import opened HubInvariants

  /** Events that bring neither a report nor a newcomer. */
  predicate Silent(e: Event) { !e.EJoin? && !e.EReport? && !e.ERestReport? }

  ghost predicate IsSilentRun(c: Config, h: Hub, run: seq<Event>) {
    IsRun(c, h, run) && forall e :: e in run ==> Silent(e)
  }

  /** Every copy that a client follows is the stored inventory. */
  ghost predicate IsRight(h: Hub) {
    forall s, p :: s in h.subs && p in h.store && Follows(h, s, p) ==> HasStored(h, s, p)
  }

  /** However the hub comes to rest from here without any news, its clients' copies are right. */
  ghost predicate RestsRight(c: Config, h: Hub) {
    forall run :: IsSilentRun(c, h, run) && Quiet(Outcome(c, h, run)) ==> IsRight(Outcome(c, h, run))
  }

  /** This run without news comes to rest with a wrong copy. */
  ghost predicate RestsWrong(c: Config, h: Hub, run: seq<Event>) {
    IsSilentRun(c, h, run) && Quiet(Outcome(c, h, run)) && !IsRight(Outcome(c, h, run))
  }

  // ---- Runs ----

  lemma RunsOn(c: Config, h: Hub, e: Event, run: seq<Event>)
    requires Enabled(c, h, e) && Silent(e) && IsSilentRun(c, Next(c, h, e), run)
    ensures IsSilentRun(c, h, [e] + run) && Outcome(c, h, [e] + run) == Outcome(c, Next(c, h, e), run)
  {
    assert ([e] + run)[1..] == run;
    hide Enabled, Next;
  }

  lemma {:induction false} RunsAppend(c: Config, h: Hub, run: seq<Event>, more: seq<Event>)
    requires IsSilentRun(c, h, run) && IsSilentRun(c, Outcome(c, h, run), more)
    ensures IsSilentRun(c, h, run + more) && Outcome(c, h, run + more) == Outcome(c, Outcome(c, h, run), more)
    decreases |run|
  {
    hide Enabled, Next;
    if run == [] {
      assert run + more == more;
    } else {
      assert run + more == [run[0]] + (run[1..] + more);
      RunsAppend(c, Next(c, h, run[0]), run[1..], more);
      RunsOn(c, h, run[0], run[1..] + more);
    }
  }

  lemma WrongLater(c: Config, h: Hub, e: Event, run: seq<Event>)
    requires Enabled(c, h, e) && Silent(e) && RestsWrong(c, Next(c, h, e), run)
    ensures RestsWrong(c, h, [e] + run)
  {
    hide Enabled, Next, IsRight;
    RunsOn(c, h, e, run);
  }

  lemma NothingHappened(c: Config, h: Hub)
    ensures IsSilentRun(c, h, []) && Outcome(c, h, []) == h
  {
  }

  lemma SilentIsSafe(h: Hub, e: Event)
    requires Silent(e)
    ensures Safe(h, e)
  {
  }

  // ---- A hub left alone comes to rest ----

  lemma CanAlwaysFlush(h: Hub) returns (o: Orders)
    ensures CanFlush(h, o)
  {
    o := OrdersExist(h, if h.pending.Some? then h.pending.value.updates else map[]);
  }

  lemma CanAlwaysSlice(h: Hub) returns (shares: map<PeerId, seq<PeerUpdate>>)
    requires FlushOk(h)
    ensures CanSlice(h, shares)
  {
    var ids := h.flush.value.viewerIds[h.flush.value.next..];
    assert AreShares(h, h.flush.value.updates, ids[..0], map[]);
    assert Distinct(ids);
    hide IsListing, Restrict, Distinct;
    shares := SharesExist(h, h.flush.value.updates, ids, map[], 0);
  }

  /** Viewers and turns that the running flush has before it. */
  function ToServe(h: Hub): int {
    if h.flush.Some? then 1 + |h.flush.value.viewerIds| - h.flush.value.next else 0
  }

  /** Less is left to do: the batch was started, or the flush has moved on. */
  predicate MovesOn(h: Hub, h1: Hub) {
    (h.pending.Some? && h1.pending.None?) || (h1.pending.Some? == h.pending.Some? && ToServe(h1) < ToServe(h))
  }

  /** While no flush runs, the timer of a pending batch is armed and starts one. */
  lemma TimerIsArmed(c: Config, h: Hub, o: Orders)
    requires PeersKnown(c, h) && h.flush.None? && h.pending.Some? && CanFlush(h, o)
    ensures Enabled(c, h, ETimer(o)) && !h.flushRequested
    ensures var h1 := h.(pending := Some(h.pending.value.(armed := false)));
      CanFlush(h1, o) && Next(c, h, ETimer(o)) == StartFlush(c, h1, o) == FlushInventory(c, h1, o)
  {
    var h1 := h.(pending := Some(h.pending.value.(armed := false)));
    assert ViewerIds(h1) == ViewerIds(h);
    assert h.pending.value.armed && !h.flushRequested;
    hide StartFlush, KnowsPeers, ViewerIds, Structured;
  }

  lemma TimerStartsBatch(c: Config, h: Hub, s: Socket) returns (e: Event)
    requires PeersKnown(c, h) && h.flush.None? && h.pending.Some? && s in h.subs
    ensures Enabled(c, h, e) && Silent(e) && PeersKnown(c, Next(c, h, e))
    ensures Undisturbed(h, Next(c, h, e), s) && MovesOn(h, Next(c, h, e))
  {
    var o := CanAlwaysFlush(h);
    e := ETimer(o);
    var h1 := h.(pending := Some(h.pending.value.(armed := false)));
    assert Structured(c, h, {});
    TimerIsArmed(c, h, o);
    hide CanFlush, FlushStep, Structured, StartFlush, FlushInventory, KnowsPeers, PeersKnown, Enabled, Next;
    hide Undisturbed;
    TimerStep(c, h, h1);
    StepIsStructured(c, h, h1);
    StartFlushStep(c, h1, o);
    TimerKeeps(c, h, h1, o);
    OneOfStep(c, h, StartFlush(c, h1, o), s);
  }

  lemma OneOfStep(c: Config, h: Hub, h1: Hub, s: Socket)
    requires FlushStep(c, h, h1) && s in h.subs
    ensures Undisturbed(h, h1, s)
  {
  }

  lemma TurnServesOn(c: Config, h: Hub, s: Socket) returns (e: Event)
    requires PeersKnown(c, h) && h.flush.Some? && s in h.subs
    ensures Enabled(c, h, e) && Silent(e) && PeersKnown(c, Next(c, h, e))
    ensures Undisturbed(h, Next(c, h, e), s) && MovesOn(h, Next(c, h, e))
  {
    assert FlushOk(h) && ValidConfig(c);
    var shares := CanAlwaysSlice(h);
    var o := CanAlwaysFlush(h);
    e := ETurn(shares, o);
    assert Enabled(c, h, e) && Next(c, h, e) == Turn(c, h, shares, o);
    hide CanSlice, CanFlush, FlushStep, Structured, KnowsPeers, FlushOk, Enabled, Next, Turn;
    TurnKeeps(c, h, shares, o);
    TurnStep(c, h, shares, o);
    OneOfStep(c, h, Turn(c, h, shares, o), s);
    TurnMovesOn(c, h, shares, o);
  }

  lemma TurnMovesOn(c: Config, h: Hub, shares: map<PeerId, seq<PeerUpdate>>, o: Orders)
    requires ValidConfig(c) && FlushOk(h) && CanSlice(h, shares) && CanFlush(h, o)
    ensures MovesOn(h, Turn(c, h, shares, o))
  {
    var h1 := Slice(c, h, shares);
    SliceFrame(c, h, shares);
    if h1.flush.Some? { FlushAdvances(c, h, shares); }
    hide Slice, CanSlice, CanFlush;
    if h1.flush.None? && h1.flushRequested && h1.pending.Some? {
      assert StartFlush(c, h1.(flushRequested := false), o).pending.None? by {
        FlushTakesBatch(c, h1.(flushRequested := false), o);
      }
    }
  }

  lemma FlushTakesBatch(c: Config, h: Hub, o: Orders)
    requires h.flush.None?
    ensures StartFlush(c, h, o).pending.None?
  {
    if h.pending.Some? && h.subs != map[] && h.pending.value.updates != map[] {
      var b := h.pending.value;
      var h1 := h.(pending := None, strayTimers := if b.armed then h.strayTimers + 1 else h.strayTimers);
      var h2 := Send(h1, Sockets(h1, Batched), BatchMessages(o.updates));
      if ViewerIds(h2) != {} {
        var f := Flush(h2.generation, b.updates, o.viewerIds, 0);
        SlicePending(c, h2.(flush := Some(f)), o.shares);
      }
    }
  }

  lemma SlicePending(c: Config, h: Hub, shares: map<PeerId, seq<PeerUpdate>>)
    requires h.flush.Some? && h.flush.value.next <= |h.flush.value.viewerIds|
    ensures Slice(c, h, shares).pending == h.pending
  {
    ServedFrame(h, SliceIds(c, h), shares);
  }

  /** Timers and turns alone bring the hub to rest, with every copy where it was going. */
  lemma {:induction false} ComesToRest(c: Config, h: Hub, s: Socket) returns (run: seq<Event>)
    requires PeersKnown(c, h) && s in h.subs
    ensures IsSilentRun(c, h, run) && Quiet(Outcome(c, h, run)) && Undisturbed(h, Outcome(c, h, run), s)
    decreases h.pending.Some?, ToServe(h)
  {
    hide Undisturbed, PeersKnown, Enabled, Next;
    if Quiet(h) {
      run := [];
      NothingHappened(c, h);
      assert Undisturbed(h, h, s) by { Unchanged(h, s); }
    } else {
      var e: Event;
      if h.flush.Some? { e := TurnServesOn(c, h, s); } else { e := TimerStartsBatch(c, h, s); }
      var h1 := Next(c, h, e);
      assert s in h1.subs && 0 <= ToServe(h) by { StillSubscribed(c, h, h1, s); }
      var rest := ComesToRest(c, h1, s);
      RunsOn(c, h, e, rest);
      UndisturbedTwice(h, h1, Outcome(c, h1, rest), s);
      run := [e] + rest;
    }
  }

  lemma Unchanged(h: Hub, s: Socket)
    requires s in h.subs
    ensures Undisturbed(h, h, s)
  {
  }

  lemma StillSubscribed(c: Config, h: Hub, h1: Hub, s: Socket)
    requires PeersKnown(c, h) && s in h.subs && Undisturbed(h, h1, s)
    ensures s in h1.subs && 0 <= ToServe(h)
  {
  }

  /** A copy on its way to something else than the stored inventory gets there. */
  lemma WrongDestinyRests(c: Config, h: Hub, s: Socket, p: PeerId) returns (run: seq<Event>)
    requires PeersKnown(c, h) && s in h.subs && p in h.store && Follows(h, s, p) && p in MirrorOf(h, s)
    requires Destiny(h, s, p) != h.store[p]
    ensures RestsWrong(c, h, run)
  {
    run := ComesToRest(c, h, s);
    RestedCopy(h, Outcome(c, h, run), s, p);
  }

  lemma RestedCopy(h: Hub, h1: Hub, s: Socket, p: PeerId)
    requires s in h.subs && Undisturbed(h, h1, s) && Quiet(h1)
    requires p in h.store && Follows(h, s, p) && p in MirrorOf(h, s) && Destiny(h, s, p) != h.store[p]
    ensures !IsRight(h1)
  {
    assert p in MirrorOf(h1, s) && Destiny(h1, s, p) == MirrorOf(h1, s)[p];
    assert s in h1.subs && p in h1.store && Follows(h1, s, p) && !HasStored(h1, s, p);
  }

  // ---- A late subscriber ----

  lemma {:induction false} Bound(sockets: set<Socket>) returns (bound: Socket)
    ensures forall s :: s in sockets ==> s < bound
    decreases |sockets|
  {
    if sockets == {} { return 0; }
    var s :| s in sockets;
    var rest := Bound(sockets - {s});
    assert forall t :: t in sockets <==> t == s || t in sockets - {s};
    bound := if s < rest then rest else s + 1;
  }

  lemma NextBatched(c: Config, h: Hub, p: PeerId, t: Socket)
    requires p in h.store
    ensures Enabled(c, h, ESubscribe(t, p, Batched, NO_FILL))
    ensures Next(c, h, ESubscribe(t, p, Batched, NO_FILL)) == Resubscribed(h, t, Subscription(p, Batched), h.store)
  {
  }

  /** A new batched client has a copy of the store, and is on its way to what the batch makes of it. */
  lemma NewBatched(h: Hub, p: PeerId, t: Socket, h1: Hub)
    requires h.live <= h.subs.Keys && p in h.store && t !in h.subs
    requires h1 == Resubscribed(h, t, Subscription(p, Batched), h.store)
    ensures h1.store == h.store && t in h1.subs && Follows(h1, t, p) && p in MirrorOf(h1, t)
    ensures Destiny(h1, t, p) == AfterBatch(h, p, h.store[p])
  {
    hide MirrorOf, Resubscribed, Log;
    ResubscribedFrame(h, t, Subscription(p, Batched), h.store);
  }

  /** If the pending batch would undo something in a copy taken now, a batched subscriber takes that copy. */
  lemma BatchUndoesSnapshot(c: Config, h: Hub, p: PeerId) returns (run: seq<Event>)
    requires PeersKnown(c, h) && p in h.store && AfterBatch(h, p, h.store[p]) != h.store[p]
    ensures RestsWrong(c, h, run)
  {
    LiveAreSubscribed(c, h);
    hide PeersKnown, Structured, Enabled, Next, Destiny, MirrorOf, Follows, RestsWrong, Resubscribed, AfterBatch;
    var t := Bound(h.subs.Keys);
    var e := ESubscribe(t, p, Batched, NO_FILL);
    NextBatched(c, h, p, t);
    NewBatched(h, p, t, Next(c, h, e));
    NextKeepsPeers(c, h, e);
    var rest := WrongDestinyRests(c, Next(c, h, e), t, p);
    WrongLater(c, h, e, rest);
    run := [e] + rest;
  }

  // ---- A late neighbor ----

  /** The running flush still owes `v` a share that would undo something in a copy of `q` taken now. */
  ghost predicate OwesHarm(h: Hub, v: PeerId, q: PeerId) {
    v in h.store && q in h.store && v != q && Unserved(h, v) && FlushUndoes(h, q)
  }

  lemma CanLeave(c: Config, h: Hub, x: PeerId) returns (d: Departure)
    requires PeersKnown(c, h) && x in h.store
    ensures d.peer == x && |d.losers| == |d.fills| && Enabled(c, h, ESweep([d]))
  {
    assert WellFormed(c.viewSize, h.views) && 0 < c.viewSize;
    var losers := OrderExists(Watchers(h.views, x));
    LeaveKeepsWellFormed(c.viewSize, h.views, x);
    var fills := FillsExist(c.viewSize, Left(h.views, x), losers);
    d := Departure(x, losers, fills);
    assert AreLosers(h.views, x, losers);
    hide WellFormed, AreLosers, AreFills, PeersKnown;
    assert [d][1..] == [] && Peers([]) == {};
    assert Peers([d]) == {x};
    assert AreDepartures(c, RefillAll(Left(h.views, x), losers, fills), [d][1..]);
    assert AreDepartures(c, h.views, [d]);
  }

  /** What one departure leaves alone. */
  lemma LeftFrame(h: Hub, d: Departure)
    requires |d.losers| == |d.fills|
    ensures var h1 := Sweep(h, [d]);
      && h1.store == h.store - {d.peer} && h1.subs == h.subs && h1.flush == h.flush && h1.generation == h.generation
      && h1.flushRequested == h.flushRequested && h1.pending.Some? == h.pending.Some?
      && (h.pending.Some? ==> h1.pending.value.updates == h.pending.value.updates - {d.peer})
  {
    assert Peers([d]) == {d.peer};
    var h0 := DropPeers(h, {d.peer});
    assert [d][1..] == [];
    assert PeersGone(h0, [d]) == PeersGone(PeerGone(h0, d), []) == PeerGone(h0, d);
    RefillLosersFrame(Unlisted(h0, d.peer), d.peer, d.losers, d.fills);
  }

  lemma OneLeaves(c: Config, h: Hub, x: PeerId, v: PeerId, q: PeerId) returns (e: Event)
    requires PeersKnown(c, h) && OwesHarm(h, v, q) && x in h.store && x != v && x != q
    ensures Enabled(c, h, e) && Silent(e) && PeersKnown(c, Next(c, h, e))
    ensures OwesHarm(Next(c, h, e), v, q) && Next(c, h, e).store == h.store - {x}
  {
    var d := CanLeave(c, h, x);
    e := ESweep([d]);
    NextKeepsPeers(c, h, e);
    assert Next(c, h, e) == Sweep(h, [d]);
    hide PeersKnown, Enabled, Next, Sweep;
    LeftFrame(h, d);
  }

  lemma {:induction false} OthersLeave(c: Config, h: Hub, v: PeerId, q: PeerId) returns (run: seq<Event>)
    requires PeersKnown(c, h) && OwesHarm(h, v, q)
    ensures IsSilentRun(c, h, run) && PeersKnown(c, Outcome(c, h, run)) && OwesHarm(Outcome(c, h, run), v, q)
    ensures Outcome(c, h, run).store.Keys == {v, q}
    decreases |h.store|
  {
    hide PeersKnown, Enabled, Next;
    if x :| x in h.store && x != v && x != q {
      var e := OneLeaves(c, h, x, v, q);
      assert |h.store - {x}| < |h.store| by { assert (h.store - {x}).Keys == h.store.Keys - {x}; }
      var rest := OthersLeave(c, Next(c, h, e), v, q);
      RunsOn(c, h, e, rest);
      run := [e] + rest;
    } else {
      run := [];
      NothingHappened(c, h);
    }
  }

  /** Of two peers, one that is filled sees the other. */
  lemma OnlyNeighbor(size: nat, views: Views, v: PeerId, q: PeerId, f: NeighborViewFill)
    requires 0 < size && WellFormed(size, views) && views.Keys == {v, q} && v != q && IsFill(size, views, v, f)
    ensures AfterFill(views, v, f)[v] == {q}
  {
    FilledView(size, views, v, f, v);
    assert |views| == |views.Keys| == 2;
    var after := AfterFill(views, v, f)[v];
    hide IsFill, WellFormed;
    assert after <= {q} && |after| == 1;
    var x :| x in after;
  }

  /** A new viewer is sent the stored inventory of a neighbor, and whatever the flush still owes it. */
  lemma NewViewer(h: Hub, v: PeerId, q: PeerId, t: Socket, h1: Hub)
    requires OwesHarm(h, v, q) && t !in h.subs && h.live <= h.subs.Keys && q in View(h, v)
    requires h1 == Resubscribed(h, t, Subscription(v, Viewer), Snapshot(h, Listed(h, Subscription(v, Viewer))))
    ensures t in h1.subs && h1.subs[t] == Subscription(v, Viewer) && q in h1.store && Follows(h1, t, q)
    ensures q in MirrorOf(h1, t) && Destiny(h1, t, q) != h1.store[q]
  {
    var sub := Subscription(v, Viewer);
    ResubscribedFrame(h, t, sub, Snapshot(h, Listed(h, sub)));
    assert q in Snapshot(h, Listed(h, sub)) && Snapshot(h, Listed(h, sub))[q] == h.store[q];
    hide Resubscribed, Snapshot, Listed, MirrorOf, Log;
    assert h1.generation == h.generation;
    assert Unserved(h1, v);
  }

  /** With only two peers left, filling `v` makes it see `q`, and the flush owes what it owed. */
  lemma FilledForTwo(c: Config, h: Hub, v: PeerId, q: PeerId) returns (f: NeighborViewFill)
    requires PeersKnown(c, h) && OwesHarm(h, v, q) && h.store.Keys == {v, q}
    ensures Enabled(c, h, ESubscribe(0, v, Viewer, f))
    ensures var h1 := FillAndAnnounce(Registered(h, v), v, f);
      OwesHarm(h1, v, q) && h1.subs == h.subs && h1.live == h.live && q in View(h1, v)
  {
    var h0 := Registered(h, v);
    RegisteredFrame(c, h, v);
    assert 0 < c.viewSize && WellFormed(c.viewSize, h0.views) && h0.views.Keys == {v, q};
    f := FillExists(c.viewSize, h0.views, v);
    assert h0.views == Added(Seeded(h), v);
    assert Enabled(c, h, ESubscribe(0, v, Viewer, f));
    assert h0 == h.(views := h0.views);
    hide PeersKnown, Registered, WellFormed, IsFill, FillAndAnnounce, Seeded, Added, Enabled;
    OnlyNeighbor(c.viewSize, h0.views, v, q, f);
    FillAndAnnounceFrame(h0, v, f);
    hide AfterFill;
    OwedSame(h, FillAndAnnounce(h0, v, f), v, q);
  }

  lemma OwedSame(h: Hub, h1: Hub, v: PeerId, q: PeerId)
    requires OwesHarm(h, v, q) && h1 == h.(views := h1.views, log := h1.log)
    ensures OwesHarm(h1, v, q)
  {
  }

  lemma NextViewer(c: Config, h: Hub, v: PeerId, t: Socket, f: NeighborViewFill)
    requires Enabled(c, h, ESubscribe(0, v, Viewer, f))
    ensures v in h.store && Enabled(c, h, ESubscribe(t, v, Viewer, f))
    ensures Next(c, h, ESubscribe(t, v, Viewer, f)) == Subscribe(h, t, v, Viewer, f)
  {
  }

  /** So a viewer that subscribes as `v` takes a copy of `q`. */
  lemma LateNeighbor(c: Config, h: Hub, v: PeerId, q: PeerId, t: Socket) returns (e: Event)
    requires PeersKnown(c, h) && OwesHarm(h, v, q) && h.store.Keys == {v, q} && t !in h.subs
    ensures Enabled(c, h, e) && Silent(e)
    ensures var h1 := Next(c, h, e);
      && t in h1.subs && h1.subs[t] == Subscription(v, Viewer) && q in h1.store && Follows(h1, t, q)
      && q in MirrorOf(h1, t) && Destiny(h1, t, q) != h1.store[q]
  {
    LiveAreSubscribed(c, h);
    hide FillAndAnnounce, Registered, PeersKnown, Structured, Subscribe;
    hide Resubscribed, OwesHarm, Follows, Destiny, MirrorOf;
    hide Enabled, Next;
    var f := FilledForTwo(c, h, v, q);
    e := ESubscribe(t, v, Viewer, f);
    NextViewer(c, h, v, t, f);
    SubscribeIsResubscribed(h, t, v, f);
    NewViewer(FillAndAnnounce(Registered(h, v), v, f), v, q, t, Next(c, h, e));
  }

  /** If the running flush would undo something in a viewer's new copy, somebody can take that copy as that viewer. */
  lemma FlushUndoesSnapshot(c: Config, h: Hub, v: PeerId, q: PeerId) returns (run: seq<Event>)
    requires PeersKnown(c, h) && OwesHarm(h, v, q)
    ensures RestsWrong(c, h, run)
  {
    hide PeersKnown, Enabled, Next, OwesHarm, Follows, Destiny, MirrorOf;
    var away := OthersLeave(c, h, v, q);
    var h1 := Outcome(c, h, away);
    var t := Bound(h1.subs.Keys);
    var e := LateNeighbor(c, h1, v, q, t);
    NextKeepsPeers(c, h1, e);
    var rest := WrongDestinyRests(c, Next(c, h1, e), t, q);
    RunsOn(c, h1, e, rest);
    RunsAppend(c, h, away, [e] + rest);
    run := away + ([e] + rest);
  }

  // ---- Exactly ----

  /** A state that does not converge can be left to itself and a few subscribers, and ends wrong. */
  lemma NotConvergingRestsWrong(c: Config, h: Hub) returns (run: seq<Event>)
    requires PeersKnown(c, h) && !Converging(h)
    ensures RestsWrong(c, h, run)
  {
    hide PeersKnown;
    if p :| p in h.store && AfterBatch(h, p, h.store[p]) != h.store[p] {
      run := BatchUndoesSnapshot(c, h, p);
    } else if !Absorbed(h) {
      var q :| q in h.store && !Absorbs(h, q);
      var v :| v in h.store && v != q && Unserved(h, v);
      run := FlushUndoesSnapshot(c, h, v, q);
    } else {
      var s :| s in h.subs && !KnowsInventories(h, s);
      var p :| p in h.store && p in MirrorOf(h, s) && !Converges(h, s, p);
      run := WrongDestinyRests(c, h, s, p);
    }
  }

  lemma {:induction false} SilentRunsAreSafe(c: Config, h: Hub, run: seq<Event>)
    requires IsSilentRun(c, h, run)
    ensures AllSafe(c, h, run)
    decreases |run|
  {
    hide Enabled, Next;
    if run != [] {
      SilentIsSafe(h, run[0]);
      SilentRunsAreSafe(c, Next(c, h, run[0]), run[1..]);
    }
  }

  lemma ConvergingRestsRight(c: Config, h: Hub, run: seq<Event>)
    requires PeersKnown(c, h) && Converging(h) && IsSilentRun(c, h, run) && Quiet(Outcome(c, h, run))
    ensures IsRight(Outcome(c, h, run))
  {
    var h1 := Outcome(c, h, run);
    hide PeersKnown, Converging, HasStored;
    SilentRunsAreSafe(c, h, run);
    RunKeepsPeers(c, h, run);
    SafeRunConverges(c, h, run);
    forall s, p | s in h1.subs && p in h1.store && Follows(h1, s, p) ensures HasStored(h1, s, p) {
      QuietCopiesAreStored(c, h1, s, p);
    }
  }

  /** Copies converge exactly if, without further news, the hub cannot come to rest with a wrong one. */
  lemma ConvergingIffRestsRight(c: Config, h: Hub)
    requires PeersKnown(c, h)
    ensures Converging(h) <==> RestsRight(c, h)
  {
    hide PeersKnown, Converging, IsRight, Quiet;
    if Converging(h) {
      forall run | IsSilentRun(c, h, run) && Quiet(Outcome(c, h, run)) ensures IsRight(Outcome(c, h, run)) {
        ConvergingRestsRight(c, h, run);
      }
    } else {
      var run := NotConvergingRestsWrong(c, h);
    }
  }

  /**
   An event is safe exactly if the hub cannot come to rest with a wrong copy after it, unless there
   is further news.
   */
  lemma SafeIffRestsRight(c: Config, h: Hub, e: Event)
    requires PeersKnown(c, h) && Converging(h) && Enabled(c, h, e)
    ensures Safe(h, e) <==> RestsRight(c, Next(c, h, e))
  {
    hide PeersKnown, Converging, Safe, RestsRight;
    NextConvergesIffSafe(c, h, e);
    NextKeepsPeers(c, h, e);
    ConvergingIffRestsRight(c, Next(c, h, e));
  }

  /** After an unsafe event a run without further news comes to rest with a wrong copy. */
  lemma UnsafeEventDiverges(c: Config, h: Hub, e: Event) returns (run: seq<Event>)
    requires PeersKnown(c, h) && Converging(h) && Enabled(c, h, e) && !Safe(h, e)
    ensures RestsWrong(c, Next(c, h, e), run)
  {
    hide PeersKnown, Converging, Safe, RestsWrong;
    NextConvergesIffSafe(c, h, e);
    NextKeepsPeers(c, h, e);
    run := NotConvergingRestsWrong(c, Next(c, h, e));
  }

  // ---- Unsafe events are reached ----

  /** A reachable state with these subscribers, inventories and updates on their way. */
  ghost predicate Scene(c: Config, h: Hub, subs: map<Socket, Subscription>, store: map<PeerId, set<Segment>>,
                        pending: Option<Batch>, flush: Option<Flush>) {
    && PeersKnown(c, h) && Converging(h) && h.subs == subs && h.store == store && h.pending == pending
    && h.flush == flush && !h.flushRequested && (flush.Some? ==> IsCurrent(h))
  }

  /** After `run`, which is safe, the event `e` can happen and is not. */
  ghost predicate ReachesHarm(c: Config, store: map<PeerId, set<Segment>>, run: seq<Event>, e: Event) {
    && IsRun(c, Start(store), run) && AllSafe(c, Start(store), run)
    && (var h := Outcome(c, Start(store), run);
        Enabled(c, h, e) && !Safe(h, e))
  }

  /** So the hub can come to rest with a wrong copy. */
  lemma HarmIsDone(c: Config, store: map<PeerId, set<Segment>>, run: seq<Event>, e: Event) returns (rest: seq<Event>)
    requires ValidConfig(c) && ReachesHarm(c, store, run, e)
    ensures RestsWrong(c, Next(c, Outcome(c, Start(store), run), e), rest)
  {
    hide PeersKnown, Converging, Safe, RestsWrong, Enabled, Next;
    StartKnows(c, store);
    RunKeepsPeers(c, Start(store), run);
    SafeRunConverges(c, Start(store), run);
    rest := UnsafeEventDiverges(c, Outcome(c, Start(store), run), e);
  }

  lemma NextKeeps(c: Config, h: Hub, e: Event)
    requires PeersKnown(c, h) && Converging(h) && Enabled(c, h, e) && Safe(h, e)
    ensures PeersKnown(c, Next(c, h, e)) && Converging(Next(c, h, e))
  {
    NextKeepsPeers(c, h, e);
    NextConvergesIffSafe(c, h, e);
  }

  lemma SceneStart(c: Config, store: map<PeerId, set<Segment>>)
    requires ValidConfig(c)
    ensures Scene(c, Start(store), map[], store, None, None)
  {
    StartKnows(c, store);
  }

  lemma SceneSubscribe(c: Config, h: Hub, subs: map<Socket, Subscription>, store: map<PeerId, set<Segment>>,
                       t: Socket, p: PeerId, mode: Mode) returns (e: Event)
    requires Scene(c, h, subs, store, None, None) && t !in subs && p in store
    ensures Enabled(c, h, e) && Safe(h, e) && e.ESubscribe? && e.socket == t && e.peer == p && e.mode == mode
    ensures Scene(c, Next(c, h, e), subs[t := Subscription(p, mode)], store, None, None)
  {
    LiveAreSubscribed(c, h);
    if mode != Viewer {
      e := ESubscribe(t, p, mode, NO_FILL);
      ResubscribedFrame(h, t, Subscription(p, mode), h.store);
    } else {
      var h0 := Registered(h, p);
      RegisteredFrame(c, h, p);
      var f := FillExists(c.viewSize, h0.views, p);
      e := ESubscribe(t, p, Viewer, f);
      var h1 := FillAndAnnounce(h0, p, f);
      FillAndAnnounceFrame(h0, p, f);
      SubscribeIsResubscribed(h, t, p, f);
      hide FillAndAnnounce, PeersKnown, Converging, IsFill, WellFormed;
      ResubscribedFrame(h1, t, Subscription(p, Viewer), Snapshot(h1, Listed(h1, Subscription(p, Viewer))));
    }
    hide PeersKnown, Converging, Subscribe;
    NextKeeps(c, h, e);
  }

  /** While somebody gets batches, the report of a first segment waits in a new batch. */
  lemma SceneReport(c: Config, h: Hub, subs: map<Socket, Subscription>, store: map<PeerId, set<Segment>>, t: Socket,
                    segment: Segment)
    requires Scene(c, h, subs, store, None, None) && t in subs && subs[t].peerId in store && store[subs[t].peerId] == {}
    requires exists b :: b in subs && subs[b].mode != Immediate
    ensures var p, e := subs[t].peerId, EReport(t, Delta({segment}, {}));
      && Enabled(c, h, e) && Safe(h, e)
      && Scene(c, Next(c, h, e), subs, store[p := {segment}], Some(Batch(map[p := Delta({segment}, {})], true)), None)
  {
    var p, u := subs[t].peerId, Delta({segment}, {});
    assert HasBatchSubscribers(h);
    ReportedOnly(h, p, Apply(u, store[p]), u);
    assert Normal(u) == u && Apply(u, {}) == {segment};
    hide PeersKnown, Converging;
    NextKeeps(c, h, EReport(t, u));
  }

  lemma SceneClose(c: Config, h: Hub, subs: map<Socket, Subscription>, store: map<PeerId, set<Segment>>,
                   pending: Option<Batch>, flush: Option<Flush>, t: Socket)
    requires Scene(c, h, subs, store, pending, flush) && subs - {t} != map[]
    ensures Enabled(c, h, EClose(t)) && Safe(h, EClose(t))
    ensures Scene(c, Next(c, h, EClose(t)), subs - {t}, store, pending, flush)
  {
    UnindexFrame(h, t);
    hide PeersKnown, Converging;
    NextKeeps(c, h, EClose(t));
  }

  lemma RunOf(c: Config, h: Hub, e: Event, run: seq<Event>)
    requires Enabled(c, h, e) && Safe(h, e) && IsRun(c, Next(c, h, e), run) && AllSafe(c, Next(c, h, e), run)
    ensures IsRun(c, h, [e] + run) && AllSafe(c, h, [e] + run)
    ensures Outcome(c, h, [e] + run) == Outcome(c, Next(c, h, e), run)
  {
    assert ([e] + run)[1..] == run;
    hide Enabled, Next, Safe;
  }

  /** `run` is safe and leads from one state to another. */
  ghost predicate Leads(c: Config, h: Hub, run: seq<Event>, h1: Hub) {
    IsRun(c, h, run) && AllSafe(c, h, run) && Outcome(c, h, run) == h1
  }

  lemma LeadsNowhere(c: Config, h: Hub)
    ensures Leads(c, h, [], h)
  {
  }

  lemma {:induction false} LeadsOn(c: Config, h: Hub, run: seq<Event>, h1: Hub, e: Event)
    requires Leads(c, h, run, h1) && Enabled(c, h1, e) && Safe(h1, e)
    ensures Leads(c, h, run + [e], Next(c, h1, e))
    decreases |run|
  {
    hide Enabled, Next, Safe;
    var h2 := Next(c, h1, e);
    assert IsRun(c, h2, []) && Outcome(c, h2, []) == h2;
    if run == [] {
      RunOf(c, h, e, []);
      assert run + [e] == [e] + [];
    } else {
      LeadsOn(c, Next(c, h, run[0]), run[1..], h1, e);
      RunOf(c, h, run[0], run[1..] + [e]);
      assert run + [e] == [run[0]] + (run[1..] + [e]);
    }
  }

  lemma HarmReached(c: Config, store: map<PeerId, set<Segment>>, run: seq<Event>, h: Hub, e: Event)
    requires Leads(c, Start(store), run, h) && Enabled(c, h, e) && !Safe(h, e)
    ensures ReachesHarm(c, store, run, e)
  {
  }

  /** An append over REST with somebody listening: a peer that holds "s" reports "t". */
  lemma LostAppendIsReachable(c: Config) returns (run: seq<Event>, e: Event)
    requires ValidConfig(c)
    ensures ReachesHarm(c, map["a" := {"s"}], run, e) && e == ERestReport("a", {"t"}, false)
  {
    var store: map<PeerId, set<Segment>> := map["a" := {"s"}];
    SceneStart(c, store);
    LeadsNowhere(c, Start(store));
    hide Enabled, Next, Scene, Leads;
    var e1 := SceneSubscribe(c, Start(store), map[], store, 0, "a", Immediate);
    var h := Next(c, Start(store), e1);
    LeadsOn(c, Start(store), [], Start(store), e1);
    e := ERestReport("a", {"t"}, false);
    AppendHarms(c, h, map[][0 := Subscription("a", Immediate)], store);
    HarmReached(c, store, [] + [e1], h, e);
    run := [] + [e1];
  }

  lemma AppendHarms(c: Config, h: Hub, subs: map<Socket, Subscription>, store: map<PeerId, set<Segment>>)
    requires Scene(c, h, subs, store, None, None) && 0 in subs && "a" in store && store["a"] == {"s"}
    ensures Enabled(c, h, ERestReport("a", {"t"}, false)) && !Safe(h, ERestReport("a", {"t"}, false))
  {
    assert "s" in h.store["a"] && "s" !in {"t"};
    assert !(h.store["a"] <= {"t"});
  }

  /** Nobody gets batches any more, and the report undoes the batch that is still pending. */
  lemma LostReportIsReachable(c: Config) returns (run: seq<Event>, e: Event)
    requires ValidConfig(c)
    ensures ReachesHarm(c, map["a" := {}, "b" := {}], run, e) && e == EReport(0, Delta({}, {"s"}))
  {
    var store: map<PeerId, set<Segment>> := map["a" := {}, "b" := {}];
    var h0 := Start(store);
    SceneStart(c, store);
    LeadsNowhere(c, h0);
    var subs1 := map[0 := Subscription("a", Immediate)];
    var subs2 := map[0 := Subscription("a", Immediate), 1 := Subscription("b", Batched)];
    assert map[][0 := Subscription("a", Immediate)] == subs1 && subs1[1 := Subscription("b", Batched)] == subs2;
    assert subs2 - {1} == subs1 && subs2[1].mode != Immediate;
    hide Enabled, Next, Scene, Leads, Start;
    var e1 := SceneSubscribe(c, h0, map[], store, 0, "a", Immediate);
    var h1 := Next(c, h0, e1);
    LeadsOn(c, h0, [], h0, e1);
    var e2 := SceneSubscribe(c, h1, subs1, store, 1, "b", Batched);
    var h2 := Next(c, h1, e2);
    LeadsOn(c, h0, [] + [e1], h1, e2);
    var e3 := EReport(0, Delta({"s"}, {}));
    SceneReport(c, h2, subs2, store, 0, "s");
    var h3 := Next(c, h2, e3);
    LeadsOn(c, h0, [] + [e1] + [e2], h2, e3);
    var batch := Some(Batch(map["a" := Delta({"s"}, {})], true));
    SceneClose(c, h3, subs2, store["a" := {"s"}], batch, None, 1);
    var h4 := Next(c, h3, EClose(1));
    LeadsOn(c, h0, [] + [e1] + [e2] + [e3], h3, EClose(1));
    UnqueuedHarms(c, h4, subs1, store["a" := {"s"}]);
    run, e := [] + [e1] + [e2] + [e3] + [EClose(1)], EReport(0, Delta({}, {"s"}));
    HarmReached(c, store, run, h4, e);
  }

  lemma UnqueuedHarms(c: Config, h: Hub, subs: map<Socket, Subscription>, store: map<PeerId, set<Segment>>)
    requires Scene(c, h, subs, store, Some(Batch(map["a" := Delta({"s"}, {})], true)), None)
    requires subs == map[0 := Subscription("a", Immediate)] && "a" in store
    ensures Enabled(c, h, EReport(0, Delta({}, {"s"}))) && !Safe(h, EReport(0, Delta({}, {"s"})))
  {
    hide PeersKnown, Converging, Undone;
    assert !HasBatchSubscribers(h);
    assert "s" in {"s"} * ({"s"} - {});
    assert PendingContradicts(h, "a", Delta({}, {"s"}));
    UndoneByBatch(h, "a", Delta({}, {"s"}));
  }

  lemma UndoneByBatch(h: Hub, p: PeerId, u: Update)
    ensures PendingContradicts(h, p, u) ==> Undone(h, p, u)
    ensures OwedToOthers(h, p) && NetContradicts(h, p, u) ==> Undone(h, p, u)
  {
  }

  // ---- ... and while a flush is running ----

  const TRIO: map<Socket, Subscription> :=
    map[0 := Subscription("a", Viewer), 1 := Subscription("b", Viewer), 2 := Subscription("c", Immediate)]

  /** The flush of the report of "c", after "a" was served and before "b" is. */
  function HalfServed(generation: nat): Option<Flush> {
    Some(Flush(generation, map["c" := Delta({"s"}, {})], ["a", "b"], 1))
  }

  lemma TrioOrders(h: Hub) returns (o: Orders)
    requires h.subs == TRIO
    ensures AreOrders(h, map["c" := Delta({"s"}, {})], o) && o.viewerIds == ["a", "b"]
  {
    var updates: map<PeerId, Update> := map["c" := Delta({"s"}, {})];
    var ids := ["a", "b"];
    assert ViewerIds(h) == {"a", "b"} by { assert h.subs[0].mode == Viewer && h.subs[1].mode == Viewer; }
    assert AreShares(h, updates, ids[..0], map[]);
    assert Elems(ids) == {"a", "b"};
    hide IsListing, Restrict, ViewerIds, Elems;
    var shares := SharesExist(h, updates, ids, map[], 0);
    o := Orders(SomeListing(updates), ids, shares);
  }

  lemma SceneTimer(c: Config, h: Hub, store: map<PeerId, set<Segment>>) returns (e: Event)
    requires c.viewersPerTurn == 1 && Scene(c, h, TRIO, store, Some(Batch(map["c" := Delta({"s"}, {})], true)), None)
    ensures Enabled(c, h, e) && Safe(h, e)
    ensures Scene(c, Next(c, h, e), TRIO, store, None, HalfServed(h.generation))
  {
    hide PeersKnown, Converging, AreOrders;
    var o := TrioOrders(h);
    e := ETimer(o);
    var h1 := h.(pending := Some(h.pending.value.(armed := false)));
    SameOrders(h, h1, map["c" := Delta({"s"}, {})], o);
    assert CanFlush(h1, o) && CanFlush(h, o) && "c" in h1.pending.value.updates && 0 in h.subs;
    NextKeeps(c, h, e);
    hide FlushInventory, CanFlush;
    TimerServesOne(c, h1, o);
  }

  lemma SameOrders(h: Hub, h1: Hub, updates: map<PeerId, Update>, o: Orders)
    requires h1.subs == h.subs && h1.views == h.views && AreOrders(h, updates, o)
    ensures AreOrders(h1, updates, o)
  {
    assert ViewerIds(h1) == ViewerIds(h);
  }

  lemma TimerServesOne(c: Config, h: Hub, o: Orders)
    requires c.viewersPerTurn == 1 && h.flush.None? && h.pending.Some? && h.subs != map[]
    requires h.pending.value.updates != map[]
    requires CanFlush(h, o) && |o.viewerIds| == 2
    ensures var h1 := FlushInventory(c, h, o);
      && h1.subs == h.subs && h1.store == h.store && h1.pending.None? && h1.flushRequested == h.flushRequested
      && h1.generation == h.generation && h1.flush == Some(Flush(h.generation, h.pending.value.updates, o.viewerIds, 1))
  {
    StartFlushCases(c, h, o);
    TakenOnly(h, o);
    assert ViewerIds(h) != {} by { assert o.viewerIds[0] in Elems(o.viewerIds); }
    hide Taken, CanFlush;
    SliceFrame(c, Taken(h, o), o.shares);
  }

  /** Peer "c" reported, and the flush has served "a" but not "b". */
  /** "a" and "b" have subscribed as viewers, "c" to every peer's reports. */
  lemma TrioSubscribes(c: Config) returns (run: seq<Event>, h: Hub)
    requires ValidConfig(c)
    ensures var store: map<PeerId, set<Segment>> := map["a" := {}, "b" := {}, "c" := {}];
      Leads(c, Start(store), run, h) && Scene(c, h, TRIO, store, None, None)
  {
    hide Enabled, Next, Scene, Leads, Start;
    var store: map<PeerId, set<Segment>> := map["a" := {}, "b" := {}, "c" := {}];
    var h0 := Start(store);
    SceneStart(c, store);
    LeadsNowhere(c, h0);
    var subs1 := map[0 := Subscription("a", Viewer)];
    var subs2 := map[0 := Subscription("a", Viewer), 1 := Subscription("b", Viewer)];
    assert map[][0 := Subscription("a", Viewer)] == subs1;
    var e1 := SceneSubscribe(c, h0, map[], store, 0, "a", Viewer);
    var h1 := Next(c, h0, e1);
    LeadsOn(c, h0, [], h0, e1);
    assert subs1[1 := Subscription("b", Viewer)] == subs2;
    var e2 := SceneSubscribe(c, h1, subs1, store, 1, "b", Viewer);
    var h2 := Next(c, h1, e2);
    LeadsOn(c, h0, [] + [e1], h1, e2);
    assert subs2[2 := Subscription("c", Immediate)] == TRIO;
    var e3 := SceneSubscribe(c, h2, subs2, store, 2, "c", Immediate);
    h := Next(c, h2, e3);
    LeadsOn(c, h0, [] + [e1] + [e2], h2, e3);
    run := [] + [e1] + [e2] + [e3];
  }

  /** Peer "c" reported, and the flush has served "a" but not "b". */
  lemma FlushUnderway(c: Config) returns (run: seq<Event>, h: Hub)
    requires ValidConfig(c) && c.viewersPerTurn == 1
    ensures Leads(c, Start(map["a" := {}, "b" := {}, "c" := {}]), run, h)
    ensures Scene(c, h, TRIO, map["a" := {}, "b" := {}, "c" := {"s"}], None, HalfServed(h.generation))
  {
    var store: map<PeerId, set<Segment>> := map["a" := {}, "b" := {}, "c" := {}];
    var h0 := Start(store);
    var reported := store["c" := {"s"}];
    assert reported == map["a" := {}, "b" := {}, "c" := {"s"}];
    assert TRIO[0].mode != Immediate;
    hide Enabled, Next, Scene, Leads, Start, HalfServed;
    var before, h3 := TrioSubscribes(c);
    var e4 := EReport(2, Delta({"s"}, {}));
    SceneReport(c, h3, TRIO, store, 2, "s");
    var h4 := Next(c, h3, e4);
    LeadsOn(c, h0, before, h3, e4);
    var e5 := SceneTimer(c, h4, reported);
    h := Next(c, h4, e5);
    LeadsOn(c, h0, before + [e4], h4, e5);
    run := before + [e4] + [e5];
    SceneGeneration(c, h4, h, reported);
  }

  lemma SceneGeneration(c: Config, h: Hub, h1: Hub, store: map<PeerId, set<Segment>>)
    requires Scene(c, h1, TRIO, store, None, HalfServed(h.generation))
    ensures Scene(c, h1, TRIO, store, None, HalfServed(h1.generation))
  {
  }

  lemma StillOwed(h: Hub)
    requires IsCurrent(h) && h.flush == HalfServed(h.generation) && "b" in h.store
    ensures OwedToOthers(h, "c")
  {
    assert h.flush.value.viewerIds[1..] == ["b"];
    assert "b" in h.flush.value.viewerIds[1..];
    assert Unserved(h, "b");
  }

  /** Both viewers disconnect during the flush, and "c" reports that it lost what the flush says it has. */
  lemma ReportLostToFlushIsReachable(c: Config) returns (run: seq<Event>, e: Event)
    requires ValidConfig(c) && c.viewersPerTurn == 1
    ensures ReachesHarm(c, map["a" := {}, "b" := {}, "c" := {}], run, e) && e == EReport(2, Delta({}, {"s"}))
  {
    var store: map<PeerId, set<Segment>> := map["a" := {}, "b" := {}, "c" := {"s"}];
    var h0 := Start(map["a" := {}, "b" := {}, "c" := {}]);
    assert 2 in TRIO - {0} - {1};
    hide Enabled, Next, Scene, Leads, Start, HalfServed;
    var before, h := FlushUnderway(c);
    SceneClose(c, h, TRIO, store, None, HalfServed(h.generation), 0);
    LeadsOn(c, h0, before, h, EClose(0));
    var h1 := Next(c, h, EClose(0));
    SceneClose(c, h1, TRIO - {0}, store, None, HalfServed(h.generation), 1);
    LeadsOn(c, h0, before + [EClose(0)], h1, EClose(1));
    var h2 := Next(c, h1, EClose(1));
    e := EReport(2, Delta({}, {"s"}));
    FlushHarms(c, h2, store, h.generation);
    run := before + [EClose(0)] + [EClose(1)];
    HarmReached(c, map["a" := {}, "b" := {}, "c" := {}], run, h2, e);
  }

  lemma FlushHarms(c: Config, h: Hub, store: map<PeerId, set<Segment>>, generation: nat)
    requires Scene(c, h, TRIO - {0} - {1}, store, None, HalfServed(generation)) && "b" in store && "c" in store
    ensures Enabled(c, h, EReport(2, Delta({}, {"s"}))) && !Safe(h, EReport(2, Delta({}, {"s"})))
  {
    hide PeersKnown, Converging, Undone;
    assert TRIO - {0} - {1} == map[2 := Subscription("c", Immediate)];
    assert !HasBatchSubscribers(h);
    StillOwed(h);
    assert "s" in {"s"} * ({"s"} - {});
    assert NetContradicts(h, "c", Delta({}, {"s"}));
    hide OwedToOthers, NetContradicts;
    UndoneByBatch(h, "c", Delta({}, {"s"}));
  }

  /** Peer "c" leaves during the flush and comes back under its name, which the flush still says has the segment. */
  lemma RejoinIsReachable(c: Config) returns (run: seq<Event>, e: Event)
    requires ValidConfig(c) && c.viewersPerTurn == 1
    ensures ReachesHarm(c, map["a" := {}, "b" := {}, "c" := {}], run, e) && e.EJoin? && e.peer == "c"
  {
    var store: map<PeerId, set<Segment>> := map["a" := {}, "b" := {}, "c" := {"s"}];
    var h0 := Start(map["a" := {}, "b" := {}, "c" := {}]);
    hide Enabled, Next, Scene, Leads, Start, HalfServed;
    var before, h := FlushUnderway(c);
    var e1 := SceneLeave(c, h, TRIO, store, None, HalfServed(h.generation), "c");
    LeadsOn(c, h0, before, h, e1);
    var h1 := Next(c, h, e1);
    e := RejoinHarms(c, h1, store - {"c"}, h.generation);
    run := before + [e1];
    HarmReached(c, map["a" := {}, "b" := {}, "c" := {}], run, h1, e);
  }

  lemma SceneLeave(c: Config, h: Hub, subs: map<Socket, Subscription>, store: map<PeerId, set<Segment>>,
                   pending: Option<Batch>, flush: Option<Flush>, p: PeerId) returns (e: Event)
    requires Scene(c, h, subs, store, pending, flush) && p in store && pending.None?
    ensures Enabled(c, h, e) && Safe(h, e) && Scene(c, Next(c, h, e), subs, store - {p}, pending, flush)
  {
    var d := CanLeave(c, h, p);
    e := ESweep([d]);
    LeftFrame(h, d);
    assert Next(c, h, e) == Sweep(h, [d]);
    hide PeersKnown, Converging, Sweep, AreDepartures;
    NextKeeps(c, h, e);
  }

  lemma RejoinHarms(c: Config, h: Hub, store: map<PeerId, set<Segment>>, generation: nat) returns (e: Event)
    requires Scene(c, h, TRIO, store, None, HalfServed(generation)) && "b" in store && "c" !in store
    ensures Enabled(c, h, e) && !Safe(h, e) && e.EJoin? && e.peer == "c"
  {
    assert Structured(c, h, {}) && 0 < c.viewSize;
    hide PeersKnown, Converging, WellFormed, IsFill, Structured;
    AdmittedViews(c, h, "c");
    var views := Added(Seeded(h.(store := h.store["c" := {}])), "c");
    var f := FillExists(c.viewSize, views, "c");
    e := EJoin("c", f);
    StillOwed(h);
    assert "s" in Apply(h.flush.value.updates["c"], {});
    assert FlushNames(h, "c");
  }
}
