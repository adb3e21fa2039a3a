/**
 The client's copy of the audience (peer/src/tracker.ts and its browser twin sdk/src/ws-client.ts).

 A client knows only what the tracker's messages tell it; `Replay` is what it knows after a
 sequence of messages. Peers are reduced to their id and inventory.
 */
module PeerMirror {
  import opened Inventory

  /** known peer -> its inventory */
  type Mirror = map<PeerId, set<Segment>>

  datatype PeerUpdate = PeerUpdate(peerId: PeerId, update: Update)

  datatype Message =
    | PeerList(peers: Mirror)
    | PeerJoined(peerId: PeerId, segments: set<Segment>)
    | PeerLeft(peerId: PeerId)
    | InventoryReport(peerId: PeerId, update: Update)
    | InventoryBatch(updates: seq<PeerUpdate>)

  /** An update about a peer the client does not know is ignored. */
  function ApplyUpdate(m: Mirror, u: PeerUpdate): Mirror {
    if u.peerId in m then m[u.peerId := Apply(u.update, m[u.peerId])] else m
  }

  function ApplyUpdates(m: Mirror, us: seq<PeerUpdate>): Mirror {
    if us == [] then m else ApplyUpdates(ApplyUpdate(m, us[0]), us[1..])
  }

  function Handle(m: Mirror, message: Message): Mirror {
    match message
    case PeerList(peers) => peers
    case PeerJoined(p, segments) => m[p := segments]
    case PeerLeft(p) => m - {p}
    case InventoryReport(p, u) => ApplyUpdate(m, PeerUpdate(p, u))
    case InventoryBatch(us) => ApplyUpdates(m, us)
  }

  function Replay(log: seq<Message>): Mirror {
    if log == [] then map[] else Handle(Replay(log[..|log| - 1]), log[|log| - 1])
  }

  lemma ReplayOneMore(log: seq<Message>, message: Message)
    ensures Replay(log + [message]) == Handle(Replay(log), message)
  {
    assert (log + [message])[..|log|] == log;
  }

  // ---- Batches ----

  /** `us` lists exactly the updates in `updates`, each peer once. */
  ghost predicate IsListing(us: seq<PeerUpdate>, updates: map<PeerId, Update>) {
    && (forall i, j :: 0 <= i < j < |us| ==> us[i].peerId != us[j].peerId)
    && (forall u :: u in us ==> u.peerId in updates && updates[u.peerId] == u.update)
    && (forall p :: p in updates ==> PeerUpdate(p, updates[p]) in us)
  }

  lemma ListingGrows(us: seq<PeerUpdate>, updates: map<PeerId, Update>, p: PeerId, u: Update)
    requires IsListing(us, updates) && p !in updates
    ensures IsListing(us + [PeerUpdate(p, u)], updates[p := u])
  {
    var more := us + [PeerUpdate(p, u)];
    assert more[|us|] == PeerUpdate(p, u);
    forall q | q in updates ensures PeerUpdate(q, updates[q]) in more {
      assert PeerUpdate(q, updates[q]) in us;
    }
  }

  ghost function SomeListing(updates: map<PeerId, Update>): (us: seq<PeerUpdate>)
    ensures IsListing(us, updates)
    decreases |updates|
  {
    if updates == map[] then []
    else
      var p :| p in updates;
      assert (updates - {p}).Keys == updates.Keys - {p};
      assert (updates - {p})[p := updates[p]] == updates;
      ListingGrows(SomeListing(updates - {p}), updates - {p}, p, updates[p]);
      SomeListing(updates - {p}) + [PeerUpdate(p, updates[p])]
  }

  /** Every known peer that has an update, updated. */
  function Patch(m: Mirror, updates: map<PeerId, Update>): Mirror {
    map p | p in m :: if p in updates then Apply(updates[p], m[p]) else m[p]
  }

  /** However a batch lists its updates, its effect is the same. */
  lemma {:induction false} ListingIsPatch(m: Mirror, us: seq<PeerUpdate>, updates: map<PeerId, Update>)
    requires IsListing(us, updates)
    ensures ApplyUpdates(m, us) == Patch(m, updates)
    decreases |us|
  {
    if us == [] {
      assert updates == map[];
    } else {
      var u := us[0];
      RestIsListing(us, updates);
      hide IsListing, ApplyUpdate, Patch;
      ListingIsPatch(ApplyUpdate(m, u), us[1..], updates - {u.peerId});
      PatchOneMore(m, u, updates);
    }
  }

  lemma RestIsListing(us: seq<PeerUpdate>, updates: map<PeerId, Update>)
    requires IsListing(us, updates) && us != []
    ensures us[0].peerId in updates && updates[us[0].peerId] == us[0].update
    ensures IsListing(us[1..], updates - {us[0].peerId})
  {
    assert us[0] in us;
    assert forall i :: 0 < i < |us| ==> us[i] == us[1..][i - 1];
  }

  lemma PatchOneMore(m: Mirror, u: PeerUpdate, updates: map<PeerId, Update>)
    requires u.peerId in updates && updates[u.peerId] == u.update
    ensures Patch(ApplyUpdate(m, u), updates - {u.peerId}) == Patch(m, updates)
  {
    hide Apply;
  }

  lemma {:induction false} ApplyUpdatesSplit(m: Mirror, us: seq<PeerUpdate>, k: nat)
    requires k <= |us|
    ensures ApplyUpdates(m, us) == ApplyUpdates(ApplyUpdates(m, us[..k]), us[k..])
  {
    if k > 0 {
      assert us[..k][1..] == us[1..][..k - 1] && us[1..][k - 1..] == us[k..];
      ApplyUpdatesSplit(ApplyUpdate(m, us[0]), us[1..], k - 1);
    } else {
      assert us[0..] == us;
    }
  }

  const MAX_UPDATES_PER_BATCH := 256

  /** One flush for one recipient, cut into messages of at most 256 updates. */
  function BatchMessages(us: seq<PeerUpdate>): (messages: seq<Message>)
    ensures forall m :: m in messages ==> m.InventoryBatch? && 0 < |m.updates| <= MAX_UPDATES_PER_BATCH
  {
    if us == [] then []
    else if |us| <= MAX_UPDATES_PER_BATCH then [InventoryBatch(us)]
    else [InventoryBatch(us[..MAX_UPDATES_PER_BATCH])] + BatchMessages(us[MAX_UPDATES_PER_BATCH..])
  }

  function Concat(messages: seq<Message>): seq<PeerUpdate> {
    if messages == [] then []
    else (if messages[0].InventoryBatch? then messages[0].updates else []) + Concat(messages[1..])
  }

  /** The chunks partition the updates, in order. */
  lemma {:induction false} ChunksPartition(us: seq<PeerUpdate>)
    ensures Concat(BatchMessages(us)) == us
  {
    if |us| > MAX_UPDATES_PER_BATCH {
      ChunksPartition(us[MAX_UPDATES_PER_BATCH..]);
    }
  }

  lemma {:induction false} ReplayBatch(log: seq<Message>, us: seq<PeerUpdate>)
    ensures Replay(log + BatchMessages(us)) == ApplyUpdates(Replay(log), us)
    decreases |us|
  {
    if us == [] {
      assert log + [] == log;
    } else if |us| <= MAX_UPDATES_PER_BATCH {
      ReplayOneMore(log, InventoryBatch(us));
    } else {
      hide Replay, ApplyUpdates;
      var first := InventoryBatch(us[..MAX_UPDATES_PER_BATCH]);
      var rest := us[MAX_UPDATES_PER_BATCH..];
      assert log + BatchMessages(us) == log + [first] + BatchMessages(rest);
      ReplayOneMore(log, first);
      ReplayBatch(log + [first], rest);
      ApplyUpdatesSplit(Replay(log), us, MAX_UPDATES_PER_BATCH);
    }
  }

  /** A flush delivered to a client patches its copy with every update, and nothing else. */
  lemma DeliveredBatchIsPatch(log: seq<Message>, us: seq<PeerUpdate>, updates: map<PeerId, Update>)
    requires IsListing(us, updates)
    ensures Replay(log + BatchMessages(us)) == Patch(Replay(log), updates)
  {
    ReplayBatch(log, us);
    ListingIsPatch(Replay(log), us, updates);
  }

  // ---- The client ----

  class TrackerClient {
    var peers: Mirror
    var lastReportedSegments: set<Segment>

    constructor ()
      ensures peers == map[] && lastReportedSegments == {}
    {
      peers, lastReportedSegments := map[], {};
    }

    method HandleMessage(message: Message)
      modifies this`peers
      ensures peers == Handle(old(peers), message)
    {
      match message {
        case PeerList(listed) => peers := listed;
        case PeerJoined(p, segments) => peers := peers[p := segments];
        case PeerLeft(p) => peers := peers - {p};
        case InventoryReport(p, u) => ApplyInventory(p, u);
        case InventoryBatch(updates) =>
          for i := 0 to |updates|
            invariant ApplyUpdates(peers, updates[i..]) == ApplyUpdates(old(peers), updates)
          {
            assert updates[i..][1..] == updates[i + 1..];
            ApplyInventory(updates[i].peerId, updates[i].update);
          }
      }
    }

    /** `replaceInventory` and `applyInventoryDelta`. */
    method ApplyInventory(p: PeerId, u: Update)
      modifies this`peers
      ensures peers == ApplyUpdate(old(peers), PeerUpdate(p, u))
    {
      if p !in peers { return; }
      match u {
        case Replace(segments) => peers := peers[p := segments];
        case Delta(added, removed) =>
          var segments := peers[p];
          segments := segments - removed;
          segments := segments + added;
          peers := peers[p := segments];
      }
    }

    /** Reports what changed since the last report that could be sent. */
    method ReportSegments(current: set<Segment>, connected: bool) returns (report: seq<Update>)
      modifies this`lastReportedSegments
      ensures lastReportedSegments == if connected then current else old(lastReportedSegments)
      ensures if connected && current != old(lastReportedSegments)
        then |report| == 1 && Apply(report[0], old(lastReportedSegments)) == current
        else report == []
    {
      var added, removed := current - lastReportedSegments, lastReportedSegments - current;
      ReportDeltaRoundTrip(current, lastReportedSegments);
      if added == {} && removed == {} { return []; }
      if !connected { return []; }
      report := [Delta(added, removed)];
      lastReportedSegments := current;
    }

    /** The socket closed: nothing is known until the next peer list. */
    method Disconnected()
      modifies this`peers
      ensures peers == Replay([])
    {
      peers := map[];
    }
  }
}
