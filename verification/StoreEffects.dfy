/**
 What one operation leaves in either store of the tracker (tracker/src/store.ts,
 tracker/src/sqlite-store.ts): whose inventory changes and to what, who counts as seen, and whom a
 sweep spares.
 */
module StoreEffects {
  import opened Inventory
  import opened Sequences
  import opened StoreAgreement
  import opened Wrappers

  /** The newest of these segments, as many as fit both caps together. */
  ghost predicate IsNewest(kept: seq<Segment>, all: seq<Segment>, max: nat) {
    && |kept| <= |all| && kept == all[|all| - |kept|..] && Fits(kept, max)
    && forall k :: 0 <= k < |all| - |kept| ==> !Fits(all[k..], max)
  }

  /** The update that a report is. */
  function UpdateOf(op: Op): Option<Update> {
    match op
    case Append(_, segments) => Some(Update.Delta(Elems(segments), {}))
    case Replace(_, segments) => Some(Update.Replace(Elems(segments)))
    case Delta(_, added, removed) => Some(Update.Delta(Elems(added), Elems(removed)))
    case _ => None
  }

  /** What a report makes of an inventory before the caps: the update, new segments behind those that stay. */
  ghost predicate IsUpdated(op: Op, before: seq<Segment>, all: seq<Segment>)
    requires UpdateOf(op).Some?
  {
    && Distinct(all) && Elems(all) == Apply(UpdateOf(op).value, Elems(before))
    && (op.Append? ==> before <= all) && (op.Delta? ==> Drop(before, Elems(op.removed)) <= all)
  }

  lemma LimitedIsNewest(all: seq<Segment>, max: nat)
    ensures IsNewest(Limited(all, max), all, max)
  {
    LimitedIsLongestSuffix(all, max);
  }

  lemma AppendIsUpdate(before: seq<Segment>, reported: seq<Segment>, max: nat, p: PeerId)
    requires Distinct(before)
    ensures exists all ::
      IsUpdated(Append(p, reported), before, all) && IsNewest(MemoryAppend(before, reported, max), all, max)
  {
    hide AddAll, Limited, IsNewest;
    var all := AddAll([], before + reported);
    LimitedIsNewest(all, max);
    assert IsUpdated(Append(p, reported), before, all) by {
      AddAllJoins([], before, reported);
      AddAllOfDistinct(before);
      AddAllAppends(before, reported);
    }
  }

  lemma ReplaceIsUpdate(before: seq<Segment>, reported: seq<Segment>, max: nat, p: PeerId)
    ensures exists all ::
      IsUpdated(Op.Replace(p, reported), before, all) && IsNewest(MemoryReplace(reported, max), all, max)
  {
    hide AddAll, Limited, IsNewest;
    var all := AddAll([], reported);
    LimitedIsNewest(all, max);
    assert IsUpdated(Op.Replace(p, reported), before, all) by { AddAllAppends([], reported); }
  }

  lemma DeltaIsUpdate(before: seq<Segment>, added: seq<Segment>, removed: seq<Segment>, max: nat, p: PeerId)
    requires Distinct(before)
    ensures exists all ::
      IsUpdated(Op.Delta(p, added, removed), before, all) &&
      IsNewest(MemoryDelta(before, added, removed, max), all, max)
  {
    hide AddAll, Limited, Drop, IsNewest;
    var left := Drop(before, Elems(removed));
    var all := AddAll(left, added);
    LimitedIsNewest(all, max);
    assert IsUpdated(Op.Delta(p, added, removed), before, all) by {
      DropMembers(before, Elems(removed));
      AddAllAppends(left, added);
    }
  }

  /** A report is the update it stands for, cut to the newest segments that fit; its peer was seen now. */
  lemma MemoryReport(m: Memory, op: Op, now: int, max: nat)
    requires UpdateOf(op).Some? && op.peer in m.peers && Distinct(m.peers[op.peer].segments)
    ensures var m1 := MemoryNext(m, op, now, max);
      && op.peer in m1.peers && m1.peers[op.peer].lastSeenAt == now
      && m1.peers[op.peer].traffic == m.peers[op.peer].traffic
      && exists all :: IsUpdated(op, m.peers[op.peer].segments, all) && IsNewest(m1.peers[op.peer].segments, all, max)
  {
    var before := m.peers[op.peer].segments;
    match op {
      case Append(p, reported) => AppendIsUpdate(before, reported, max, p);
      case Replace(p, reported) => ReplaceIsUpdate(before, reported, max, p);
      case Delta(p, added, removed) => DeltaIsUpdate(before, added, removed, max, p);
    }
  }

  /** On disk the same holds of the set of segments; the order is that of the rows. */
  lemma DiskReport(t: Tables, op: Op, now: int, max: nat)
    requires UpdateOf(op).Some? && op.peer in t.lastSeen && Distinct(Rows(t.segmentRows, op.peer))
    ensures var t1 := TablesNext(t, op, now, max);
      && t1.lastSeen == t.lastSeen[op.peer := now] && t1.stats == t.stats
      && exists all, kept ::
           && IsUpdated(op, Rows(t.segmentRows, op.peer), all) && IsNewest(kept, all, max)
           && Elems(Rows(t1.segmentRows, op.peer)) == Elems(kept)
  {
    hide Rows, Written, Rewritten, IsUpdated, IsNewest, Elems;
    var before := Rows(t.segmentRows, op.peer);
    var next := match op
      case Append(_, reported) => MemoryAppend(before, reported, max)
      case Replace(_, reported) => MemoryReplace(reported, max)
      case Delta(_, added, removed) => MemoryDelta(before, added, removed, max);
    match op {
      case Append(p, reported) => AppendIsUpdate(before, reported, max, p);
      case Replace(p, reported) => ReplaceIsUpdate(before, reported, max, p);
      case Delta(p, added, removed) => DeltaIsUpdate(before, added, removed, max, p);
    }
    WrittenReadsBack(t.segmentRows, op.peer, next, op.peer);
    ContentsAlwaysAgree(before, next);
  }

  /** A report whose result fits the caps is applied whole, as the hub and its clients apply it. */
  lemma FittingReportIsApplied(op: Op, before: seq<Segment>, kept: seq<Segment>, all: seq<Segment>, max: nat)
    requires UpdateOf(op).Some? && IsUpdated(op, before, all) && IsNewest(kept, all, max) && Fits(all, max)
    ensures Elems(kept) == Apply(UpdateOf(op).value, Elems(before))
  {
    assert all[0..] == all;
  }

  /** Joining keeps what was known of the peer; leaving forgets it; statistics replace its traffic. */
  lemma JoinLeaveAndStats(m: Memory, op: Op, now: int, max: nat)
    requires op.Join? || ((op.Leave? || op.ReportStats?) && op.peer in m.peers)
    ensures var peers := MemoryNext(m, op, now, max).peers;
      match op
      case Join(p) => p in peers && peers[p] ==
        if p in m.peers then m.peers[p].(lastSeenAt := now) else PeerState([], NO_TRAFFIC, now)
      case ReportStats(p, traffic) => p in peers && peers[p] == PeerState(m.peers[p].segments, traffic, now)
      case _ => op.peer !in peers
  {
  }

  /** An operation on one peer leaves all others as they are. */
  lemma OthersAreUntouched(m: Memory, t: Tables, op: Op, now: int, max: nat, q: PeerId)
    requires !op.Sweep? && q != op.peer
    ensures var m1, t1 := MemoryNext(m, op, now, max), TablesNext(t, op, now, max);
      && (q in m1.peers <==> q in m.peers) && (q in m1.peers ==> m1.peers[q] == m.peers[q])
      && (q in t1.lastSeen <==> q in t.lastSeen) && (q in t1.lastSeen ==> t1.lastSeen[q] == t.lastSeen[q])
      && (q in t1.stats <==> q in t.stats) && (q in t1.stats ==> t1.stats[q] == t.stats[q])
      && Rows(t1.segmentRows, q) == Rows(t.segmentRows, q)
  {
    hide Written, Rewritten, Rows, MemoryAppend, MemoryReplace, MemoryDelta, DeletePeers;
    if op.Leave? && op.peer in t.lastSeen { RowsAfterRetire(t.segmentRows, {op.peer}, q); }
    if UpdateOf(op).Some? && op.peer in t.lastSeen {
      var before := Rows(t.segmentRows, op.peer);
      var next := match op
        case Append(_, reported) => MemoryAppend(before, reported, max)
        case Replace(_, reported) => MemoryReplace(reported, max)
        case Delta(_, added, removed) => MemoryDelta(before, added, removed, max);
      WrittenReadsBack(t.segmentRows, op.peer, next, q);
    }
  }

  /** An operation on a peer that is not known changes nothing. */
  lemma UnknownIsRefused(m: Memory, t: Tables, op: Op, now: int, max: nat)
    requires !op.Sweep? && !op.Join?
    ensures op.peer !in m.peers ==> MemoryNext(m, op, now, max) == m
    ensures op.peer !in t.lastSeen ==> TablesNext(t, op, now, max) == t
  {
  }

  /** A sweep spares exactly the peers that were last seen at the cutoff or after it, and all it knows of them. */
  lemma SweepSparesTheRecent(m: Memory, t: Tables, cutoff: int, now: int, max: nat, p: PeerId)
    ensures var m1, t1 := MemoryNext(m, Sweep(cutoff), now, max), TablesNext(t, Sweep(cutoff), now, max);
      && (p in m1.peers <==> p in m.peers && m.peers[p].lastSeenAt >= cutoff)
      && (p in m1.peers ==> m1.peers[p] == m.peers[p])
      && (p in t1.lastSeen <==> p in t.lastSeen && t.lastSeen[p] >= cutoff)
      && (p in t1.lastSeen ==> t1.lastSeen[p] == t.lastSeen[p])
      && Rows(t1.segmentRows, p) == (if p in t.lastSeen && t.lastSeen[p] < cutoff then [] else Rows(t.segmentRows, p))
  {
    RowsAfterRetire(t.segmentRows, StaleOnDisk(t, cutoff), p);
  }
}
