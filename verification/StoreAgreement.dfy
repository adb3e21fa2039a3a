/**
 The tracker's two stores (tracker/src/store.ts in memory, tracker/src/sqlite-store.ts on rows) for
 one broadcast: what they keep of a peer's inventory, in which order, and what traffic they report.
 */
module StoreAgreement {
  import opened Inventory
  import opened Sequences
  import opened Wrappers

  // ---- Ordered sets ----

  function Keep(s: seq<Segment>, wanted: set<Segment>): seq<Segment> {
    if s == [] then []
    else
      var kept, last := Keep(s[..|s| - 1], wanted), s[|s| - 1];
      if last in wanted then kept + [last] else kept
  }

  function Drop(s: seq<Segment>, gone: set<Segment>): seq<Segment> {
    if s == [] then []
    else
      var kept, last := Drop(s[..|s| - 1], gone), s[|s| - 1];
      if last in gone then kept else kept + [last]
  }

  /** Adds to a set that remembers insertion order. */
  function AddAll(s: seq<Segment>, added: seq<Segment>): seq<Segment> {
    if added == [] then s
    else
      var t, last := AddAll(s, added[..|added| - 1]), added[|added| - 1];
      if last in t then t else t + [last]
  }

  lemma {:induction false} KeepMembers(s: seq<Segment>, wanted: set<Segment>)
    ensures forall x :: x in Keep(s, wanted) <==> x in s && x in wanted
    ensures Distinct(s) ==> Distinct(Keep(s, wanted))
  {
    if s != [] {
      var rest := s[..|s| - 1];
      KeepMembers(rest, wanted);
      assert s == rest + [s[|s| - 1]];
      if Distinct(s) { assert s[|s| - 1] !in rest; }
    }
  }

  lemma {:induction false} DropMembers(s: seq<Segment>, gone: set<Segment>)
    ensures forall x :: x in Drop(s, gone) <==> x in s && x !in gone
    ensures Distinct(s) ==> Distinct(Drop(s, gone))
  {
    if s != [] {
      var rest := s[..|s| - 1];
      DropMembers(rest, gone);
      assert s == rest + [s[|s| - 1]];
      if Distinct(s) { assert s[|s| - 1] !in rest; }
    }
  }

  /** What is added comes after what was there, without repeating it. */
  lemma {:induction false} AddAllAppends(s: seq<Segment>, added: seq<Segment>)
    requires Distinct(s)
    ensures var t := AddAll(s, added);
      |s| <= |t| && t[..|s|] == s && Distinct(t) && forall x :: x in t <==> x in s || x in added
  {
    if added != [] {
      var rest := added[..|added| - 1];
      AddAllAppends(s, rest);
      assert added == rest + [added[|added| - 1]];
    }
  }

  /** `new Set([...a, ...b])` adds `b` to the set of `a`. */
  lemma {:induction false} AddAllJoins(s: seq<Segment>, a: seq<Segment>, b: seq<Segment>)
    ensures AddAll(s, a + b) == AddAll(AddAll(s, a), b)
  {
    if b == [] {
      assert a + b == a;
    } else {
      AddAllJoins(s, a, b[..|b| - 1]);
      assert (a + b)[..|a + b| - 1] == a + b[..|b| - 1];
    }
  }

  lemma {:induction false} AddAllOfDistinct(s: seq<Segment>)
    requires Distinct(s)
    ensures AddAll([], s) == s
  {
    if s != [] {
      AddAllOfDistinct(s[..|s| - 1]);
      assert s[|s| - 1] !in s[..|s| - 1];
      assert s == s[..|s| - 1] + [s[|s| - 1]];
    }
  }

  // ---- Inventory caps ----

  const MAX_INVENTORY_CHARACTERS_PER_PEER: nat := 131072

  function Characters(s: seq<Segment>): nat { if s == [] then 0 else |s[0]| + Characters(s[1..]) }

  ghost predicate Fits(s: seq<Segment>, maxSegments: nat) {
    |s| <= maxSegments && Characters(s) <= MAX_INVENTORY_CHARACTERS_PER_PEER
  }

  /** Where the longest suffix within the caps starts, among those that start at `from` or before. */
  function Start(s: seq<Segment>, maxSegments: nat, from: nat): (start: nat)
    requires from <= |s|
    ensures start <= from
  {
    if from > 0 && |s| - from < maxSegments && Characters(s[from - 1..]) <= MAX_INVENTORY_CHARACTERS_PER_PEER
    then Start(s, maxSegments, from - 1) else from
  }

  function Limited(s: seq<Segment>, maxSegments: nat): seq<Segment> { s[Start(s, maxSegments, |s|)..] }

  lemma {:induction false} StartIsMaximal(s: seq<Segment>, maxSegments: nat, from: nat)
    requires from <= |s| && Fits(s[from..], maxSegments)
    ensures Fits(s[Start(s, maxSegments, from)..], maxSegments)
    ensures forall k :: 0 <= k < Start(s, maxSegments, from) ==> !Fits(s[k..], maxSegments)
    decreases from
  {
    if from > 0 && |s| - from < maxSegments && Characters(s[from - 1..]) <= MAX_INVENTORY_CHARACTERS_PER_PEER {
      StartIsMaximal(s, maxSegments, from - 1);
    } else {
      forall k | 0 <= k < from ensures !Fits(s[k..], maxSegments) { SuffixesGrow(s, k, from - 1); }
    }
  }

  lemma {:induction false} SuffixesGrow(s: seq<Segment>, k: nat, l: nat)
    requires k <= l <= |s|
    ensures Characters(s[k..]) >= Characters(s[l..])
    decreases l - k
  {
    if k < l {
      SuffixesGrow(s, k + 1, l);
      assert s[k..][1..] == s[k + 1..];
    }
  }

  /** The newest segments are kept: the longest suffix within both caps. */
  lemma LimitedIsLongestSuffix(s: seq<Segment>, maxSegments: nat)
    ensures var n := |Limited(s, maxSegments)|;
      && n <= |s| && Limited(s, maxSegments) == s[|s| - n..] && Fits(Limited(s, maxSegments), maxSegments)
      && forall k :: 0 <= k < |s| - n ==> !Fits(s[k..], maxSegments)
  {
    StartIsMaximal(s, maxSegments, |s|);
  }

  method LimitInventory(segments: seq<Segment>, maxSegments: nat) returns (kept: seq<Segment>)
    ensures kept == Limited(segments, maxSegments)
  {
    var characters, start := 0, |segments|;
    while start > 0 && |segments| - start < maxSegments
      invariant 0 <= start <= |segments| && characters == Characters(segments[start..])
      invariant Start(segments, maxSegments, start) == Start(segments, maxSegments, |segments|)
    {
      var length := |segments[start - 1]|;
      assert segments[start - 1..][1..] == segments[start..];
      if characters + length > MAX_INVENTORY_CHARACTERS_PER_PEER { break; }
      characters := characters + length;
      start := start - 1;
    }
    kept := segments[start..];
  }

  // ---- What each store makes of a report ----

  function MemoryAppend(segments: seq<Segment>, reported: seq<Segment>, max: nat): seq<Segment> {
    Limited(AddAll([], segments + reported), max)
  }

  function MemoryReplace(reported: seq<Segment>, max: nat): seq<Segment> { Limited(AddAll([], reported), max) }

  function MemoryDelta(segments: seq<Segment>, added: seq<Segment>, removed: seq<Segment>, max: nat): seq<Segment> {
    Limited(AddAll(Drop(segments, Elems(removed)), added), max)
  }

  /** Rows that are still wanted stay where they are; the others come after them. */
  function Rewritten(rows: seq<Segment>, next: seq<Segment>): seq<Segment> {
    Keep(rows, Elems(next)) + Drop(next, Elems(rows))
  }

  lemma {:induction false} KeepAll(s: seq<Segment>, wanted: set<Segment>)
    requires Elems(s) <= wanted
    ensures Keep(s, wanted) == s
  {
    if s != [] {
      var rest, last := s[..|s| - 1], s[|s| - 1];
      assert forall x :: x in rest ==> x in s;
      assert last in Elems(s) && Elems(rest) <= Elems(s);
      hide Elems;
      KeepAll(rest, wanted);
    }
  }

  lemma {:induction false} KeepNone(s: seq<Segment>, wanted: set<Segment>)
    requires Elems(s) !! wanted
    ensures Keep(s, wanted) == [] && Drop(s, wanted) == s
  {
    if s != [] {
      var rest, last := s[..|s| - 1], s[|s| - 1];
      assert forall x :: x in rest ==> x in s;
      assert last in Elems(s) && Elems(rest) <= Elems(s);
      hide Elems;
      KeepNone(rest, wanted);
    }
  }

  lemma {:induction false} DropAll(s: seq<Segment>, gone: set<Segment>)
    requires Elems(s) <= gone
    ensures Drop(s, gone) == []
  {
    if s != [] {
      var rest, last := s[..|s| - 1], s[|s| - 1];
      assert forall x :: x in rest ==> x in s;
      assert last in Elems(s) && Elems(rest) <= Elems(s);
      hide Elems;
      DropAll(rest, gone);
    }
  }

  lemma {:induction false} KeepSplits(a: seq<Segment>, b: seq<Segment>, wanted: set<Segment>)
    ensures Keep(a + b, wanted) == Keep(a, wanted) + Keep(b, wanted)
    ensures Drop(a + b, wanted) == Drop(a, wanted) + Drop(b, wanted)
  {
    if b == [] {
      assert a + b == a;
    } else {
      var rest, last := b[..|b| - 1], b[|b| - 1];
      KeepSplits(a, rest, wanted);
      assert (a + b)[..|a + b| - 1] == a + rest && (a + b)[|a + b| - 1] == last;
    }
  }

  lemma OneElement(x: Segment, some: set<Segment>)
    ensures Keep([x], some) == (if x in some then [x] else []) && Drop([x], some) == (if x in some then [] else [x])
  {
    assert [x][..0] == [];
  }

  /** Filtering for elements that survive an earlier filter skips that filter. */
  lemma {:induction false} KeepOfDrop(s: seq<Segment>, gone: set<Segment>, wanted: set<Segment>)
    requires wanted !! gone
    ensures Keep(Drop(s, gone), wanted) == Keep(s, wanted)
  {
    if s != [] {
      var rest, last := s[..|s| - 1], s[|s| - 1];
      KeepOfDrop(rest, gone, wanted);
      if last in gone {
        assert last !in wanted;
        assert Drop(s, gone) == Drop(rest, gone) && Keep(s, wanted) == Keep(rest, wanted);
      } else {
        KeepSplits(Drop(rest, gone), [last], wanted);
        OneElement(last, wanted);
      }
    }
  }

  lemma SuffixIsApart(s: seq<Segment>, k: nat)
    requires Distinct(s) && k <= |s|
    ensures Elems(s[..k]) !! Elems(s[k..])
  {
    assert forall i, j :: 0 <= i < k && 0 <= j < |s| - k ==> s[..k][i] != s[k..][j];
  }

  lemma KeepTail(rows: seq<Segment>, gone: set<Segment>, k: nat, added: seq<Segment>)
    requires Distinct(rows) && k <= |Drop(rows, gone)| && Elems(added) !! Elems(rows) && Elems(added) !! gone
    ensures Keep(rows, Elems(Drop(rows, gone)[k..] + added)) == Drop(rows, gone)[k..]
  {
    hide Keep, Drop;
    var base := Drop(rows, gone);
    var head, kept := base[..k], base[k..];
    var wanted := Elems(kept + added);
    DropMembers(rows, gone);
    SuffixIsApart(base, k);
    assert wanted == Elems(kept) + Elems(added);
    assert (forall x :: x in kept ==> x in base) && forall x :: x in head ==> x in base;
    assert wanted !! gone && Elems(head) !! wanted && base == head + kept;
    hide Elems, Distinct;
    KeepOfDrop(rows, gone, wanted);
    KeepSplits(head, kept, wanted);
    KeepNone(head, wanted);
    KeepAll(kept, wanted);
    assert [] + kept == kept;
  }

  lemma DropHead(rows: seq<Segment>, kept: seq<Segment>, added: seq<Segment>)
    requires Elems(kept) <= Elems(rows) && Elems(added) !! Elems(rows)
    ensures Drop(kept + added, Elems(rows)) == added
  {
    hide Keep, Drop;
    KeepSplits(kept, added, Elems(rows));
    DropAll(kept, Elems(rows));
    KeepNone(added, Elems(rows));
  }

  /** Rewriting rows to a suffix of what they were, less some, plus new ones, reproduces it in order. */
  lemma RewriteReproduces(rows: seq<Segment>, gone: set<Segment>, extra: seq<Segment>, start: nat)
    requires Distinct(rows) && Elems(extra) !! Elems(rows) && Elems(extra) !! gone
    requires start <= |Drop(rows, gone) + extra|
    ensures Rewritten(rows, (Drop(rows, gone) + extra)[start..]) == (Drop(rows, gone) + extra)[start..]
  {
    var base := Drop(rows, gone);
    DropMembers(rows, gone);
    var k := if start < |base| then start else |base|;
    var kept, added := base[k..], extra[start - k..];
    assert (base + extra)[start..] == kept + added;
    assert forall x :: x in kept ==> x in base;
    assert forall x :: x in added ==> x in extra;
    assert Elems(kept) <= Elems(rows) && Elems(added) <= Elems(extra);
    hide Keep, Drop;
    KeepTail(rows, gone, k, added);
    DropHead(rows, kept, added);
  }

  /** What a delta adds, once what is there already is left out. */
  lemma AddedAreFresh(base: seq<Segment>, added: seq<Segment>)
    requires Distinct(base)
    ensures var t := AddAll(base, added);
      |base| <= |t| && t == base + t[|base|..] && forall x :: x in t[|base|..] ==> x in added && x !in base
  {
    AddAllAppends(base, added);
    var t := AddAll(base, added);
    SuffixIsApart(t, |base|);
    forall x | x in t[|base|..] ensures x in added && x !in base {
      assert x in t && x in Elems(t[|base|..]) && x !in Elems(t[..|base|]);
    }
  }

  /** Both stores keep the same segments in the same order, for appends and for the deltas that clients send. */
  lemma DeltasAgree(rows: seq<Segment>, added: seq<Segment>, removed: seq<Segment>, max: nat)
    requires Distinct(rows) && Elems(added) !! Elems(removed)
    ensures Rewritten(rows, MemoryDelta(rows, added, removed, max)) == MemoryDelta(rows, added, removed, max)
    ensures Distinct(MemoryDelta(rows, added, removed, max))
  {
    hide Keep, Drop, AddAll, Rewritten, Limited;
    var gone := Elems(removed);
    var base := Drop(rows, gone);
    DropMembers(rows, gone);
    AddAllAppends(base, added);
    AddedAreFresh(base, added);
    var t := AddAll(base, added);
    var extra := t[|base|..];
    forall x | x in extra ensures x !in rows && x !in gone { assert x in Elems(added); }
    LimitedIsLongestSuffix(t, max);
    assert Distinct(MemoryDelta(rows, added, removed, max));
    hide Distinct;
    RewriteReproduces(rows, gone, extra, |t| - |Limited(t, max)|);
  }

  lemma AppendsAgree(rows: seq<Segment>, reported: seq<Segment>, max: nat)
    requires Distinct(rows)
    ensures MemoryAppend(rows, reported, max) == MemoryDelta(rows, reported, [], max)
    ensures Rewritten(rows, MemoryAppend(rows, reported, max)) == MemoryAppend(rows, reported, max)
  {
    AddAllJoins([], rows, reported);
    AddAllOfDistinct(rows);
    KeepNone(rows, Elems([]));
    DeltasAgree(rows, reported, [], max);
  }

  /** Any report, also one that replaces or overlaps, leaves both stores with the same set. */
  lemma ContentsAlwaysAgree(rows: seq<Segment>, next: seq<Segment>)
    ensures Elems(Rewritten(rows, next)) == Elems(next)
  {
    KeepMembers(rows, Elems(next));
    DropMembers(next, Elems(rows));
  }

  // ---- Traffic totals ----

  datatype Traffic = Traffic(
    bytesDownloadedP2P: nat, bytesDownloadedOrigin: nat, bytesUploadedP2P: nat, p2pRequests: nat, p2pSuccesses: nat,
    p2pFailures: nat, originRequests: nat, integrityFailures: nat, fallbacks: nat, segmentsCached: nat)

  const NO_TRAFFIC := Traffic(0, 0, 0, 0, 0, 0, 0, 0, 0, 0)

  function Plus(a: Traffic, b: Traffic): Traffic {
    Traffic(a.bytesDownloadedP2P + b.bytesDownloadedP2P, a.bytesDownloadedOrigin + b.bytesDownloadedOrigin,
            a.bytesUploadedP2P + b.bytesUploadedP2P, a.p2pRequests + b.p2pRequests, a.p2pSuccesses + b.p2pSuccesses,
            a.p2pFailures + b.p2pFailures, a.originRequests + b.originRequests,
            a.integrityFailures + b.integrityFailures,
            a.fallbacks + b.fallbacks, a.segmentsCached + b.segmentsCached)
  }

  ghost function Total(traffic: map<PeerId, Traffic>): Traffic {
    if traffic == map[] then NO_TRAFFIC
    else
      var p :| p in traffic;
      assert (traffic - {p}).Keys == traffic.Keys - {p};
      Plus(traffic[p], Total(traffic - {p}))
  }

  lemma PlusShuffles(a: Traffic, b: Traffic, c: Traffic)
    ensures Plus(a, Plus(b, c)) == Plus(b, Plus(a, c)) == Plus(Plus(a, b), c)
    ensures Plus(a, NO_TRAFFIC) == a
  {
  }

  lemma {:induction false} TotalWithout(traffic: map<PeerId, Traffic>, p: PeerId)
    requires p in traffic
    ensures Total(traffic) == Plus(traffic[p], Total(traffic - {p}))
    decreases |traffic|
  {
    var q :| q in traffic && Total(traffic) == Plus(traffic[q], Total(traffic - {q}));
    if q != p {
      assert (traffic - {p}).Keys == traffic.Keys - {p} && (traffic - {q}).Keys == traffic.Keys - {q};
      TotalWithout(traffic - {q}, p);
      TotalWithout(traffic - {p}, q);
      assert traffic - {q} - {p} == traffic - {p} - {q};
      PlusShuffles(traffic[p], traffic[q], Total(traffic - {p} - {q}));
    }
  }

  function Among(traffic: map<PeerId, Traffic>, some: set<PeerId>): map<PeerId, Traffic> {
    map p | p in traffic && p in some :: traffic[p]
  }

  lemma SplitStep(traffic: map<PeerId, Traffic>, some: set<PeerId>, p: PeerId)
    requires p in traffic
    requires var rest := traffic - {p}; Total(rest) == Plus(Total(Among(rest, some)), Total(rest - some))
    ensures Total(traffic) == Plus(Total(Among(traffic, some)), Total(traffic - some))
  {
    var rest := traffic - {p};
    AmongWithout(traffic, some, p);
    hide Total, Plus, Among;
    TotalWithout(traffic, p);
    PlusShuffles(traffic[p], Total(Among(rest, some)), Total(rest - some));
    if p in some {
      TotalWithout(Among(traffic, some), p);
    } else {
      TotalWithout(traffic - some, p);
    }
  }

  lemma TotalOfNothing()
    ensures Total(map[]) == NO_TRAFFIC
  {
  }

  lemma NothingSplits(traffic: map<PeerId, Traffic>, some: set<PeerId>)
    requires traffic == map[]
    ensures Total(traffic) == Plus(Total(Among(traffic, some)), Total(traffic - some))
  {
    assert Among(traffic, some) == traffic && traffic - some == traffic;
    hide Total, Among, Plus;
    TotalOfNothing();
    PlusShuffles(NO_TRAFFIC, NO_TRAFFIC, NO_TRAFFIC);
  }

  /** What some peers moved and what the others moved is everything. */
  lemma {:induction false} TotalSplits(traffic: map<PeerId, Traffic>, some: set<PeerId>)
    ensures Total(traffic) == Plus(Total(Among(traffic, some)), Total(traffic - some))
    decreases |traffic|
  {
    hide Total, Plus, Among;
    if traffic == map[] {
      NothingSplits(traffic, some);
    } else {
      var p :| p in traffic;
      assert (traffic - {p}).Keys == traffic.Keys - {p};
      assert |traffic - {p}| == |traffic.Keys - {p}| < |traffic.Keys| == |traffic|;
      TotalSplits(traffic - {p}, some);
      SplitStep(traffic, some, p);
    }
  }

  lemma AmongWithout(traffic: map<PeerId, Traffic>, some: set<PeerId>, p: PeerId)
    requires p in traffic
    ensures p in some ==>
      && p in Among(traffic, some) && Among(traffic, some)[p] == traffic[p]
      && Among(traffic, some) - {p} == Among(traffic - {p}, some) && traffic - some == traffic - {p} - some
    ensures p !in some ==>
      && Among(traffic, some) == Among(traffic - {p}, some)
      && p in traffic - some && traffic - some - {p} == traffic - {p} - some
  {
  }

  // ---- The stores as values ----

  datatype PeerState = PeerState(segments: seq<Segment>, traffic: Traffic, lastSeenAt: int)

  datatype Memory = Memory(peers: map<PeerId, PeerState>, retired: Traffic)

  datatype Row = Row(peerId: PeerId, segment: Segment)

  /** Tables of one broadcast; segment rows are in rowid order, where an insert comes last. */
  datatype Tables = Tables(segmentRows: seq<Row>, lastSeen: map<PeerId, int>, stats: map<PeerId, Traffic>,
    retired: Traffic)

  /** The segments of a peer, ordered by rowid. */
  function Rows(rows: seq<Row>, p: PeerId): seq<Segment> {
    if rows == [] then []
    else
      var segments, last := Rows(rows[..|rows| - 1], p), rows[|rows| - 1];
      if last.peerId == p then segments + [last.segment] else segments
  }

  function DeleteRows(rows: seq<Row>, p: PeerId, gone: set<Segment>): seq<Row> {
    if rows == [] then []
    else
      var kept, last := DeleteRows(rows[..|rows| - 1], p, gone), rows[|rows| - 1];
      if last.peerId == p && last.segment in gone then kept else kept + [last]
  }

  function DeletePeers(rows: seq<Row>, gone: set<PeerId>): seq<Row> {
    if rows == [] then []
    else
      var kept, last := DeletePeers(rows[..|rows| - 1], gone), rows[|rows| - 1];
      if last.peerId in gone then kept else kept + [last]
  }

  lemma RowsOfMore(rows: seq<Row>, row: Row, p: PeerId)
    ensures Rows(rows + [row], p) == if row.peerId == p then Rows(rows, p) + [row.segment] else Rows(rows, p)
  {
    assert (rows + [row])[..|rows|] == rows;
  }

  lemma {:induction false} RowsAfterDelete(rows: seq<Row>, p: PeerId, gone: set<Segment>, q: PeerId)
    ensures Rows(DeleteRows(rows, p, gone), q) == if q == p then Drop(Rows(rows, p), gone) else Rows(rows, q)
  {
    if rows != [] {
      var rest, last := rows[..|rows| - 1], rows[|rows| - 1];
      RowsAfterDelete(rest, p, gone, q);
      RowsOfMore(DeleteRows(rest, p, gone), last, q);
      DropOneMore(Rows(rest, p), last.segment, gone);
    }
  }

  lemma DropOneMore(s: seq<Segment>, last: Segment, gone: set<Segment>)
    ensures Drop(s + [last], gone) == if last in gone then Drop(s, gone) else Drop(s, gone) + [last]
  {
    assert (s + [last])[..|s|] == s;
  }

  lemma {:induction false} RowsAfterRetire(rows: seq<Row>, gone: set<PeerId>, q: PeerId)
    ensures Rows(DeletePeers(rows, gone), q) == if q in gone then [] else Rows(rows, q)
  {
    if rows != [] {
      RowsAfterRetire(rows[..|rows| - 1], gone, q);
      RowsOfMore(DeletePeers(rows[..|rows| - 1], gone), rows[|rows| - 1], q);
    }
  }

  function InsertRows(rows: seq<Row>, p: PeerId, segments: seq<Segment>): seq<Row> {
    if segments == [] then rows
      else InsertRows(rows, p, segments[..|segments| - 1]) + [Row(p, segments[|segments| - 1])]
  }

  lemma {:induction false} RowsAfterInsert(rows: seq<Row>, p: PeerId, segments: seq<Segment>, q: PeerId)
    ensures Rows(InsertRows(rows, p, segments), q) == if q == p then Rows(rows, p) + segments else Rows(rows, q)
  {
    if segments == [] {
      assert Rows(rows, p) + segments == Rows(rows, p);
    } else {
      var rest, last := segments[..|segments| - 1], segments[|segments| - 1];
      hide Rows;
      RowsAfterInsert(rows, p, rest, q);
      RowsOfMore(InsertRows(rows, p, rest), Row(p, last), q);
      assert InsertRows(rows, p, segments) == InsertRows(rows, p, rest) + [Row(p, last)];
      hide InsertRows;
      EndsWith(Rows(rows, p), segments);
    }
  }

  lemma EndsWith(before: seq<Segment>, segments: seq<Segment>)
    requires segments != []
    ensures before + segments == before + segments[..|segments| - 1] + [segments[|segments| - 1]]
  {
  }

  /** The rows of `p` changed to `next`: unwanted ones deleted, missing ones inserted. */
  function Written(rows: seq<Row>, p: PeerId, next: seq<Segment>): seq<Row> {
    var existing := Rows(rows, p);
    InsertRows(DeleteRows(rows, p, Elems(existing) - Elems(next)), p, Drop(next, Elems(existing)))
  }

  lemma {:induction false} DropIsKeep(s: seq<Segment>, all: set<Segment>, wanted: set<Segment>)
    requires Elems(s) <= all
    ensures Drop(s, all - wanted) == Keep(s, wanted)
  {
    if s != [] {
      assert s[|s| - 1] in Elems(s);
      assert forall x :: x in s[..|s| - 1] ==> x in Elems(s);
      DropIsKeep(s[..|s| - 1], all, wanted);
    }
  }

  /** Reading the rows back gives the rewritten order; other peers' rows are as before. */
  lemma WrittenReadsBack(rows: seq<Row>, p: PeerId, next: seq<Segment>, q: PeerId)
    ensures Rows(Written(rows, p, next), q) == if q == p then Rewritten(Rows(rows, p), next) else Rows(rows, q)
  {
    var existing := Rows(rows, p);
    var gone := Elems(existing) - Elems(next);
    RowsAfterDelete(rows, p, gone, q);
    RowsAfterInsert(DeleteRows(rows, p, gone), p, Drop(next, Elems(existing)), q);
    DropIsKeep(existing, Elems(existing), Elems(next));
  }

  datatype Op =
    | Join(peer: PeerId)
    | Append(peer: PeerId, segments: seq<Segment>)
    | Replace(peer: PeerId, segments: seq<Segment>)
    | Delta(peer: PeerId, added: seq<Segment>, removed: seq<Segment>)
    | ReportStats(peer: PeerId, traffic: Traffic)
    | Leave(peer: PeerId)
    | Sweep(cutoff: int)

  function TrafficOf(m: Memory): map<PeerId, Traffic> { map p | p in m.peers :: m.peers[p].traffic }

  function StaleInMemory(m: Memory, cutoff: int): set<PeerId> { set p | p in m.peers && m.peers[p].lastSeenAt < cutoff }

  function StaleOnDisk(t: Tables, cutoff: int): set<PeerId> { set p | p in t.lastSeen && t.lastSeen[p] < cutoff }

  /** Departing peers leave their traffic behind. */
  ghost function RetireInMemory(m: Memory, gone: set<PeerId>): Memory {
    Memory(m.peers - gone, Plus(m.retired, Total(Among(TrafficOf(m), gone))))
  }

  ghost function RetireOnDisk(t: Tables, gone: set<PeerId>): Tables {
    Tables(DeletePeers(t.segmentRows, gone), t.lastSeen - gone, t.stats - gone,
      Plus(t.retired, Total(Among(t.stats, gone))))
  }

  function Known(op: Op): Option<PeerId> {
    match op
    case Join(_) => None
    case Sweep(_) => None
    case Append(p, _) => Some(p)
    case Replace(p, _) => Some(p)
    case Delta(p, _, _) => Some(p)
    case ReportStats(p, _) => Some(p)
    case Leave(p) => Some(p)
  }

  /** An operation on an unknown peer is refused and changes nothing. */
  ghost function MemoryNext(m: Memory, op: Op, now: int, max: nat): Memory {
    if Known(op).Some? && Known(op).value !in m.peers then m
    else match op
      case Join(p) =>
        var joined := if p in m.peers then m.peers[p].(lastSeenAt := now) else PeerState([], NO_TRAFFIC, now);
        m.(peers := m.peers[p := joined])
      case Append(p, segments) =>
        m.(peers := m.peers[p := m.peers[p].(segments := MemoryAppend(m.peers[p].segments, segments, max),
          lastSeenAt := now)])
      case Replace(p, segments) =>
        m.(peers := m.peers[p := m.peers[p].(segments := MemoryReplace(segments, max), lastSeenAt := now)])
      case Delta(p, added, removed) =>
        m.(peers := m.peers[p := m.peers[p].(segments := MemoryDelta(m.peers[p].segments, added, removed, max),
          lastSeenAt := now)])
      case ReportStats(p, traffic) => m.(peers := m.peers[p := m.peers[p].(traffic := traffic, lastSeenAt := now)])
      case Leave(p) => RetireInMemory(m, {p})
      case Sweep(cutoff) => RetireInMemory(m, StaleInMemory(m, cutoff))
  }

  ghost function TablesNext(t: Tables, op: Op, now: int, max: nat): Tables {
    if Known(op).Some? && Known(op).value !in t.lastSeen then t
    else match op
      case Join(p) => t.(lastSeen := t.lastSeen[p := now],
        stats := if p in t.stats then t.stats else t.stats[p := NO_TRAFFIC])
      case Append(p, segments) =>
        t.(segmentRows := Written(t.segmentRows, p, MemoryAppend(Rows(t.segmentRows, p), segments, max)),
          lastSeen := t.lastSeen[p := now])
      case Replace(p, segments) =>
        t.(segmentRows := Written(t.segmentRows, p, MemoryReplace(segments, max)), lastSeen := t.lastSeen[p := now])
      case Delta(p, added, removed) =>
        t.(segmentRows := Written(t.segmentRows, p, MemoryDelta(Rows(t.segmentRows, p), added, removed, max)),
          lastSeen := t.lastSeen[p := now])
      case ReportStats(p, traffic) => t.(stats := t.stats[p := traffic], lastSeen := t.lastSeen[p := now])
      case Leave(p) => RetireOnDisk(t, {p})
      case Sweep(cutoff) => RetireOnDisk(t, StaleOnDisk(t, cutoff))
  }

  ghost predicate AgreeOn(m: Memory, t: Tables, p: PeerId) {
    && (p in m.peers <==> p in t.lastSeen) && (p in m.peers <==> p in t.stats)
    && Rows(t.segmentRows, p) == (if p in m.peers then m.peers[p].segments else [])
    && (p in m.peers ==>
        && t.lastSeen[p] == m.peers[p].lastSeenAt && t.stats[p] == m.peers[p].traffic
        && Distinct(m.peers[p].segments))
  }

  ghost predicate Agree(m: Memory, t: Tables) {
    m.retired == t.retired && forall p :: AgreeOn(m, t, p)
  }

  lemma SameTraffic(m: Memory, t: Tables)
    requires Agree(m, t)
    ensures TrafficOf(m) == t.stats
  {
    hide Rows;
    forall p ensures p in TrafficOf(m) <==> p in t.stats { assert AgreeOn(m, t, p); }
    forall p | p in t.stats ensures TrafficOf(m)[p] == t.stats[p] { assert AgreeOn(m, t, p); }
  }

  lemma RetireAgrees(m: Memory, t: Tables, gone: set<PeerId>)
    requires Agree(m, t)
    ensures Agree(RetireInMemory(m, gone), RetireOnDisk(t, gone))
  {
    SameTraffic(m, t);
    forall p ensures AgreeOn(RetireInMemory(m, gone), RetireOnDisk(t, gone), p) {
      assert AgreeOn(m, t, p);
      RowsAfterRetire(t.segmentRows, gone, p);
    }
  }

  lemma WriteAgreesOn(m: Memory, t: Tables, p: PeerId, next: seq<Segment>, now: int, q: PeerId)
    requires AgreeOn(m, t, p) && AgreeOn(m, t, q) && p in m.peers && Distinct(next)
    requires Rewritten(m.peers[p].segments, next) == next
    ensures AgreeOn(m.(peers := m.peers[p := m.peers[p].(segments := next, lastSeenAt := now)]),
                    t.(segmentRows := Written(t.segmentRows, p, next), lastSeen := t.lastSeen[p := now]), q)
  {
    hide Written, Rewritten, Rows, Distinct;
    WrittenReadsBack(t.segmentRows, p, next, q);
  }

  lemma WriteAgrees(m: Memory, t: Tables, p: PeerId, next: seq<Segment>, now: int)
    requires Agree(m, t) && p in m.peers && Distinct(next) && Rewritten(m.peers[p].segments, next) == next
    ensures Agree(m.(peers := m.peers[p := m.peers[p].(segments := next, lastSeenAt := now)]),
                  t.(segmentRows := Written(t.segmentRows, p, next), lastSeen := t.lastSeen[p := now]))
  {
    hide AgreeOn, Written, Rewritten, Distinct;
    var m1 := m.(peers := m.peers[p := m.peers[p].(segments := next, lastSeenAt := now)]);
    var t1 := t.(segmentRows := Written(t.segmentRows, p, next), lastSeen := t.lastSeen[p := now]);
    assert AgreeOn(m, t, p);
    forall q ensures AgreeOn(m1, t1, q) {
      assert AgreeOn(m, t, q);
      WriteAgreesOn(m, t, p, next, now, q);
    }
  }

  /** No replacement, and no delta that adds what it removes: clients compute theirs so. */
  predicate IsClean(op: Op) { !op.Replace? && (op.Delta? ==> Elems(op.added) !! Elems(op.removed)) }

  lemma NextAgrees(m: Memory, t: Tables, op: Op, now: int, max: nat)
    requires Agree(m, t) && IsClean(op)
    ensures Agree(MemoryNext(m, op, now, max), TablesNext(t, op, now, max))
  {
    if Known(op).Some? { assert AgreeOn(m, t, Known(op).value); }
    if Known(op).Some? && Known(op).value !in m.peers { return; }
    hide Written, Rewritten, MemoryDelta, MemoryAppend, Distinct, Plus, Total, Elems;
    match op {
      case Join(p) =>
        forall q ensures AgreeOn(MemoryNext(m, op, now, max), TablesNext(t, op, now, max), q) {
          assert AgreeOn(m, t, q); JoinAgrees(m, t, p, now, q);
        }
      case Append(p, segments) =>
        AppendsAgree(m.peers[p].segments, segments, max);
        DeltasAgree(m.peers[p].segments, segments, [], max);
        WriteAgrees(m, t, p, MemoryAppend(m.peers[p].segments, segments, max), now);
      case Replace(p, segments) => assert false;
      case Delta(p, added, removed) =>
        DeltasAgree(m.peers[p].segments, added, removed, max);
        WriteAgrees(m, t, p, MemoryDelta(m.peers[p].segments, added, removed, max), now);
      case ReportStats(p, traffic) =>
        forall q ensures AgreeOn(MemoryNext(m, op, now, max), TablesNext(t, op, now, max), q) {
          assert AgreeOn(m, t, q);
        }
      case Leave(p) => RetireAgrees(m, t, {p});
      case Sweep(cutoff) =>
        SameStale(m, t, cutoff);
        RetireAgrees(m, t, StaleInMemory(m, cutoff));
    }
  }

  lemma SameStale(m: Memory, t: Tables, cutoff: int)
    requires Agree(m, t)
    ensures StaleInMemory(m, cutoff) == StaleOnDisk(t, cutoff)
  {
    hide Rows;
    forall p ensures p in StaleInMemory(m, cutoff) <==> p in StaleOnDisk(t, cutoff) { assert AgreeOn(m, t, p); }
  }

  lemma JoinAgrees(m: Memory, t: Tables, p: PeerId, now: int, q: PeerId)
    requires AgreeOn(m, t, q)
    ensures AgreeOn(MemoryNext(m, Join(p), now, 0), TablesNext(t, Join(p), now, 0), q)
  {
  }

  ghost function MemoryAfter(run: seq<(Op, int)>, max: nat): Memory {
    if run == [] then Memory(map[], NO_TRAFFIC)
    else MemoryNext(MemoryAfter(run[..|run| - 1], max), run[|run| - 1].0, run[|run| - 1].1, max)
  }

  ghost function TablesAfter(run: seq<(Op, int)>, max: nat): Tables {
    if run == [] then Tables([], map[], map[], NO_TRAFFIC)
    else TablesNext(TablesAfter(run[..|run| - 1], max), run[|run| - 1].0, run[|run| - 1].1, max)
  }

  /**
   Over every run the two stores list the same peers with the same inventories, in the same order,
   and the same traffic.
   */
  lemma {:induction false} EveryRunAgrees(run: seq<(Op, int)>, max: nat)
    requires forall i :: 0 <= i < |run| ==> IsClean(run[i].0)
    ensures Agree(MemoryAfter(run, max), TablesAfter(run, max))
  {
    if run == [] {
      var m, t := MemoryAfter(run, max), TablesAfter(run, max);
      forall p ensures AgreeOn(m, t, p) {}
    } else {
      EveryRunAgrees(run[..|run| - 1], max);
      hide Agree, MemoryNext, TablesNext;
      NextAgrees(MemoryAfter(run[..|run| - 1], max), TablesAfter(run[..|run| - 1], max), run[|run| - 1].0,
        run[|run| - 1].1, max);
    }
  }

  /** What a broadcast has moved so far, with peers that have left. */
  ghost function BroadcastTotal(m: Memory): Traffic { Plus(m.retired, Total(TrafficOf(m))) }

  ghost function DiskTotal(t: Tables): Traffic { Plus(t.retired, Total(t.stats)) }

  /** Whoever goes, what was left behind and what is left make up the same total. */
  lemma RetiringConserves(retired: Traffic, traffic: map<PeerId, Traffic>, gone: set<PeerId>)
    ensures Plus(Plus(retired, Total(Among(traffic, gone))), Total(traffic - gone)) == Plus(retired, Total(traffic))
  {
    hide Plus, Total, Among;
    TotalSplits(traffic, gone);
    PlusShuffles(retired, Total(Among(traffic, gone)), Total(traffic - gone));
  }

  /** Departures and sweeps move no byte in either store: only the number of peers changes. */
  lemma DeparturesConserveTraffic(m: Memory, t: Tables, gone: set<PeerId>)
    requires Agree(m, t)
    ensures BroadcastTotal(RetireInMemory(m, gone)) == BroadcastTotal(m)
    ensures DiskTotal(RetireOnDisk(t, gone)) == DiskTotal(t) == BroadcastTotal(m)
    ensures RetireInMemory(m, gone).peers.Keys == m.peers.Keys - gone
  {
    SameTraffic(m, t);
    assert TrafficOf(RetireInMemory(m, gone)) == TrafficOf(m) - gone;
    hide Plus, Total, Among, TrafficOf, Agree;
    RetiringConserves(m.retired, TrafficOf(m), gone);
  }

  // ---- All broadcasts ----

  type BroadcastId = string

  /** What all broadcasts have moved so far. */
  ghost function GlobalTotal(stores: map<BroadcastId, Memory>): Traffic {
    Total(map b | b in stores :: BroadcastTotal(stores[b]))
  }

  /** The query adds up the traffic rows of all peers and all retired rows of all broadcasts. */
  ghost function GlobalDiskTotal(tables: map<BroadcastId, Tables>): Traffic {
    Plus(Total(map b | b in tables :: tables[b].retired), Total(map b | b in tables :: Total(tables[b].stats)))
  }

  /** One sweep goes through all broadcasts. */
  ghost function SweptStores(stores: map<BroadcastId, Memory>, cutoff: int): map<BroadcastId, Memory> {
    map b | b in stores :: RetireInMemory(stores[b], StaleInMemory(stores[b], cutoff))
  }

  ghost function SweptTables(tables: map<BroadcastId, Tables>, cutoff: int): map<BroadcastId, Tables> {
    map b | b in tables :: RetireOnDisk(tables[b], StaleOnDisk(tables[b], cutoff))
  }

  ghost predicate AllAgree(stores: map<BroadcastId, Memory>, tables: map<BroadcastId, Tables>) {
    stores.Keys == tables.Keys && forall b :: b in stores ==> Agree(stores[b], tables[b])
  }

  ghost function Sums(x: map<BroadcastId, Traffic>, y: map<BroadcastId, Traffic>): map<BroadcastId, Traffic> {
    map b | b in x && b in y :: Plus(x[b], y[b])
  }

  lemma SumsWithout(x: map<BroadcastId, Traffic>, y: map<BroadcastId, Traffic>, p: BroadcastId)
    requires p in x && p in y
    ensures p in Sums(x, y) && Sums(x, y)[p] == Plus(x[p], y[p]) && Sums(x, y) - {p} == Sums(x - {p}, y - {p})
  {
    hide Plus;
  }

  lemma PlusCrosses(a: Traffic, b: Traffic, c: Traffic, d: Traffic)
    ensures Plus(Plus(a, b), Plus(c, d)) == Plus(Plus(a, c), Plus(b, d))
  {
  }

  /** Adding up broadcast by broadcast or table by table comes to the same. */
  lemma {:induction false} TotalOfSums(x: map<BroadcastId, Traffic>, y: map<BroadcastId, Traffic>)
    requires x.Keys == y.Keys
    ensures Plus(Total(x), Total(y)) == Total(Sums(x, y))
    decreases |x|
  {
    if x == map[] {
      assert y == map[] && Sums(x, y) == map[];
      hide Plus, Sums, Total;
      TotalOfNothing();
      PlusShuffles(NO_TRAFFIC, NO_TRAFFIC, NO_TRAFFIC);
    } else {
      var p :| p in x;
      assert (x - {p}).Keys == x.Keys - {p} == (y - {p}).Keys;
      hide Total, Plus, Sums;
      SumsWithout(x, y, p);
      TotalOfSums(x - {p}, y - {p});
      TotalWithout(x, p);
      TotalWithout(y, p);
      TotalWithout(Sums(x, y), p);
      PlusCrosses(x[p], Total(x - {p}), y[p], Total(y - {p}));
    }
  }

  lemma TotalsOf(stores: map<BroadcastId, Memory>, tables: map<BroadcastId, Tables>, b: BroadcastId)
    requires AllAgree(stores, tables) && b in stores
    ensures BroadcastTotal(stores[b]) == Plus(tables[b].retired, Total(tables[b].stats))
  {
    hide Total, Plus;
    SameTraffic(stores[b], tables[b]);
  }

  /** The two stores report the same global total. */
  lemma GlobalTotalsAgree(stores: map<BroadcastId, Memory>, tables: map<BroadcastId, Tables>)
    requires AllAgree(stores, tables)
    ensures GlobalTotal(stores) == GlobalDiskTotal(tables)
  {
    hide Total, Plus, Agree, BroadcastTotal;
    var retired, active := map b | b in tables :: tables[b].retired, map b | b in tables :: Total(tables[b].stats);
    var totals := map b | b in stores :: BroadcastTotal(stores[b]);
    forall b | b in stores ensures totals[b] == Plus(retired[b], active[b]) {
      TotalsOf(stores, tables, b);
    }
    hide AllAgree;
    assert totals == Sums(retired, active);
    hide Sums;
    TotalOfSums(retired, active);
  }

  /** A sweep over all broadcasts changes neither store's global total, and they stay equal. */
  lemma SweepsConserveGlobalTraffic(stores: map<BroadcastId, Memory>, tables: map<BroadcastId, Tables>, cutoff: int)
    requires AllAgree(stores, tables)
    ensures AllAgree(SweptStores(stores, cutoff), SweptTables(tables, cutoff))
    ensures GlobalTotal(SweptStores(stores, cutoff)) == GlobalTotal(stores)
      == GlobalDiskTotal(tables) == GlobalDiskTotal(SweptTables(tables, cutoff))
  {
    var swept, disk := SweptStores(stores, cutoff), SweptTables(tables, cutoff);
    hide Total, Plus, Agree, RetireInMemory, RetireOnDisk, BroadcastTotal;
    forall b | b in stores ensures Agree(swept[b], disk[b]) && BroadcastTotal(swept[b]) == BroadcastTotal(stores[b]) {
      var gone := StaleInMemory(stores[b], cutoff);
      SameStale(stores[b], tables[b], cutoff);
      RetireAgrees(stores[b], tables[b], gone);
      DeparturesConserveTraffic(stores[b], tables[b], gone);
    }
    assert (map b | b in swept :: BroadcastTotal(swept[b])) == map b | b in stores :: BroadcastTotal(stores[b]);
    GlobalTotalsAgree(stores, tables);
    GlobalTotalsAgree(swept, disk);
  }

  // ---- The stores as the code has them ----

  /** A JavaScript set that remembers insertion order. */
  method AddEach(s: seq<Segment>, added: seq<Segment>) returns (t: seq<Segment>)
    ensures t == AddAll(s, added)
  {
    t := s;
    for i := 0 to |added|
      invariant t == AddAll(s, added[..i])
    {
      assert added[..i + 1][..i] == added[..i];
      if added[i] !in t { t := t + [added[i]]; }
    }
    assert added[..|added|] == added;
  }

  method DeleteEach(s: seq<Segment>, removed: seq<Segment>) returns (t: seq<Segment>)
    ensures t == Drop(s, Elems(removed))
  {
    t := s;
    KeepNone(s, Elems(removed[..0]));
    for i := 0 to |removed|
      invariant t == Drop(s, Elems(removed[..i]))
    {
      DropTwice(s, Elems(removed[..i]), {removed[i]});
      assert Elems(removed[..i + 1]) == Elems(removed[..i]) + {removed[i]} by {
        assert removed[..i + 1] == removed[..i] + [removed[i]];
      }
      t := Drop(t, {removed[i]});
    }
    assert removed[..|removed|] == removed;
  }

  lemma {:induction false} DropTwice(s: seq<Segment>, a: set<Segment>, b: set<Segment>)
    ensures Drop(Drop(s, a), b) == Drop(s, a + b)
  {
    if s != [] {
      var rest, last := s[..|s| - 1], s[|s| - 1];
      DropTwice(rest, a, b);
      if last in a {
        assert Drop(s, a) == Drop(rest, a);
      } else {
        KeepSplits(Drop(rest, a), [last], b);
        OneElement(last, b);
      }
    }
  }

  class MemoryStore {
    const maxSegmentsPerPeer: nat
    var peers: map<PeerId, PeerState>
    var retired: Traffic

    ghost function State(): Memory
      reads this
    {
      Memory(peers, retired)
    }

    method ReportSegments(p: PeerId, segments: seq<Segment>, replace: bool, now: int) returns (ok: bool)
      modifies this`peers
      ensures ok <==> p in old(peers)
      ensures var op := if replace then Op.Replace(p, segments) else Append(p, segments);
        State() == MemoryNext(old(State()), op, now, maxSegmentsPerPeer)
    {
      if p !in peers { return false; }
      var next := AddEach([], if replace then segments else peers[p].segments + segments);
      next := LimitInventory(next, maxSegmentsPerPeer);
      peers := peers[p := peers[p].(segments := next, lastSeenAt := now)];
      ok := true;
    }

    method ApplySegmentDelta(p: PeerId, added: seq<Segment>, removed: seq<Segment>, now: int) returns (ok: bool)
      modifies this`peers
      ensures ok <==> p in old(peers)
      ensures State() == MemoryNext(old(State()), Op.Delta(p, added, removed), now, maxSegmentsPerPeer)
    {
      if p !in peers { return false; }
      var next := DeleteEach(peers[p].segments, removed);
      next := AddEach(next, added);
      next := LimitInventory(next, maxSegmentsPerPeer);
      peers := peers[p := peers[p].(segments := next, lastSeenAt := now)];
      ok := true;
    }

    /** Retires every peer not seen since `cutoff`, one by one. */
    method RemoveStalePeers(cutoff: int) returns (removed: set<PeerId>)
      modifies this`peers, this`retired
      ensures removed == set p | p in old(peers) && old(peers)[p].lastSeenAt < cutoff
      ensures peers == map p | p in old(peers) && old(peers)[p].lastSeenAt >= cutoff :: old(peers)[p]
      ensures forall now :: State() == MemoryNext(old(State()), Sweep(cutoff), now, maxSegmentsPerPeer)
    {
      ghost var m := State();
      removed := {};
      var stale := set p | p in peers && peers[p].lastSeenAt < cutoff;
      var rest := stale;
      RetireNobody(m);
      while rest != {}
        invariant rest <= stale && removed == stale - rest
        invariant State() == RetireInMemory(m, removed)
      {
        var p :| p in rest;
        RetireOneMore(m, removed, p);
        retired := Plus(retired, peers[p].traffic);
        peers := peers - {p};
        removed := removed + {p};
        rest := rest - {p};
      }
    }

    lemma RetireNobody(m: Memory)
      ensures RetireInMemory(m, {}) == m
    {
      assert Among(TrafficOf(m), {}) == map[] && m.peers - {} == m.peers;
      hide Total, Among;
      TotalOfNothing();
      PlusShuffles(m.retired, NO_TRAFFIC, NO_TRAFFIC);
    }

    lemma RetireOneMore(m: Memory, gone: set<PeerId>, p: PeerId)
      requires p in m.peers && p !in gone
      ensures var m1 := RetireInMemory(m, gone);
        p in m1.peers && m1.peers[p] == m.peers[p]
        && RetireInMemory(m, gone + {p}) == Memory(m1.peers - {p}, Plus(m1.retired, m.peers[p].traffic))
    {
      var all, more := TrafficOf(m), Among(TrafficOf(m), gone + {p});
      assert more - {p} == Among(all, gone) && m.peers - gone - {p} == m.peers - (gone + {p});
      hide Total, Plus;
      TotalWithout(more, p);
      PlusShuffles(m.retired, all[p], Total(Among(all, gone)));
      PlusShuffles(all[p], m.retired, Total(Among(all, gone)));
      PlusCommutes(all[p], Plus(m.retired, Total(Among(all, gone))));
    }

    lemma PlusCommutes(a: Traffic, b: Traffic)
      ensures Plus(a, b) == Plus(b, a)
    {
    }
  }

  class SqliteStore {
    const maxSegmentsPerPeer: nat
    var segmentRows: seq<Row>
    var lastSeen: map<PeerId, int>
    var stats: map<PeerId, Traffic>
    var retired: Traffic

    ghost function State(): Tables
      reads this
    {
      Tables(segmentRows, lastSeen, stats, retired)
    }

    /** DELETE of one row. */
    method DeletePeerSegment(p: PeerId, segment: Segment)
      modifies this`segmentRows
      ensures segmentRows == DeleteRows(old(segmentRows), p, {segment})
    {
      var rows := segmentRows;
      segmentRows := [];
      for i := 0 to |rows|
        invariant segmentRows == DeleteRows(rows[..i], p, {segment})
      {
        assert rows[..i + 1][..i] == rows[..i];
        if !(rows[i].peerId == p && rows[i].segment == segment) { segmentRows := segmentRows + [rows[i]]; }
      }
      assert rows[..|rows|] == rows;
    }

    /** INSERT OR IGNORE of one row, which gets the largest rowid. */
    method InsertPeerSegment(p: PeerId, segment: Segment)
      modifies this`segmentRows
      ensures segmentRows == if Row(p, segment) in old(segmentRows) then old(segmentRows)
        else old(segmentRows) + [Row(p, segment)]
    {
      if Row(p, segment) !in segmentRows { segmentRows := segmentRows + [Row(p, segment)]; }
    }

    /** The rows of `p` become `next`, deleting and inserting as little as needed. */
    method WriteSegments(p: PeerId, next: seq<Segment>)
      requires Distinct(next)
      modifies this`segmentRows
      ensures segmentRows == Written(old(segmentRows), p, next)
    {
      var existing := ReadSegments(p);
      hide Rows, DeleteRows, InsertRows, Drop, Distinct;
      ghost var rows := segmentRows;
      DeleteUnwanted(p, existing, next);
      InsertMissing(p, existing, next, rows);
    }

    method DeleteUnwanted(p: PeerId, existing: seq<Segment>, next: seq<Segment>)
      modifies this`segmentRows
      ensures segmentRows == DeleteRows(old(segmentRows), p, Elems(existing) - Elems(next))
    {
      ghost var rows := segmentRows;
      ghost var unwanted: set<Segment> := {};
      NothingDeleted(rows, p);
      for i := 0 to |existing|
        invariant segmentRows == DeleteRows(rows, p, unwanted)
        invariant unwanted == (set x | x in existing[..i]) - Elems(next)
      {
        assert existing[..i + 1] == existing[..i] + [existing[i]];
        if existing[i] !in next {
          DeleteMore(rows, p, unwanted, {existing[i]});
          DeletePeerSegment(p, existing[i]);
          unwanted := unwanted + {existing[i]};
        }
      }
      assert existing[..|existing|] == existing;
    }

    method InsertMissing(p: PeerId, existing: seq<Segment>, next: seq<Segment>, ghost rows: seq<Row>)
      requires Distinct(next) && existing == Rows(rows, p)
      requires segmentRows == DeleteRows(rows, p, Elems(existing) - Elems(next))
      modifies this`segmentRows
      ensures segmentRows == InsertRows(old(segmentRows), p, Drop(next, Elems(existing)))
    {
      ghost var kept := segmentRows;
      NothingInserted(kept, p, Elems(existing));
      hide Rows, DeleteRows, InsertRows, Drop, Distinct;
      for i := 0 to |next|
        invariant segmentRows == InsertRows(kept, p, Drop(next[..i], Elems(existing)))
      {
        InsertedNext(kept, p, next, i, existing);
        if next[i] !in existing {
          NotInserted(rows, kept, p, next, i, Elems(existing) - Elems(next));
          InsertPeerSegment(p, next[i]);
        }
      }
      assert next[..|next|] == next;
    }

    lemma NothingInserted(kept: seq<Row>, p: PeerId, existing: set<Segment>)
      ensures InsertRows(kept, p, Drop([], existing)) == kept
    {
    }

    lemma InsertedNext(kept: seq<Row>, p: PeerId, next: seq<Segment>, i: nat, existing: seq<Segment>)
      requires i < |next|
      ensures var inserted := InsertRows(kept, p, Drop(next[..i], Elems(existing)));
        InsertRows(kept, p, Drop(next[..i + 1], Elems(existing)))
          == if next[i] in existing then inserted else inserted + [Row(p, next[i])]
    {
      var dropped := Drop(next[..i], Elems(existing));
      assert next[..i + 1] == next[..i] + [next[i]];
      KeepSplits(next[..i], [next[i]], Elems(existing));
      OneElement(next[i], Elems(existing));
      hide Drop;
      assert dropped + [] == dropped && (dropped + [next[i]])[..|dropped|] == dropped;
    }

    method ReadSegments(p: PeerId) returns (segments: seq<Segment>)
      ensures segments == Rows(segmentRows, p)
    {
      segments := [];
      for i := 0 to |segmentRows|
        invariant segments == Rows(segmentRows[..i], p)
      {
        assert segmentRows[..i + 1][..i] == segmentRows[..i];
        if segmentRows[i].peerId == p { segments := segments + [segmentRows[i].segment]; }
      }
      assert segmentRows[..|segmentRows|] == segmentRows;
    }

    method ApplySegmentDelta(p: PeerId, added: seq<Segment>, removed: seq<Segment>,
                             now: int) returns (stored: Option<seq<Segment>>)
      requires Distinct(Rows(segmentRows, p))
      modifies this`segmentRows, this`lastSeen
      ensures stored.Some? <==> p in old(lastSeen)
      ensures State() == TablesNext(old(State()), Op.Delta(p, added, removed), now, maxSegmentsPerPeer)
      ensures stored.Some? ==> stored.value == Rows(segmentRows, p)
    {
      if p !in lastSeen { return None; }
      var existing := ReadSegments(p);
      var next := DeleteEach(existing, removed);
      next := AddEach(next, added);
      NextIsDistinct(existing, added, removed, maxSegmentsPerPeer);
      next := LimitInventory(next, maxSegmentsPerPeer);
      hide Rows, Distinct, Written, Keep, Drop, Limited, AddAll;
      assert next == MemoryDelta(existing, added, removed, maxSegmentsPerPeer);
      hide MemoryDelta;
      Rewrite(p, next, now);
      stored := Some(Keep(existing, Elems(next)) + Drop(next, Elems(existing)));
    }

    method Rewrite(p: PeerId, next: seq<Segment>, now: int)
      requires Distinct(next) && p in lastSeen
      modifies this`segmentRows, this`lastSeen
      ensures State() == old(State()).(segmentRows := Written(old(segmentRows), p, next),
        lastSeen := old(lastSeen)[p := now])
      ensures Rows(segmentRows, p) == Rewritten(Rows(old(segmentRows), p), next)
    {
      hide Rows, Distinct, Written, Rewritten;
      WrittenReadsBack(segmentRows, p, next, p);
      WriteSegments(p, next);
      lastSeen := lastSeen[p := now];
    }

    method ReportSegments(p: PeerId, segments: seq<Segment>, replace: bool,
                          now: int) returns (stored: Option<seq<Segment>>)
      requires Distinct(Rows(segmentRows, p))
      modifies this`segmentRows, this`lastSeen
      ensures stored.Some? <==> p in old(lastSeen)
      ensures var op := if replace then Op.Replace(p, segments) else Append(p, segments);
        State() == TablesNext(old(State()), op, now, maxSegmentsPerPeer)
      ensures stored.Some? ==> stored.value == Rows(segmentRows, p)
    {
      if p !in lastSeen { return None; }
      var next := NextReport(p, segments, replace);
      hide Rows, Distinct, Written, Rewritten, MemoryAppend, MemoryReplace;
      ghost var op := if replace then Op.Replace(p, segments) else Append(p, segments);
      assert TablesNext(State(), op, now, maxSegmentsPerPeer)
        == State().(segmentRows := Written(segmentRows, p, next), lastSeen := lastSeen[p := now]);
      hide TablesNext;
      Rewrite(p, next, now);
      stored := ReadBack(p);
    }

    method NextReport(p: PeerId, segments: seq<Segment>, replace: bool) returns (next: seq<Segment>)
      ensures Distinct(next)
      ensures next == if replace then MemoryReplace(segments, maxSegmentsPerPeer)
        else MemoryAppend(Rows(segmentRows, p), segments, maxSegmentsPerPeer)
    {
      var existing := ReadSegments(p);
      var all := if replace then segments else existing + segments;
      hide Rows, Limited;
      AddAllAppends([], all);
      hide AddAll;
      next := AddEach([], all);
      LimitedIsLongestSuffix(next, maxSegmentsPerPeer);
      next := LimitInventory(next, maxSegmentsPerPeer);
    }

    method ReadBack(p: PeerId) returns (stored: Option<seq<Segment>>)
      ensures stored == Some(Rows(segmentRows, p))
    {
      var segments := ReadSegments(p);
      stored := Some(segments);
    }

    /** DELETE of all rows of a peer. */
    method DeletePeerSegments(p: PeerId)
      modifies this`segmentRows
      ensures segmentRows == DeletePeers(old(segmentRows), {p})
    {
      var rows := segmentRows;
      segmentRows := [];
      for i := 0 to |rows|
        invariant segmentRows == DeletePeers(rows[..i], {p})
      {
        assert rows[..i + 1][..i] == rows[..i];
        if rows[i].peerId != p { segmentRows := segmentRows + [rows[i]]; }
      }
      assert rows[..|rows|] == rows;
    }

    /** Adds the peer's traffic to what was retired and deletes its rows. */
    method RetirePeer(p: PeerId)
      modifies this`segmentRows, this`lastSeen, this`stats, this`retired
      ensures State() == RetireOnDisk(old(State()), {p})
    {
      RetiredOf(stats, p);
      PlusShuffles(retired, NO_TRAFFIC, NO_TRAFFIC);
      hide Total, Among, Plus, DeletePeers;
      if p in stats { retired := Plus(retired, stats[p]); }
      stats := stats - {p};
      DeletePeerSegments(p);
      lastSeen := lastSeen - {p};
    }

    /** Retires every peer not seen since `cutoff`, one by one. */
    method RemoveStalePeers(cutoff: int) returns (removed: set<PeerId>)
      modifies this`segmentRows, this`lastSeen, this`stats, this`retired
      ensures removed == set p | p in old(lastSeen) && old(lastSeen)[p] < cutoff
      ensures lastSeen == map p | p in old(lastSeen) && old(lastSeen)[p] >= cutoff :: old(lastSeen)[p]
      ensures forall now :: State() == TablesNext(old(State()), Sweep(cutoff), now, maxSegmentsPerPeer)
    {
      ghost var t := State();
      removed := {};
      var stale := set p | p in lastSeen && lastSeen[p] < cutoff;
      var rest := stale;
      RetireNoRows(t);
      while rest != {}
        invariant rest <= stale && removed == stale - rest
        invariant State() == RetireOnDisk(t, removed)
      {
        var p :| p in rest;
        RetireTwice(t, removed, {p});
        RetirePeer(p);
        removed := removed + {p};
        rest := rest - {p};
      }
    }

    lemma RetiredOf(stats: map<PeerId, Traffic>, p: PeerId)
      ensures Total(Among(stats, {p})) == if p in stats then stats[p] else NO_TRAFFIC
    {
      var one := Among(stats, {p});
      TotalOfNothing();
      if p in stats {
        assert one - {p} == map[];
        hide Total, Among;
        TotalWithout(one, p);
        PlusShuffles(stats[p], NO_TRAFFIC, NO_TRAFFIC);
      } else {
        assert one == map[];
      }
    }

    lemma RetireNoRows(t: Tables)
      ensures RetireOnDisk(t, {}) == t
    {
      assert Among(t.stats, {}) == map[] && t.stats - {} == t.stats && t.lastSeen - {} == t.lastSeen;
      hide Total, Among;
      TotalOfNothing();
      PlusShuffles(t.retired, NO_TRAFFIC, NO_TRAFFIC);
      DeleteNobody(t.segmentRows);
    }

    lemma {:induction false} DeleteNobody(rows: seq<Row>)
      ensures DeletePeers(rows, {}) == rows
    {
      if rows != [] { DeleteNobody(rows[..|rows| - 1]); }
    }

    lemma {:induction false} DeletePeersTwice(rows: seq<Row>, a: set<PeerId>, b: set<PeerId>)
      ensures DeletePeers(DeletePeers(rows, a), b) == DeletePeers(rows, a + b)
    {
      if rows != [] {
        var rest, last := rows[..|rows| - 1], rows[|rows| - 1];
        DeletePeersTwice(rest, a, b);
        var d := DeletePeers(rest, a);
        if last.peerId in a {
          assert DeletePeers(rows, a) == d;
        } else {
          assert (d + [last])[..|d|] == d;
        }
      }
    }

    lemma RetireTwice(t: Tables, a: set<PeerId>, b: set<PeerId>)
      requires a !! b
      ensures RetireOnDisk(RetireOnDisk(t, a), b) == RetireOnDisk(t, a + b)
    {
      DeletePeersTwice(t.segmentRows, a, b);
      var both := Among(t.stats, a + b);
      assert Among(both, a) == Among(t.stats, a) && both - a == Among(t.stats - a, b);
      assert t.stats - a - b == t.stats - (a + b) && t.lastSeen - a - b == t.lastSeen - (a + b);
      hide Total, Among, Plus, DeletePeers;
      TotalSplits(both, a);
      PlusShuffles(t.retired, Total(Among(t.stats, a)), Total(Among(t.stats - a, b)));
    }

    lemma NextIsDistinct(existing: seq<Segment>, added: seq<Segment>, removed: seq<Segment>, max: nat)
      requires Distinct(existing)
      ensures Distinct(MemoryDelta(existing, added, removed, max))
    {
      DropMembers(existing, Elems(removed));
      AddAllAppends(Drop(existing, Elems(removed)), added);
      LimitedIsLongestSuffix(AddAll(Drop(existing, Elems(removed)), added), max);
    }

    lemma {:induction false} NothingDeleted(rows: seq<Row>, p: PeerId)
      ensures DeleteRows(rows, p, {}) == rows
    {
      if rows != [] { NothingDeleted(rows[..|rows| - 1], p); }
    }

    lemma {:induction false} DeleteMore(rows: seq<Row>, p: PeerId, a: set<Segment>, b: set<Segment>)
      ensures DeleteRows(DeleteRows(rows, p, a), p, b) == DeleteRows(rows, p, a + b)
    {
      if rows != [] {
        var rest, last := rows[..|rows| - 1], rows[|rows| - 1];
        DeleteMore(rest, p, a, b);
        var d := DeleteRows(rest, p, a);
        if last.peerId == p && last.segment in a {
          assert DeleteRows(rows, p, a) == d;
        } else {
          assert (d + [last])[..|d|] == d;
        }
      }
    }

    lemma {:induction false} RowIsRead(rows: seq<Row>, p: PeerId, x: Segment)
      ensures Row(p, x) in rows <==> x in Rows(rows, p)
    {
      if rows != [] {
        RowIsRead(rows[..|rows| - 1], p, x);
        assert rows == rows[..|rows| - 1] + [rows[|rows| - 1]];
      }
    }

    /** A segment that still has to be inserted is not there. */
    lemma NotInserted(rows: seq<Row>, kept: seq<Row>, p: PeerId, next: seq<Segment>, i: nat, unwanted: set<Segment>)
      requires Distinct(next) && i < |next| && next[i] !in Rows(rows, p) && kept == DeleteRows(rows, p, unwanted)
      ensures Row(p, next[i]) !in InsertRows(kept, p, Drop(next[..i], Elems(Rows(rows, p))))
    {
      var inserted := Drop(next[..i], Elems(Rows(rows, p)));
      RowIsRead(InsertRows(kept, p, inserted), p, next[i]);
      RowsAfterInsert(kept, p, inserted, p);
      RowsAfterDelete(rows, p, unwanted, p);
      DropMembers(Rows(rows, p), unwanted);
      DropMembers(next[..i], Elems(Rows(rows, p)));
    }
  }
}
