/**
 Low-latency HLS parts: how the test origin slices a segment (origin/src/ll-hls.ts) and how the
 browser plugin joins the parts a viewer loaded (sdk/src/hls-plugin.ts). Parts are EXT-X-PART,
 section 4.4.4.9 of draft-pantos-hls-rfc8216bis.
 */
module PartAssembly {
  import opened ByteStrings
  import opened Sequences
  import opened Wrappers

  const TS_PACKET_BYTES: nat := 188

  // ---- Slicing ----

  /** Whole packets before a part. */
  function PacketsBefore(packets: nat, part: nat, count: nat): nat
    requires count > 0
  {
    packets * part / count
  }

  /** Where a part starts; the last one ends with the segment. */
  function Boundary(size: nat, part: nat, count: nat): nat
    requires count > 0
  {
    if part >= count then size else PacketsBefore(size / TS_PACKET_BYTES, part, count) * TS_PACKET_BYTES
  }

  datatype Range = Range(start: nat, end: nat)

  function PartRange(size: nat, index: nat, count: nat): Range
    requires count > 0
  {
    Range(Boundary(size, index, count), Boundary(size, index + 1, count))
  }

  lemma Distributes(a: nat, b: nat, c: nat)
    ensures (a + b) * c == a * c + b * c
  {
  }

  lemma SumDivides(a: nat, b: nat, c: nat)
    requires c > 0
    ensures a / c + b / c <= (a + b) / c <= a / c + b / c + 1
  {
    var p, q, r := a / c, b / c, a % c + b % c;
    assert a == p * c + a % c && b == q * c + b % c;
    Distributes(p, q, c);
    if r < c {
      Quotient(a + b, p + q, c);
    } else {
      Distributes(p + q, 1, c);
      Quotient(a + b, p + q + 1, c);
    }
  }

  /** One more part adds the rounded-down or the rounded-up share of the packets. */
  lemma SharesDifferByOne(packets: nat, part: nat, count: nat)
    requires count > 0
    ensures var more := PacketsBefore(packets, part + 1, count) - PacketsBefore(packets, part, count);
      packets / count <= more <= packets / count + 1
  {
    SumDivides(packets * part, packets, count);
    assert packets * (part + 1) == packets * part + packets;
  }

  lemma {:induction false} PacketsInside(packets: nat, part: nat, count: nat)
    requires 0 < count && part <= count
    ensures PacketsBefore(packets, part, count) <= packets
    ensures part == count ==> PacketsBefore(packets, part, count) == packets
    decreases count - part
  {
    if part == count {
      Quotient(packets * count, packets, count);
    } else {
      PacketsInside(packets, part + 1, count);
      SharesDifferByOne(packets, part, count);
    }
  }

  lemma BoundariesGrow(size: nat, part: nat, count: nat)
    requires count > 0
    ensures Boundary(size, part, count) <= Boundary(size, part + 1, count) <= size
    ensures part == 0 ==> Boundary(size, part, count) == 0
    ensures part < count ==> Boundary(size, part, count) % TS_PACKET_BYTES == 0
  {
    var packets := size / TS_PACKET_BYTES;
    if part < count {
      SharesDifferByOne(packets, part, count);
      PacketsInside(packets, part, count);
      PacketsInside(packets, part + 1, count);
    }
    NoneBefore(packets, count);
    hide PacketsBefore;
  }

  lemma NoneBefore(packets: nat, count: nat)
    requires count > 0
    ensures PacketsBefore(packets, 0, count) == 0
  {
  }

  /** The part served for an index. */
  function Part(data: Bytes, index: nat, count: nat): Bytes
    requires count > 0
  {
    BoundariesGrow(|data|, index, count);
    data[PartRange(|data|, index, count).start..PartRange(|data|, index, count).end]
  }

  function FirstParts(data: Bytes, n: nat, count: nat): seq<Bytes>
    requires count > 0
  {
    seq(n, i requires 0 <= i < n => Part(data, i, count))
  }

  lemma OneMorePart(data: Bytes, n: nat, count: nat)
    requires count > 0
    ensures Boundary(|data|, n, count) <= Boundary(|data|, n + 1, count) <= |data|
    ensures data[..Boundary(|data|, n, count)] + Part(data, n, count) == data[..Boundary(|data|, n + 1, count)]
  {
    BoundariesGrow(|data|, n, count);
  }

  /** The first parts tile the segment up to the next boundary; all of them are the whole segment. */
  lemma {:induction false} PartsTile(data: Bytes, n: nat, count: nat)
    requires count > 0
    ensures Boundary(|data|, n, count) <= |data|
    ensures Joined(FirstParts(data, n, count)) == data[..Boundary(|data|, n, count)]
    ensures n >= count ==> Joined(FirstParts(data, n, count)) == data
  {
    assert n >= count ==> Boundary(|data|, n, count) == |data| && data[..|data|] == data;
    if n == 0 {
      BoundariesGrow(|data|, 0, count);
    } else {
      hide Boundary, Part;
      PartsTile(data, n - 1, count);
      OneMorePart(data, n - 1, count);
      assert FirstParts(data, n, count)[..n - 1] == FirstParts(data, n - 1, count);
    }
  }

  /**
   Parts start on packets, and each holds the rounded-down or the rounded-up share of them; the last
   one also the rest.
   */
  lemma PartsAreEven(size: nat, index: nat, count: nat)
    requires index < count
    ensures var r, share, rest := PartRange(size, index, count), size / TS_PACKET_BYTES / count, size % TS_PACKET_BYTES;
      && r.start % TS_PACKET_BYTES == 0 && r.start <= r.end <= size
      && (var bytes := if index + 1 < count then r.end - r.start else r.end - r.start - rest;
          bytes == share * TS_PACKET_BYTES || bytes == (share + 1) * TS_PACKET_BYTES)
  {
    var packets := size / TS_PACKET_BYTES;
    BoundariesGrow(size, index, count);
    SharesDifferByOne(packets, index, count);
    PacketsInside(packets, index + 1, count);
    hide PacketsBefore;
  }

  // ---- Joining ----

  /** The parts of one segment that a viewer has loaded, until they were joined or given up. */
  datatype Loading = Loading(parts: map<nat, Bytes>, settled: bool)

  function Recorded(s: Loading, index: nat, data: Bytes): Loading {
    if s.settled then s else s.(parts := s.parts[index := data])
  }

  /**
   The playlist lists the segment with `partCount` parts, or not at all when that is 0. With fewer
   parts loaded the assembly waits; otherwise it settles, with a result if no index is missing.
   */
  predicate Waits(s: Loading, partCount: nat) { s.settled || partCount == 0 || |s.parts| < partCount }

  ghost function Tried(s: Loading, partCount: nat): Loading {
    if Waits(s, partCount) then s else Loading(map[], true)
  }

  ghost function ResultOf(s: Loading, partCount: nat): Option<Bytes> {
    if !Waits(s, partCount) && IsPrefix(s.parts) then Some(Joined(InOrder(s.parts))) else None
  }

  class Assembly {
    var parts: map<nat, Bytes>
    var settled: bool

    ghost function State(): Loading
      reads this
    {
      Loading(parts, settled)
    }

    constructor ()
      ensures State() == Loading(map[], false)
    {
      parts, settled := map[], false;
    }

    method RecordPart(index: nat, data: Bytes)
      modifies this`parts
      ensures State() == Recorded(old(State()), index, data)
    {
      if !settled { parts := parts[index := data]; }
    }

    /** Joins the parts once as many were loaded as the playlist lists. */
    method Assemble(partCount: nat) returns (data: Option<Bytes>)
      modifies this
      ensures State() == Tried(old(State()), partCount) && data == ResultOf(old(State()), partCount)
    {
      if settled || partCount == 0 || |parts| < partCount { return None; }
      settled := true;
      var ordered: seq<Bytes> := [];
      ghost var loaded := parts;
      for index := 0 to |parts|
        invariant |ordered| == index && parts == loaded
        invariant forall i :: 0 <= i < index ==> i in parts && ordered[i] == parts[i]
      {
        if index !in parts {
          parts := map[];
          return None;
        }
        ordered := ordered + [parts[index]];
      }
      assert ordered == InOrder(parts);
      parts := map[];
      var buffer := Join(ordered);
      data := Some(buffer[..]);
    }
  }

  /** No index is missing before the last one. */
  ghost predicate IsPrefix(parts: map<nat, Bytes>) { forall i :: 0 <= i < |parts| ==> i in parts }

  function InOrder(parts: map<nat, Bytes>): seq<Bytes>
    requires IsPrefix(parts)
  {
    seq(|parts|, i requires 0 <= i < |parts| => parts[i])
  }

  function Below(n: nat): (s: set<nat>)
    ensures |s| == n && forall i: nat :: i in s <==> i < n
  {
    if n == 0 then {} else Below(n - 1) + {n - 1}
  }

  function Lengths(parts: seq<Bytes>): nat {
    if parts == [] then 0 else Lengths(parts[..|parts| - 1]) + |parts[|parts| - 1]|
  }

  lemma {:induction false} LengthsGrow(parts: seq<Bytes>, n: nat)
    requires n <= |parts|
    ensures Lengths(parts[..n]) <= Lengths(parts)
    decreases |parts| - n
  {
    if n < |parts| {
      LengthsGrow(parts, n + 1);
      assert parts[..n + 1][..n] == parts[..n];
    } else {
      assert parts[..n] == parts;
    }
  }

  /** Copies the parts one after another into one buffer. */
  method Join(ordered: seq<Bytes>) returns (data: array<bv8>)
    ensures data[..] == Joined(ordered) && fresh(data)
  {
    var total := 0;
    for i := 0 to |ordered|
      invariant total == Lengths(ordered[..i])
    {
      assert ordered[..i + 1][..i] == ordered[..i];
      total := total + |ordered[i]|;
    }
    assert ordered[..|ordered|] == ordered;
    data := new bv8[total];
    var offset := 0;
    for i := 0 to |ordered|
      invariant offset == Lengths(ordered[..i]) <= data.Length == total
      invariant data[..offset] == Joined(ordered[..i])
    {
      var bytes := ordered[i];
      assert ordered[..i + 1][..i] == ordered[..i];
      LengthsGrow(ordered, i + 1);
      ghost var before := data[..offset];
      forall k | 0 <= k < |bytes| { data[offset + k] := bytes[k]; }
      assert data[..offset + |bytes|] == before + bytes;
      offset := offset + |bytes|;
    }
    assert data[..offset] == data[..];
  }

  // ---- Slicing, then joining ----

  /** The parts loaded are parts the origin served. */
  ghost predicate Served(parts: map<nat, Bytes>, data: Bytes, count: nat)
    requires count > 0
  {
    forall i :: i in parts ==> i < count && parts[i] == Part(data, i, count)
  }

  /** Recording served parts, in any order and any number of times, keeps them served parts. */
  lemma RecordKeepsServed(parts: map<nat, Bytes>, data: Bytes, count: nat, index: nat)
    requires index < count && Served(parts, data, count)
    ensures Served(parts[index := Part(data, index, count)], data, count)
  {
  }

  lemma ServedInOrder(parts: map<nat, Bytes>, data: Bytes, count: nat)
    requires count > 0 && Served(parts, data, count) && IsPrefix(parts)
    ensures |parts| <= count && InOrder(parts) == FirstParts(data, |parts|, count)
  {
    hide Part;
    assert parts.Keys <= Below(count);
    SetSizes(parts.Keys, Below(count));
    var a, b := InOrder(parts), FirstParts(data, |parts|, count);
    forall i | 0 <= i < |parts| ensures a[i] == b[i] { assert i in parts; }
  }

  /**
   Whatever was loaded: a result is the beginning of the segment, and there is one only if no part of
   it is missing.
   */
  lemma JoinsToBeginning(parts: map<nat, Bytes>, data: Bytes, count: nat)
    requires count > 0 && Served(parts, data, count) && IsPrefix(parts)
    ensures |parts| <= count && Boundary(|data|, |parts|, count) <= |data|
    ensures Joined(InOrder(parts)) == data[..Boundary(|data|, |parts|, count)]
  {
    hide Part, Boundary, Joined, FirstParts, InOrder;
    ServedInOrder(parts, data, count);
    PartsTile(data, |parts|, count);
  }

  /**
   One load of a part, after which the assembly is tried: the index, unless the part belongs to another
   segment, and the number of parts that the playlist has for the segment then, 0 while it does not list it.
   */
  datatype Try = Try(index: Option<nat>, listed: nat)

  function LoadedBy(s: Loading, t: Try, data: Bytes, count: nat): Loading
    requires count > 0
  {
    if t.index.Some? then Recorded(s, t.index.value, Part(data, t.index.value, count)) else s
  }

  ghost function After(data: Bytes, count: nat, tries: seq<Try>): Loading
    requires count > 0
  {
    if tries == [] then Loading(map[], false)
    else
      var n := |tries| - 1;
      Tried(LoadedBy(After(data, count, tries[..n]), tries[n], data, count), tries[n].listed)
  }

  /** What the assembly hands on over all tries. */
  ghost function Results(data: Bytes, count: nat, tries: seq<Try>): seq<Bytes>
    requires count > 0
  {
    if tries == [] then []
    else
      var n := |tries| - 1;
      var result := ResultOf(LoadedBy(After(data, count, tries[..n]), tries[n], data, count), tries[n].listed);
      Results(data, count, tries[..n]) + (if result.Some? then [result.value] else [])
  }

  /** The indexes loaded so far. */
  function Indexes(tries: seq<Try>): set<nat> { set t | t in tries && t.index.Some? :: t.index.value }

  ghost predicate IndexesBelow(tries: seq<Try>, count: nat) {
    forall t :: t in tries && t.index.Some? ==> t.index.value < count
  }

  /** At this try the playlist lists the segment, with no more parts than were loaded. */
  predicate Settles(tries: seq<Try>, k: nat)
    requires k < |tries|
  {
    0 < tries[k].listed <= |Indexes(tries[..k + 1])|
  }

  ghost predicate WaitsUntil(tries: seq<Try>, k: nat)
    requires k <= |tries|
  {
    forall j :: 0 <= j < k ==> !Settles(tries, j)
  }

  lemma WaitsUntilPrefix(tries: seq<Try>, n: nat, k: nat)
    requires k <= n <= |tries|
    ensures WaitsUntil(tries[..n], k) <==> WaitsUntil(tries, k)
    ensures k < n ==> (Settles(tries[..n], k) <==> Settles(tries, k))
  {
    forall j | 0 <= j < n ensures Settles(tries[..n], j) <==> Settles(tries, j) {
      assert tries[..n][..j + 1] == tries[..j + 1];
    }
  }

  lemma IndexesGrow(tries: seq<Try>, n: nat)
    requires n < |tries|
    ensures Indexes(tries[..n + 1])
      == Indexes(tries[..n]) + (if tries[n].index.Some? then {tries[n].index.value} else {})
  {
    assert tries[..n + 1] == tries[..n] + [tries[n]];
  }

  /** One more load of a part while the assembly waits. */
  lemma LoadedIsServed(s: Loading, t: Try, data: Bytes, count: nat, loaded: set<nat>)
    requires count > 0 && !s.settled && s.parts.Keys == loaded && Served(s.parts, data, count)
    requires t.index.Some? ==> t.index.value < count
    ensures var s1 := LoadedBy(s, t, data, count);
      && !s1.settled && Served(s1.parts, data, count)
      && s1.parts.Keys == loaded + (if t.index.Some? then {t.index.value} else {})
      && |s1.parts| == |s1.parts.Keys|
  {
    hide Part;
    if t.index.Some? { RecordKeepsServed(s.parts, data, count, t.index.value); }
  }

  /** Until the first try that settles it, the assembly holds the parts loaded and hands on nothing. */
  lemma {:induction false} WaitingAfter(data: Bytes, count: nat, tries: seq<Try>)
    requires count > 0 && IndexesBelow(tries, count) && WaitsUntil(tries, |tries|)
    ensures Results(data, count, tries) == [] && !After(data, count, tries).settled
    ensures After(data, count, tries).parts.Keys == Indexes(tries)
    ensures Served(After(data, count, tries).parts, data, count)
    decreases |tries|, 1
  {
    if tries != [] {
      var n := |tries| - 1;
      assert tries[..n + 1] == tries && !Settles(tries, n);
      WaitsUntilPrefix(tries, n, n);
      hide LoadedBy, Indexes, Served, WaitsUntil;
      var s := LoadedAtEnd(data, count, tries);
    }
  }

  lemma PrefixIffBelow(parts: map<nat, Bytes>)
    ensures IsPrefix(parts) <==> parts.Keys == Below(|parts.Keys|)
  {
    assert |parts| == |parts.Keys|;
    if IsPrefix(parts) {
      assert Below(|parts|) <= parts.Keys;
      SetSizes(Below(|parts|), parts.Keys);
    }
  }

  /** What the loaded indexes amount to when the assembly settles. */
  function Assembled(data: Bytes, count: nat, loaded: set<nat>): seq<Bytes>
    requires count > 0
  {
    BoundaryInside(|data|, |loaded|, count);
    if loaded == Below(|loaded|) then [data[..Boundary(|data|, |loaded|, count)]] else []
  }

  lemma BoundaryInside(size: nat, n: nat, count: nat)
    requires count > 0
    ensures Boundary(size, n, count) <= size
  {
    BoundariesGrow(size, n, count);
  }

  /** What joining the loaded parts yields. */
  lemma SettledResult(s: Loading, listed: nat, data: Bytes, count: nat)
    requires count > 0 && !s.settled && Served(s.parts, data, count) && 0 < listed <= |s.parts|
    ensures Tried(s, listed).settled
    ensures var result := ResultOf(s, listed);
      (if result.Some? then [result.value] else []) == Assembled(data, count, s.parts.Keys)
  {
    hide Served, Below, Joined, InOrder, IsPrefix, Boundary, Part;
    assert |s.parts| == |s.parts.Keys|;
    PrefixIffBelow(s.parts);
    if IsPrefix(s.parts) { JoinsToBeginning(s.parts, data, count); }
  }

  lemma LastTry(data: Bytes, count: nat, tries: seq<Try>, s: Loading)
    requires count > 0 && tries != []
    requires var n := |tries| - 1; s == LoadedBy(After(data, count, tries[..n]), tries[n], data, count)
    requires Results(data, count, tries[..|tries| - 1]) == []
    ensures var listed := tries[|tries| - 1].listed;
      && After(data, count, tries) == Tried(s, listed)
      && Results(data, count, tries) == (if ResultOf(s, listed).Some? then [ResultOf(s, listed).value] else [])
  {
    hide LoadedBy, Tried, ResultOf;
  }

  /** At the end of `tries`, the last of which settles, the assembly holds the parts loaded. */
  lemma {:induction false} LoadedAtEnd(data: Bytes, count: nat, tries: seq<Try>) returns (s: Loading)
    requires count > 0 && IndexesBelow(tries, count) && tries != [] && WaitsUntil(tries, |tries| - 1)
    ensures var n := |tries| - 1; s == LoadedBy(After(data, count, tries[..n]), tries[n], data, count)
    ensures !s.settled && Served(s.parts, data, count) && s.parts.Keys == Indexes(tries) && |s.parts| == |s.parts.Keys|
    ensures Results(data, count, tries[..|tries| - 1]) == []
    decreases |tries|, 0
  {
    var n := |tries| - 1;
    assert tries[..n + 1] == tries && tries[n] in tries;
    assert IndexesBelow(tries[..n], count);
    hide After, Results, LoadedBy, Indexes, Served;
    WaitsUntilPrefix(tries, n, n);
    WaitingAfter(data, count, tries[..n]);
    IndexesGrow(tries, n);
    s := LoadedBy(After(data, count, tries[..n]), tries[n], data, count);
    LoadedIsServed(After(data, count, tries[..n]), tries[n], data, count, Indexes(tries[..n]));
  }

  lemma SettlingTry(data: Bytes, count: nat, tries: seq<Try>)
    requires count > 0 && IndexesBelow(tries, count) && tries != []
    requires WaitsUntil(tries, |tries| - 1) && Settles(tries, |tries| - 1)
    ensures After(data, count, tries).settled && Results(data, count, tries) == Assembled(data, count, Indexes(tries))
  {
    assert tries[..|tries|] == tries;
    hide After, Results, LoadedBy, Indexes, IndexesBelow, Served, Assembled, ResultOf, Tried, WaitsUntil;
    var s := LoadedAtEnd(data, count, tries);
    LastTry(data, count, tries, s);
    SettledResult(s, tries[|tries| - 1].listed, data, count);
  }

  /**
   The first try at which the playlist lists the segment with no more parts than were loaded decides:
   if the indexes loaded until then have no gap, the only result is the segment up to their end.
   */
  lemma {:induction false} ResultsAre(data: Bytes, count: nat, tries: seq<Try>, k: nat)
    requires count > 0 && IndexesBelow(tries, count) && k <= |tries|
    requires WaitsUntil(tries, k) && (k < |tries| ==> Settles(tries, k))
    ensures Results(data, count, tries) == if k == |tries| then [] else Assembled(data, count, Indexes(tries[..k + 1]))
    ensures k < |tries| ==> After(data, count, tries).settled
  {
    hide Assembled, WaitsUntil, Settles, Part, Indexes;
    if k == |tries| {
      WaitingAfter(data, count, tries);
    } else if k == |tries| - 1 {
      SettlingTry(data, count, tries);
      assert tries[..k + 1] == tries;
    } else {
      var n := |tries| - 1;
      WaitsUntilPrefix(tries, n, k);
      ResultsAre(data, count, tries[..n], k);
      assert tries[..n][..k + 1] == tries[..k + 1];
    }
  }

  lemma FirstSettling(tries: seq<Try>) returns (k: nat)
    ensures k <= |tries| && WaitsUntil(tries, k) && (k < |tries| ==> Settles(tries, k))
  {
    k := 0;
    while k < |tries| && !Settles(tries, k)
      invariant k <= |tries| && WaitsUntil(tries, k)
    {
      k := k + 1;
    }
  }

  lemma IndexesInside(tries: seq<Try>, k: nat, count: nat)
    requires k < |tries| && IndexesBelow(tries, count)
    ensures Indexes(tries[..k + 1]) <= Below(count) && |Indexes(tries[..k + 1])| <= count
  {
    assert forall t :: t in tries[..k + 1] ==> t in tries;
    SetSizes(Indexes(tries[..k + 1]), Below(count));
  }

  /**
   While the playlist lists the segment, early or late, with all its parts: whatever the order in which
   served parts are loaded, and however often each is, the viewer gets one segment, exactly the original,
   if some load finds it listed and every part loaded, and none otherwise.
   */
  lemma RoundTrip(data: Bytes, count: nat, tries: seq<Try>)
    requires count > 0 && IndexesBelow(tries, count) && forall t :: t in tries ==> t.listed == 0 || t.listed == count
    ensures Results(data, count, tries) ==
      if exists k :: 0 <= k < |tries| && tries[k].listed == count && Below(count) <= Indexes(tries[..k + 1])
      then [data] else []
  {
    var k := FirstSettling(tries);
    ResultsAre(data, count, tries, k);
    if k < |tries| {
      assert tries[k] in tries;
      hide IndexesBelow, Results, Boundary, Part;
      IndexesInside(tries, k, count);
      SetSizes(Indexes(tries[..k + 1]), Below(count));
      WholeIsAssembled(data, count, Indexes(tries[..k + 1]));
    } else {
      forall j | 0 <= j < |tries| && Below(count) <= Indexes(tries[..j + 1]) ensures tries[j].listed != count {
        SetSizes(Below(count), Indexes(tries[..j + 1]));
        assert !Settles(tries, j);
      }
    }
  }

  lemma WholeIsAssembled(data: Bytes, count: nat, loaded: set<nat>)
    requires count > 0 && loaded == Below(count)
    ensures Assembled(data, count, loaded) == [data]
  {
    assert data[..|data|] == data;
  }

  /** Fewer parts than the origin served end before the segment does, unless it is empty. */
  lemma BoundaryIsShortIff(size: nat, n: nat, count: nat)
    requires count > 0
    ensures Boundary(size, n, count) < size <==> n < count && size > 0
  {
    var packets := size / TS_PACKET_BYTES;
    if n < count && packets > 0 {
      var before := PacketsBefore(packets, n, count);
      assert before * count <= packets * n < packets * count;
      if before >= packets { Distributes(before - packets, packets, count); }
      assert before < packets;
    }
  }

  lemma AssembledCases(data: Bytes, count: nat, loaded: set<nat>)
    requires count > 0 && |loaded| <= count
    ensures var results := Assembled(data, count, loaded);
      && (results == [] <==> loaded != Below(|loaded|))
      && (results == [data] <==> loaded == Below(|loaded|) && (|loaded| == count || data == []))
      && (results != [] && results != [data] ==> |results| == 1 && results[0] < data)
  {
    var end := Boundary(|data|, |loaded|, count);
    BoundaryIsShortIff(|data|, |loaded|, count);
    BoundaryInside(|data|, |loaded|, count);
    assert data[..|data|] == data;
    hide Boundary, Below;
  }

  /**
   Whatever the playlist lists: what the first settling try hands on is the original, or nothing, or a proper
   beginning of it. It is a proper beginning exactly if the first parts were loaded without a gap but not all,
   which takes a playlist that lists fewer parts than the origin served.
   */
  lemma BeginningIff(data: Bytes, count: nat, tries: seq<Try>, k: nat)
    requires count > 0 && IndexesBelow(tries, count) && k < |tries| && WaitsUntil(tries, k) && Settles(tries, k)
    ensures var loaded, results := Indexes(tries[..k + 1]), Results(data, count, tries);
      && (results == [] <==> loaded != Below(|loaded|))
      && (results == [data] <==> loaded == Below(|loaded|) && (|loaded| == count || data == []))
      && (results != [] && results != [data] ==>
        |results| == 1 && results[0] < data && tries[k].listed <= |loaded| < count)
  {
    hide Results, Boundary, Part, Indexes, IndexesBelow, Below, Assembled;
    ResultsAre(data, count, tries, k);
    IndexesInside(tries, k, count);
    AssembledCases(data, count, Indexes(tries[..k + 1]));
  }
}
