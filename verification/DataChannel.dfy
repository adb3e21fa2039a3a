/**
 One segment over a WebRTC data channel (peer/src/webrtc-transport.ts; sdk/src/webrtc-peer.ts speaks
 the same protocol): metadata, 16 KiB chunks, a receipt. A channel delivers frames in order and
 loses none while it is open. The receiver must hold against any frames at all.
 */
module DataChannel {
  import opened ByteStrings
  import opened Wrappers

  const CHUNK_BYTES: nat := 16384

  /** `byteLength` and `chunkCount` are `None` when they are not safe integers; `Malformed` is anything else. */
  datatype Frame =
    | Response(segmentName: string, byteLength: Option<int>, chunkCount: Option<int>)
    | NotFound
    | Chunk(bytes: Bytes)
    | Malformed

  datatype Outcome = Waiting | Resolved(data: Bytes) | Failed

  datatype Declared = Declared(bytes: nat, chunks: nat)

  /** `receipts` counts the acknowledgements sent back. */
  datatype Receiver = Receiver(chunks: seq<Bytes>, declared: Option<Declared>, received: nat, outcome: Outcome,
    receipts: nat)

  const IDLE := Receiver([], None, 0, Waiting, 0)

  function ChunkCount(bytes: nat): nat { (bytes + CHUNK_BYTES - 1) / CHUNK_BYTES }

  predicate IsAcceptable(f: Frame, name: string, maxBytes: nat) {
    && f.Response? && f.segmentName == name && f.byteLength.Some? && f.chunkCount.Some?
    && 0 <= f.byteLength.value <= maxBytes && 0 <= f.chunkCount.value <= ChunkCount(maxBytes)
  }

  /** `complete`: resolves once the declared number of chunks has arrived, if they have the declared length. */
  function Completed(r: Receiver): Receiver {
    if r.declared.None? || |r.chunks| != r.declared.value.chunks then r
    else if r.received != r.declared.value.bytes then r.(outcome := Failed)
    else r.(outcome := Resolved(Joined(r.chunks)), receipts := r.receipts + 1)
  }

  /** What one incoming frame does. Nothing is handled after the promise has settled. */
  function Received(r: Receiver, f: Frame, name: string, maxBytes: nat): Receiver {
    if r.outcome != Waiting then r
    else match f
      case NotFound => r.(outcome := Failed, receipts := r.receipts + 1)
      case Malformed => r.(outcome := Failed)
      case Response(_, _, _) =>
        if !IsAcceptable(f, name, maxBytes) then r.(outcome := Failed)
        else Completed(r.(declared := Some(Declared(f.byteLength.value, f.chunkCount.value))))
      case Chunk(bytes) =>
        if r.declared.None? || |bytes| > CHUNK_BYTES then r.(outcome := Failed)
        else
          var r1 := r.(chunks := r.chunks + [bytes], received := r.received + |bytes|);
          if |r1.chunks| > r.declared.value.chunks || r1.received > r.declared.value.bytes then r1.(outcome := Failed)
            else Completed(r1)
  }

  function After(frames: seq<Frame>, name: string, maxBytes: nat): Receiver {
    if frames == [] then IDLE
      else Received(After(frames[..|frames| - 1], name, maxBytes), frames[|frames| - 1], name, maxBytes)
  }

  // ---- Any frames at all ----

  /** What a receiver holds is bounded, and what it resolves with has the length declared last. */
  ghost predicate Contained(r: Receiver, maxBytes: nat) {
    && r.received == |Joined(r.chunks)| <= maxBytes + CHUNK_BYTES
    && (r.declared.Some? ==> r.declared.value.bytes <= maxBytes && r.declared.value.chunks <= ChunkCount(maxBytes))
    && (r.outcome == Waiting ==> r.received <= maxBytes && |r.chunks| <= ChunkCount(maxBytes) && r.receipts == 0)
    && |r.chunks| <= ChunkCount(maxBytes) + 1 && r.receipts <= 1
    && (r.outcome.Resolved? ==>
          r.declared.Some? && r.outcome.data == Joined(r.chunks) && |r.outcome.data| == r.declared.value.bytes &&
            r.receipts == 1)
  }

  lemma ReceivedIsContained(r: Receiver, f: Frame, name: string, maxBytes: nat)
    requires Contained(r, maxBytes)
    ensures Contained(Received(r, f, name, maxBytes), maxBytes)
    ensures r.outcome != Waiting ==> Received(r, f, name, maxBytes) == r
  {
    if f.Chunk? { assert (r.chunks + [f.bytes])[..|r.chunks|] == r.chunks; }
  }

  lemma {:induction false} AnyFramesAreContained(frames: seq<Frame>, name: string, maxBytes: nat)
    ensures Contained(After(frames, name, maxBytes), maxBytes)
  {
    if frames != [] {
      AnyFramesAreContained(frames[..|frames| - 1], name, maxBytes);
      ReceivedIsContained(After(frames[..|frames| - 1], name, maxBytes), frames[|frames| - 1], name, maxBytes);
    }
  }

  function ChunksOf(frames: seq<Frame>): seq<Bytes> {
    if frames == [] then []
    else
      var rest, last := ChunksOf(frames[..|frames| - 1]), frames[|frames| - 1];
      if last.Chunk? then rest + [last.bytes] else rest
  }

  /** These frames announce a segment of this name and length and bring all of it in order. */
  ghost predicate Brings(frames: seq<Frame>, name: string, data: Bytes) {
    data == Joined(ChunksOf(frames)) && Response(name, Some(|data|), Some(|ChunksOf(frames)|)) in frames
  }

  /** A receiver that waits holds all chunks and knows what was declared. */
  ghost predicate Gathers(r: Receiver, frames: seq<Frame>, name: string) {
    && r.chunks == ChunksOf(frames)
    && (r.declared.Some? ==> Response(name, Some(r.declared.value.bytes), Some(r.declared.value.chunks)) in frames)
  }

  lemma GathersOneMore(r: Receiver, frames: seq<Frame>, f: Frame, name: string, maxBytes: nat)
    requires r.outcome == Waiting && Contained(r, maxBytes) && Gathers(r, frames, name)
    ensures var r1 := Received(r, f, name, maxBytes);
      && (r1.outcome == Waiting ==> Gathers(r1, frames + [f], name))
      && (r1.outcome.Resolved? ==> Brings(frames + [f], name, r1.outcome.data))
  {
    hide Joined, ChunkCount;
    ReceivedIsContained(r, f, name, maxBytes);
    assert (frames + [f])[..|frames|] == frames;
    assert f in frames + [f] && forall g :: g in frames ==> g in frames + [f];
  }

  /**
   A receiver resolves only with the bytes of all chunks that had arrived, in their order, and only
   under metadata that names the segment it asked for with their number and length.
   */
  lemma {:induction false} ResolvesWithWhatArrived(frames: seq<Frame>, name: string, maxBytes: nat)
    ensures var r := After(frames, name, maxBytes);
      && (r.outcome == Waiting ==> Gathers(r, frames, name))
      && (r.outcome.Resolved? ==> exists k :: 0 <= k <= |frames| && Brings(frames[..k], name, r.outcome.data))
  {
    if frames == [] { return; }
    hide Gathers, Brings, Contained;
    var n := |frames| - 1;
    var rest, f := frames[..n], frames[n];
    ResolvesWithWhatArrived(rest, name, maxBytes);
    AnyFramesAreContained(rest, name, maxBytes);
    assert frames == rest + [f] && frames[..|frames|] == frames;
    var before := After(rest, name, maxBytes);
    ReceivedIsContained(before, f, name, maxBytes);
    hide Received;
    if before.outcome == Waiting {
      GathersOneMore(before, rest, f, name, maxBytes);
    } else if before.outcome.Resolved? {
      var k :| 0 <= k <= n && Brings(rest[..k], name, before.outcome.data);
      assert frames[..k] == rest[..k];
    }
  }

  // ---- An honest sender ----

  function Slice(data: Bytes, i: nat): Bytes
    requires i < ChunkCount(|data|)
  {
    data[i * CHUNK_BYTES..if (i + 1) * CHUNK_BYTES < |data| then (i + 1) * CHUNK_BYTES else |data|]
  }

  /** The frames of a segment: its metadata and the first `n` chunks. */
  function Frames(name: string, data: Bytes, n: nat): seq<Frame>
    requires n <= ChunkCount(|data|)
  {
    [Response(name, Some(|data|), Some(ChunkCount(|data|)))] + seq(n, i requires 0 <= i < n => Chunk(Slice(data, i)))
  }

  function AllFrames(name: string, data: Bytes): seq<Frame> { Frames(name, data, ChunkCount(|data|)) }

  method ServeSegment(name: string, data: Bytes) returns (frames: seq<Frame>)
    ensures frames == AllFrames(name, data)
  {
    frames := [Response(name, Some(|data|), Some(ChunkCount(|data|)))];
    var offset := 0;
    ghost var n := 0;
    while offset < |data|
      invariant 0 <= n <= ChunkCount(|data|) && offset == n * CHUNK_BYTES
      invariant frames == Frames(name, data, n)
    {
      var end := if offset + CHUNK_BYTES < |data| then offset + CHUNK_BYTES else |data|;
      frames := frames + [Chunk(data[offset..end])];
      offset := offset + CHUNK_BYTES;
      n := n + 1;
    }
  }

  function Sent(data: Bytes, n: nat): nat { if n * CHUNK_BYTES < |data| then n * CHUNK_BYTES else |data| }

  /** The receiver holds exactly the first `n` chunks. */
  ghost predicate Holds(r: Receiver, data: Bytes, n: nat) {
    && |r.chunks| == n && Joined(r.chunks) == data[..Sent(data, n)] && r.received == Sent(data, n)
    && r.declared == Some(Declared(|data|, ChunkCount(|data|)))
    && (if n < ChunkCount(|data|) then r.outcome == Waiting && r.receipts == 0
        else r.outcome == Resolved(data) && r.receipts == 1)
  }

  lemma SlicesTile(data: Bytes, n: nat)
    requires n < ChunkCount(|data|)
    ensures data[..Sent(data, n)] + Slice(data, n) == data[..Sent(data, n + 1)]
    ensures Sent(data, n) + |Slice(data, n)| == Sent(data, n + 1)
    ensures |Slice(data, n)| <= CHUNK_BYTES && (n + 1 == ChunkCount(|data|) <==> Sent(data, n + 1) == |data|)
  {
  }

  lemma OneMoreChunk(r: Receiver, name: string, data: Bytes, n: nat, maxBytes: nat)
    requires n < ChunkCount(|data|) && Holds(r, data, n)
    ensures Holds(Received(r, Chunk(Slice(data, n)), name, maxBytes), data, n + 1)
  {
    SlicesTile(data, n);
    var bytes := Slice(data, n);
    assert (r.chunks + [bytes])[..n] == r.chunks;
    assert data[..|data|] == data;
    hide Slice, ChunkCount;
  }

  /** After the metadata and `n` chunks the receiver holds exactly that much of the segment. */
  lemma {:induction false} ArrivesInOrder(name: string, data: Bytes, n: nat, maxBytes: nat)
    requires |data| <= maxBytes && n <= ChunkCount(|data|)
    ensures Holds(After(Frames(name, data, n), name, maxBytes), data, n)
  {
    var frames := Frames(name, data, n);
    if n == 0 {
      CountFits(|data|, maxBytes);
      assert frames[..0] == [];
    } else {
      ArrivesInOrder(name, data, n - 1, maxBytes);
      assert frames[..n] == Frames(name, data, n - 1) && frames[n] == Chunk(Slice(data, n - 1));
      hide Holds, Received, Frames, Slice;
      OneMoreChunk(After(frames[..n], name, maxBytes), name, data, n - 1, maxBytes);
    }
  }

  lemma CountFits(bytes: nat, maxBytes: nat)
    requires bytes <= maxBytes
    ensures ChunkCount(bytes) <= ChunkCount(maxBytes)
  {
  }

  /**
   Whoever asked for this segment gets every one up to the limit, an empty one too, byte for byte and
   acknowledges it once; a larger one, or one under another name, is refused at once.
   */
  lemma DeliveredIffWithinLimit(name: string, sent: string, data: Bytes, maxBytes: nat)
    ensures var r := After(AllFrames(sent, data), name, maxBytes);
      if sent == name && |data| <= maxBytes then r.outcome == Resolved(data) && r.receipts == 1
      else r.outcome == Failed && r.receipts == 0 && r.chunks == []
  {
    if sent == name && |data| <= maxBytes {
      ArrivesInOrder(name, data, ChunkCount(|data|), maxBytes);
    } else {
      RefusedAtOnce(name, sent, data, ChunkCount(|data|), maxBytes);
    }
  }

  lemma {:induction false} RefusedAtOnce(name: string, sent: string, data: Bytes, n: nat, maxBytes: nat)
    requires (sent != name || |data| > maxBytes) && n <= ChunkCount(|data|)
    ensures After(Frames(sent, data, n), name, maxBytes) == IDLE.(outcome := Failed)
  {
    var frames := Frames(sent, data, n);
    if n == 0 {
      assert frames[..0] == [];
    } else {
      RefusedAtOnce(name, sent, data, n - 1, maxBytes);
      assert frames[..n] == Frames(sent, data, n - 1);
    }
  }

  /** The receiving side as an object with message handlers. */
  class SegmentReceiver {
    const name: string
    const maxBytes: nat
    var chunks: seq<Bytes>
    var declared: Option<Declared>
    var received: nat
    var outcome: Outcome
    var receipts: nat

    ghost function State(): Receiver
      reads this
    {
      Receiver(chunks, declared, received, outcome, receipts)
    }

    constructor (name: string, maxBytes: nat)
      ensures State() == IDLE && this.name == name && this.maxBytes == maxBytes
    {
      this.name, this.maxBytes := name, maxBytes;
      chunks, declared, received, outcome, receipts := [], None, 0, Waiting, 0;
    }

    method OnMessage(f: Frame)
      requires Contained(State(), maxBytes)
      modifies this
      ensures State() == Received(old(State()), f, name, maxBytes) && Contained(State(), maxBytes)
    {
      hide Contained, Completed;
      ReceivedIsContained(State(), f, name, maxBytes);
      if outcome != Waiting { return; }
      match f {
        case NotFound => outcome, receipts := Failed, receipts + 1;
        case Malformed => outcome := Failed;
        case Response(_, byteLength, chunkCount) =>
          if !IsAcceptable(f, name, maxBytes) {
            outcome := Failed;
            return;
          }
          declared := Some(Declared(byteLength.value, chunkCount.value));
          Complete();
        case Chunk(bytes) =>
          if declared.None? || |bytes| > CHUNK_BYTES {
            outcome := Failed;
            return;
          }
          chunks, received := chunks + [bytes], received + |bytes|;
          if |chunks| > declared.value.chunks || received > declared.value.bytes {
            outcome := Failed;
            return;
          }
          Complete();
      }
    }

    method Complete()
      modifies this`outcome, this`receipts
      ensures State() == Completed(old(State()))
    {
      if declared.None? || |chunks| != declared.value.chunks { return; }
      if received != declared.value.bytes {
        outcome := Failed;
        return;
      }
      receipts := receipts + 1;
      var data: Bytes := [];
      for i := 0 to |chunks|
        invariant data == Joined(chunks[..i])
      {
        assert chunks[..i + 1][..i] == chunks[..i];
        data := data + chunks[i];
      }
      assert chunks[..|chunks|] == chunks;
      outcome := Resolved(data);
    }
  }

  // ---- Upload slots ----

  /** Incoming connections by number; `finished` once their `finish` ran. */
  datatype Slots = Slots(active: int, finished: seq<bool>)

  datatype SlotEvent =
    | Offer(connectionFails: bool)
    | Finish(connection: nat)

  /**
   An offer takes a slot unless all are taken, and gives it back when no connection can be made. A
   timeout, a failed or closed connection, a served channel and a failed negotiation all call `finish`.
   */
  function Step(s: Slots, e: SlotEvent, maximum: nat): Slots {
    match e
    case Offer(fails) =>
      if s.active >= maximum || fails then s else Slots(s.active + 1, s.finished + [false])
    case Finish(c) =>
      if c < |s.finished| && !s.finished[c] then Slots(s.active - 1, s.finished[c := true]) else s
  }

  function Unfinished(finished: seq<bool>): nat {
    if finished == [] then 0 else Unfinished(finished[..|finished| - 1]) + if finished[|finished| - 1] then 0 else 1
  }

  function SlotsAfter(events: seq<SlotEvent>, maximum: nat): Slots {
    if events == [] then Slots(0, [])
      else Step(SlotsAfter(events[..|events| - 1], maximum), events[|events| - 1], maximum)
  }

  lemma {:induction false} FinishingOne(finished: seq<bool>, c: nat)
    requires c < |finished| && !finished[c]
    ensures Unfinished(finished[c := true]) == Unfinished(finished) - 1
  {
    var n := |finished| - 1;
    if c == n {
      assert finished[c := true][..n] == finished[..n];
    } else {
      FinishingOne(finished[..n], c);
      assert finished[c := true][..n] == finished[..n][c := true];
    }
  }

  /**
   However timeouts, state changes and completions race, the counter is the number of unfinished
   uploads, within the maximum.
   */
  lemma {:induction false} SlotsAreExact(events: seq<SlotEvent>, maximum: nat)
    ensures var s := SlotsAfter(events, maximum); 0 <= s.active == Unfinished(s.finished) <= maximum
  {
    if events != [] {
      var s, e := SlotsAfter(events[..|events| - 1], maximum), events[|events| - 1];
      SlotsAreExact(events[..|events| - 1], maximum);
      if e.Finish? && e.connection < |s.finished| && !s.finished[e.connection] {
        FinishingOne(s.finished, e.connection);
      } else {
        assert (s.finished + [false])[..|s.finished|] == s.finished;
      }
    }
  }

  /** An offer is served exactly while fewer uploads than the maximum are unfinished; finishing twice is once. */
  lemma OffersAreServedIff(events: seq<SlotEvent>, e: SlotEvent, maximum: nat)
    ensures var s := SlotsAfter(events, maximum);
      Step(s, e, maximum).finished == match e
        case Offer(fails) => if !fails && Unfinished(s.finished) < maximum then s.finished + [false] else s.finished
        case Finish(c) => if c < |s.finished| then s.finished[c := true] else s.finished
  {
    SlotsAreExact(events, maximum);
    var s := SlotsAfter(events, maximum);
    if e.Finish? && e.connection < |s.finished| && s.finished[e.connection] {
      assert s.finished[e.connection := true] == s.finished;
    }
  }
}
