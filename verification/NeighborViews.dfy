/**
 Bounded neighbor views of one broadcast (tracker/src/neighbor-views.ts).

 `IsFill` says what a fill may report, for any random source; `Refilled` says which views
 such a report leaves behind. The class keeps the code's four structures and is proved
 against those two definitions; the lemmas then reason about the definitions.
 */
module NeighborViews {
  import opened Inventory
  import opened Sequences

  /** peer -> peers it sees */
  type Views = map<PeerId, set<PeerId>>

  datatype Eviction = Eviction(watcher: PeerId, peerId: PeerId)

  /** What one fill reports: who was added, who linked back, and which links were dropped for that. */
  datatype NeighborViewFill = NeighborViewFill(added: seq<PeerId>, reciprocal: seq<PeerId>, evicted: seq<Eviction>)

  const NO_FILL := NeighborViewFill([], [], [])

  /** Every link stays among the members, nobody sees itself, and no view exceeds the bound. */
  ghost predicate WellFormed(size: nat, v: Views) {
    forall p {:trigger v[p]} :: p in v ==> p !in v[p] && v[p] <= v.Keys && |v[p]| <= size
  }

  /** How many neighbors a member can have at most. */
  function Target(size: nat, v: Views): int { Min(size, |v| - 1) }

  function Dropped(evicted: seq<Eviction>, watcher: PeerId): set<PeerId> {
    set e | e in evicted && e.watcher == watcher :: e.peerId
  }

  /** No member without room stands before one with room. */
  ghost predicate RoomFirst(size: nat, v: Views, s: seq<PeerId>) {
    forall i, j :: 0 <= i < j < |s| && s[i] in v && s[j] in v && |v[s[j]]| < size ==> |v[s[i]]| < size
  }

  /** The new links of `p`: distinct other members it did not see, members with room first. */
  ghost predicate AreNewLinks(size: nat, v: Views, p: PeerId, added: seq<PeerId>)
    requires p in v
  {
    Distinct(added) && (forall c :: c in added ==> c in v && c != p && c !in v[p]) && RoomFirst(size, v, added)
  }

  /** Exactly the added members that did not see `p` yet link back. */
  ghost predicate AreLinksBack(v: Views, p: PeerId, added: seq<PeerId>, reciprocal: seq<PeerId>) {
    Distinct(reciprocal) && forall c :: c in reciprocal <==> c in added && c in v && p !in v[c]
  }

  /** Exactly the full members that link back drop a neighbor, one each. */
  ghost predicate AreEvictions(size: nat, v: Views, reciprocal: seq<PeerId>, evicted: seq<Eviction>) {
    && (forall i, j :: 0 <= i < j < |evicted| ==> evicted[i].watcher != evicted[j].watcher)
    && (forall e :: e in evicted ==>
          e.watcher in reciprocal && e.watcher in v && |v[e.watcher]| >= size && e.peerId in v[e.watcher])
    && (forall c :: c in reciprocal && c in v && |v[c]| >= size ==> exists e :: e in evicted && e.watcher == c)
  }

  ghost predicate IsLinking(size: nat, v: Views, p: PeerId, f: NeighborViewFill)
    requires p in v
  {
    AreNewLinks(size, v, p, f.added) && AreLinksBack(v, p, f.added, f.reciprocal) &&
      AreEvictions(size, v, f.reciprocal, f.evicted)
  }

  /** The reports `fill(p)` can return on views `v`, whatever the random numbers are. */
  ghost predicate IsFill(size: nat, v: Views, p: PeerId, f: NeighborViewFill) {
    if p !in v then f == NO_FILL
    else IsLinking(size, v, p, f) && |v[p]| + |f.added| == Max(|v[p]|, Target(size, v))
  }

  /** The views after the fill of `p` reported `f`. */
  function Refilled(v: Views, p: PeerId, f: NeighborViewFill): Views {
    map q | q in v ::
      if q == p then v[p] + Elems(f.added)
      else if q in f.reciprocal then v[q] - Dropped(f.evicted, q) + {p}
      else v[q]
  }

  function Added(v: Views, p: PeerId): Views {
    if p in v then v else v[p := {}]
  }

  function Left(v: Views, p: PeerId): Views {
    map q | q in v && q != p :: v[q] - {p}
  }

  /** The members whose view contains `p`. */
  function Watchers(v: Views, p: PeerId): set<PeerId> {
    set q | q in v && p in v[q]
  }

  // ---- What a fill changes ----

  /** An eviction names the one neighbor its watcher dropped. */
  lemma DroppedIsOne(evicted: seq<Eviction>, e: Eviction)
    requires forall i, j :: 0 <= i < j < |evicted| ==> evicted[i].watcher != evicted[j].watcher
    requires e in evicted
    ensures Dropped(evicted, e.watcher) == {e.peerId}
  {
    assert e.peerId in Dropped(evicted, e.watcher);
  }

  lemma SubsetBound(p: PeerId, s: set<PeerId>, keys: set<PeerId>)
    requires s <= keys && p in keys && p !in s
    ensures |s| <= |keys| - 1
  {
    assert s <= keys - {p};
    SetSizes(s, keys - {p});
  }

  /**
   The view of a member that linked back: it swapped a neighbor for `p` if it was full, and only
   gained `p` otherwise.
   */
  lemma ReciprocalView(size: nat, v: Views, p: PeerId, f: NeighborViewFill, c: PeerId)
    requires 0 < size && WellFormed(size, v) && p in v && IsLinking(size, v, p, f) && c in f.reciprocal
    ensures c in v && c != p && p in Refilled(v, p, f)[c]
    ensures |v[c]| >= size ==> |Refilled(v, p, f)[c]| == |v[c]| == size
    ensures |v[c]| < size ==> Refilled(v, p, f)[c] == v[c] + {p} && |Refilled(v, p, f)[c]| == |v[c]| + 1
  {
    if |v[c]| >= size {
      var e :| e in f.evicted && e.watcher == c;
      DroppedIsOne(f.evicted, e);
      assert Refilled(v, p, f)[c] == v[c] - {e.peerId} + {p};
    } else {
      assert Dropped(f.evicted, c) == {};
      assert Refilled(v, p, f)[c] == v[c] + {p};
    }
  }

  /** What the fill of `p` makes of one member's view. */
  lemma FilledView(size: nat, v: Views, p: PeerId, f: NeighborViewFill, q: PeerId)
    requires 0 < size && WellFormed(size, v) && p in v && IsFill(size, v, p, f) && q in v
    ensures q !in Refilled(v, p, f)[q] && Refilled(v, p, f)[q] <= v.Keys
    ensures q == p ==> |Refilled(v, p, f)[q]| == Target(size, v) >= |v[p]|
    ensures q != p ==> |v[q]| <= |Refilled(v, p, f)[q]| <= size
  {
    if q == p {
      ElemsSize(f.added);
      assert v[p] !! Elems(f.added);
      SubsetBound(p, v[p], v.Keys);
    } else if q in f.reciprocal {
      ReciprocalView(size, v, p, f, q);
    }
  }

  lemma FillKeepsWellFormed(size: nat, v: Views, p: PeerId, f: NeighborViewFill)
    requires 0 < size && WellFormed(size, v) && p in v && IsFill(size, v, p, f)
    ensures WellFormed(size, Refilled(v, p, f))
    ensures Refilled(v, p, f).Keys == v.Keys && |Refilled(v, p, f)| == |v|
  {
    var v' := Refilled(v, p, f);
    assert v'.Keys == v.Keys;
    assert |v'| == |v'.Keys| == |v.Keys| == |v|;
    forall q | q in v' ensures q !in v'[q] && v'[q] <= v'.Keys && |v'[q]| <= size {
      FilledView(size, v, p, f, q);
    }
  }

  lemma LinkIsReported(size: nat, v: Views, p: PeerId, f: NeighborViewFill, a: PeerId, b: PeerId)
    requires 0 < size && WellFormed(size, v) && p in v && IsFill(size, v, p, f) && a in v
    ensures a in Refilled(v, p, f)
    ensures (b in Refilled(v, p, f)[a] && b !in v[a]) <==> (a == p && b in f.added) || (b == p && a in f.reciprocal)
    ensures (b in v[a] && b !in Refilled(v, p, f)[a]) <==> Eviction(a, b) in f.evicted
  {
    if Eviction(a, b) in f.evicted {
      DroppedIsOne(f.evicted, Eviction(a, b));
      assert p !in v[a];
    }
  }

  /**
   The report is exact: read back, `added`, `reciprocal` and `evicted` are precisely the links that
   appeared and disappeared, and no other view changed.
   */
  lemma FillReportIsExact(size: nat, v: Views, p: PeerId, f: NeighborViewFill)
    requires 0 < size && WellFormed(size, v) && p in v && IsFill(size, v, p, f)
    ensures Refilled(v, p, f).Keys == v.Keys
    ensures forall a, b :: a in v ==> ((b in Refilled(v, p, f)[a] && b !in v[a]) <==>
              (a == p && b in f.added) || (b == p && a in f.reciprocal))
    ensures forall a, b :: a in v ==> ((b in v[a] && b !in Refilled(v, p, f)[a]) <==>
              Eviction(a, b) in f.evicted)
  {
    var v' := Refilled(v, p, f);
    forall a, b | a in v
      ensures (b in v'[a] && b !in v[a]) <==> (a == p && b in f.added) || (b == p && a in f.reciprocal)
      ensures (b in v[a] && b !in v'[a]) <==> Eviction(a, b) in f.evicted
    {
      LinkIsReported(size, v, p, f, a, b);
    }
  }


  /** Every link a fill makes is mutual when the fill ends. */
  lemma FillLinksAreMutual(size: nat, v: Views, p: PeerId, f: NeighborViewFill)
    requires 0 < size && WellFormed(size, v) && p in v && IsFill(size, v, p, f)
    ensures forall c :: c in f.added ==> c in Refilled(v, p, f)[p] && p in Refilled(v, p, f)[c]
  {
    forall c | c in f.added ensures p in Refilled(v, p, f)[c] {
      if c in f.reciprocal { ReciprocalView(size, v, p, f, c); }
    }
  }

  // ---- Saturation over every run ----

  /** One membership change: a join adds and fills; a leave refills each peer that lost a neighbor. */
  datatype Change =
    | Join(peer: PeerId, fill: NeighborViewFill)
    | Leave(peer: PeerId, losers: seq<PeerId>, fills: seq<NeighborViewFill>)

  /** `fill` does nothing for a peer that is not a member. */
  function AfterFill(v: Views, p: PeerId, f: NeighborViewFill): Views { if p in v then Refilled(v, p, f) else v }

  /** The fills of `losers`, one after the other. */
  function RefillAll(v: Views, losers: seq<PeerId>, fills: seq<NeighborViewFill>): Views
    requires |losers| == |fills|
  {
    if losers == [] then v
    else RefillAll(AfterFill(v, losers[0], fills[0]), losers[1..], fills[1..])
  }

  ghost predicate AreFills(size: nat, v: Views, losers: seq<PeerId>, fills: seq<NeighborViewFill>) {
    |losers| == |fills| &&
    (losers != [] ==>
       IsFill(size, v, losers[0], fills[0]) &&
       AreFills(size, AfterFill(v, losers[0], fills[0]), losers[1..], fills[1..]))
  }

  /** `leave(p)` returns each peer whose view contained `p` once, in some order. */
  ghost predicate AreLosers(v: Views, p: PeerId, losers: seq<PeerId>) {
    Distinct(losers) && Elems(losers) == Watchers(v, p)
  }

  ghost predicate CanChange(size: nat, v: Views, c: Change) {
    match c
    case Join(p, f) => p !in v && IsFill(size, Added(v, p), p, f)
    case Leave(p, losers, fills) =>
      p in v && AreLosers(v, p, losers) && AreFills(size, Left(v, p), losers, fills)
  }

  function Changed(v: Views, c: Change): Views
    requires c.Leave? ==> |c.losers| == |c.fills|
  {
    match c
    case Join(p, f) => Refilled(Added(v, p), p, f)
    case Leave(p, losers, fills) => RefillAll(Left(v, p), losers, fills)
  }

  ghost predicate AreChanges(size: nat, v: Views, run: seq<Change>)
    decreases |run|
  {
    run == [] || (CanChange(size, v, run[0]) && AreChanges(size, Changed(v, run[0]), run[1..]))
  }

  ghost function AfterChanges(size: nat, v: Views, run: seq<Change>): Views
    requires AreChanges(size, v, run)
    decreases |run|
  {
    if run == [] then v else AfterChanges(size, Changed(v, run[0]), run[1..])
  }

  /** Every member sees as many others as the bound and the audience allow. */
  ghost predicate Saturated(size: nat, v: Views) {
    forall p {:trigger v[p]} :: p in v ==> |v[p]| == Target(size, v)
  }

  /** A member that sees as many others as the bound and the audience allow. */
  predicate IsFull(size: nat, v: Views, p: PeerId) { p in v && |v[p]| == Target(size, v) }

  lemma AddKeepsWellFormed(size: nat, v: Views, p: PeerId)
    requires WellFormed(size, v)
    ensures WellFormed(size, Added(v, p))
  {
  }

  lemma LeaveKeepsWellFormed(size: nat, v: Views, p: PeerId)
    requires WellFormed(size, v)
    ensures WellFormed(size, Left(v, p))
    ensures Left(v, p).Keys == v.Keys - {p}
  {
    var v' := Left(v, p);
    forall q | q in v' ensures |v'[q]| <= size { SetSizes(v'[q], v[q]); }
  }

  /** While the audience is small a newcomer sees everybody, so everybody links back. */
  lemma SmallAudienceLinksBack(size: nat, v: Views, p: PeerId, f: NeighborViewFill, q: PeerId)
    requires 0 < size && WellFormed(size, v) && p !in v && IsFill(size, Added(v, p), p, f)
    requires |v| <= size && q in v
    ensures q in f.reciprocal
  {
    var w := Added(v, p);
    assert w.Keys == v.Keys + {p} && |w| == |w.Keys| == |v| + 1;
    ElemsSize(f.added);
    assert Elems(f.added) <= v.Keys;
    SetSizes(Elems(f.added), v.Keys);
    assert q in Elems(f.added);
  }

  lemma JoinSaturates(size: nat, v: Views, p: PeerId, f: NeighborViewFill, q: PeerId)
    requires 0 < size && WellFormed(size, v) && p !in v && IsFill(size, Added(v, p), p, f)
    requires IsFull(size, v, q) || q == p
    ensures q in Refilled(Added(v, p), p, f) && |Refilled(Added(v, p), p, f)[q]| == Min(size, |v|)
  {
    hide WellFormed, IsLinking;
    var w := Added(v, p);
    assert q in w && IsLinking(size, w, p, f) && (q != p ==> w[q] == v[q]);
    assert q in Refilled(w, p, f);
    hide IsFill, Refilled;
    AddKeepsWellFormed(size, v, p);
    AddedSize(v, p);
    FilledView(size, w, p, f, q);
    if q != p {
      if |v| <= size {
        SmallAudienceLinksBack(size, v, p, f, q);
        ReciprocalView(size, w, p, f, q);
      }
    }
  }

  lemma JoinKeepsSaturation(size: nat, v: Views, p: PeerId, f: NeighborViewFill)
    requires 0 < size && WellFormed(size, v) && Saturated(size, v) && p !in v && IsFill(size, Added(v, p), p, f)
    ensures WellFormed(size, Refilled(Added(v, p), p, f)) && Saturated(size, Refilled(Added(v, p), p, f))
  {
    hide WellFormed, IsFill;
    var w := Added(v, p);
    var v' := Refilled(w, p, f);
    AddKeepsWellFormed(size, v, p);
    AddedSize(v, p);
    FillKeepsWellFormed(size, w, p, f);
    assert v'.Keys == w.Keys && |v'| == |v'.Keys|;
    hide Added, Refilled;
    forall q | q in v' ensures |v'[q]| == Target(size, v') {
      JoinSaturates(size, v, p, f, q);
    }
  }

  lemma RefillOneKeepsWellFormed(size: nat, v: Views, p: PeerId, f: NeighborViewFill)
    requires 0 < size && WellFormed(size, v) && IsFill(size, v, p, f)
    ensures WellFormed(size, AfterFill(v, p, f)) && AfterFill(v, p, f).Keys == v.Keys && |AfterFill(v, p, f)| == |v|
  {
    if p in v { FillKeepsWellFormed(size, v, p, f); }
  }

  /** Filling one member tops it up and shrinks nobody's view. */
  lemma RefillOne(size: nat, v: Views, p: PeerId, f: NeighborViewFill, q: PeerId)
    requires 0 < size && WellFormed(size, v) && IsFill(size, v, p, f) && q in v
    ensures q in AfterFill(v, p, f) && |v[q]| <= |AfterFill(v, p, f)[q]|
    ensures q == p ==> |AfterFill(v, p, f)[p]| == Target(size, v)
  {
    if p in v { FilledView(size, v, p, f, q); }
  }

  lemma {:induction false} RefillAllKeepsWellFormed(size: nat, v: Views, losers: seq<PeerId>,
        fills: seq<NeighborViewFill>)
    requires 0 < size && WellFormed(size, v) && AreFills(size, v, losers, fills)
    ensures WellFormed(size, RefillAll(v, losers, fills))
    ensures RefillAll(v, losers, fills).Keys == v.Keys && |RefillAll(v, losers, fills)| == |v|
    decreases |losers|
  {
    hide WellFormed, IsFill, AfterFill;
    if losers != [] {
      RefillOneKeepsWellFormed(size, v, losers[0], fills[0]);
      RefillAllKeepsWellFormed(size, AfterFill(v, losers[0], fills[0]), losers[1..], fills[1..]);
    }
  }

  /** Filling the losers one by one tops each of them up and shrinks nobody's view. */
  lemma {:induction false} RefillAllSaturates(size: nat, v: Views, losers: seq<PeerId>, fills: seq<NeighborViewFill>,
                                              q: PeerId)
    requires 0 < size && WellFormed(size, v) && AreFills(size, v, losers, fills) && q in v
    ensures q in RefillAll(v, losers, fills) && |v[q]| <= |RefillAll(v, losers, fills)[q]|
    ensures q in losers ==> |RefillAll(v, losers, fills)[q]| >= Target(size, v)
    decreases |losers|
  {
    hide WellFormed, IsFill, AfterFill;
    if losers != [] {
      var w := AfterFill(v, losers[0], fills[0]);
      RefillOneKeepsWellFormed(size, v, losers[0], fills[0]);
      RefillOne(size, v, losers[0], fills[0], q);
      RefillAllSaturates(size, w, losers[1..], fills[1..], q);
    }
  }

  // ---- A fill always has something to report ----

  lemma {:induction false} EvictionsExist(size: nat, v: Views, reciprocal: seq<PeerId>) returns (evicted: seq<Eviction>)
    requires 0 < size && Distinct(reciprocal) && Elems(reciprocal) <= v.Keys
    ensures AreEvictions(size, v, reciprocal, evicted)
    decreases |reciprocal|
  {
    if reciprocal == [] { return []; }
    var c, rest := reciprocal[0], reciprocal[1..];
    assert reciprocal == [c] + rest;
    assert c !in rest && c in Elems(reciprocal) && Elems(rest) <= Elems(reciprocal);
    evicted := EvictionsExist(size, v, rest);
    if |v[c]| >= size {
      var dropped :| dropped in v[c];
      OneMoreEviction(size, v, c, rest, evicted, dropped);
      evicted := [Eviction(c, dropped)] + evicted;
    }
  }

  lemma OneMoreEviction(size: nat, v: Views, c: PeerId, rest: seq<PeerId>, evicted: seq<Eviction>, dropped: PeerId)
    requires AreEvictions(size, v, rest, evicted) && c !in rest && c in v && |v[c]| >= size && dropped in v[c]
    ensures AreEvictions(size, v, [c] + rest, [Eviction(c, dropped)] + evicted)
  {
    var more := [Eviction(c, dropped)] + evicted;
    assert more[0] == Eviction(c, dropped) && forall e :: e in evicted ==> e in more;
  }

  /** The candidates, members with room first. */
  lemma RoomFirstOrder(size: nat, v: Views, candidates: set<PeerId>) returns (order: seq<PeerId>)
    requires candidates <= v.Keys
    ensures Distinct(order) && Elems(order) == candidates && RoomFirst(size, v, order)
  {
    var room := set c | c in candidates && |v[c]| < size;
    var first := OrderExists(room);
    var second := OrderExists(candidates - room);
    order := first + second;
    assert forall c :: c in first <==> c in room by { assert forall c :: c in first <==> c in Elems(first); }
    assert forall c :: c in second <==> c in candidates - room by {
      assert forall c :: c in second <==> c in Elems(second);
    }
    assert forall i :: 0 <= i < |first| ==> order[i] in room;
    assert forall j :: |first| <= j < |order| ==> order[j] in candidates - room;
  }

  lemma LinkingExists(size: nat, v: Views, p: PeerId, added: seq<PeerId>) returns (f: NeighborViewFill)
    requires 0 < size && p in v && AreNewLinks(size, v, p, added)
    ensures f.added == added && IsLinking(size, v, p, f)
  {
    var back := set c | c in added && c in v && p !in v[c];
    var reciprocal := OrderExists(back);
    assert forall c :: c in reciprocal <==> c in Elems(reciprocal);
    hide AreNewLinks;
    var evicted := EvictionsExist(size, v, reciprocal);
    f := NeighborViewFill(added, reciprocal, evicted);
  }

  lemma FillExists(size: nat, v: Views, p: PeerId) returns (f: NeighborViewFill)
    requires 0 < size && WellFormed(size, v)
    ensures IsFill(size, v, p, f)
  {
    if p !in v { return NO_FILL; }
    var candidates := v.Keys - {p} - v[p];
    var order := RoomFirstOrder(size, v, candidates);
    ElemsSize(order);
    assert |candidates| == |v| - 1 - |v[p]| by { assert v[p] <= v.Keys - {p} && |v.Keys - {p}| == |v| - 1; }
    var wanted := Max(|v[p]|, Target(size, v)) - |v[p]|;
    var added := order[..wanted];
    assert forall c :: c in added ==> c in Elems(order);
    f := LinkingExists(size, v, p, added);
  }

  lemma {:induction false} FillsExist(size: nat, v: Views, losers: seq<PeerId>) returns (fills: seq<NeighborViewFill>)
    requires 0 < size && WellFormed(size, v)
    ensures AreFills(size, v, losers, fills)
    decreases |losers|
  {
    if losers == [] { return []; }
    var f := FillExists(size, v, losers[0]);
    RefillOneKeepsWellFormed(size, v, losers[0], f);
    hide WellFormed, IsFill, AfterFill;
    var rest := FillsExist(size, AfterFill(v, losers[0], f), losers[1..]);
    fills := [f] + rest;
  }

  lemma LeftSize(v: Views, p: PeerId)
    requires p in v
    ensures Left(v, p).Keys == v.Keys - {p} && |Left(v, p)| == |v| - 1
  {
    assert Left(v, p).Keys == v.Keys - {p};
    assert |Left(v, p)| == |Left(v, p).Keys|;
  }

  lemma AddedSize(v: Views, p: PeerId)
    requires p !in v
    ensures Added(v, p).Keys == v.Keys + {p} && |Added(v, p)| == |v| + 1
  {
    assert |Added(v, p)| == |Added(v, p).Keys|;
  }

  lemma StillFull(size: nat, v: Views, p: PeerId, q: PeerId)
    requires IsFull(size, v, q) && p in v && q != p && q !in Watchers(v, p)
    ensures |Left(v, p)[q]| >= Target(size, Left(v, p))
  {
    LeftSize(v, p);
    assert Left(v, p)[q] == v[q];
  }

  /** After a departure and its refills a member is full if it was, or lost the departed neighbor. */
  lemma LeaveSaturates(size: nat, v: Views, p: PeerId, losers: seq<PeerId>, fills: seq<NeighborViewFill>, q: PeerId)
    requires 0 < size && WellFormed(size, v) && p in v && q in v && q != p
    requires AreLosers(v, p, losers) && AreFills(size, Left(v, p), losers, fills)
    requires IsFull(size, v, q) || p in v[q]
    ensures RefillAll(Left(v, p), losers, fills).Keys == v.Keys - {p}
    ensures |RefillAll(Left(v, p), losers, fills)[q]| == Min(size, |v| - 2)
  {
    assert p in v[q] ==> q in Watchers(v, p);
    if q !in losers { NotLoser(v, p, losers, q); StillFull(size, v, p, q); }
    hide WellFormed, RefillAll, Left, AreLosers;
    var w := Left(v, p);
    LeaveKeepsWellFormed(size, v, p);
    RefillAllKeepsWellFormed(size, w, losers, fills);
    LeftSize(v, p);
    RefillAllSaturates(size, w, losers, fills, q);
    WellFormedView(size, RefillAll(w, losers, fills), q);
  }

  lemma NotLoser(v: Views, p: PeerId, losers: seq<PeerId>, q: PeerId)
    requires AreLosers(v, p, losers) && q !in losers
    ensures q !in Watchers(v, p)
  {
  }

  lemma WellFormedView(size: nat, v: Views, q: PeerId)
    requires WellFormed(size, v) && q in v
    ensures |v[q]| <= Target(size, v)
  {
    SubsetBound(q, v[q], v.Keys);
    assert |v.Keys| == |v|;
  }

  lemma LeaveKeepsSaturation(size: nat, v: Views, p: PeerId, losers: seq<PeerId>, fills: seq<NeighborViewFill>)
    requires 0 < size && WellFormed(size, v) && Saturated(size, v) && p in v
    requires AreLosers(v, p, losers) && AreFills(size, Left(v, p), losers, fills)
    ensures WellFormed(size, RefillAll(Left(v, p), losers, fills))
    ensures Saturated(size, RefillAll(Left(v, p), losers, fills))
  {
    hide WellFormed, RefillAll, Left, AreLosers;
    var w := Left(v, p);
    LeaveKeepsWellFormed(size, v, p);
    RefillAllKeepsWellFormed(size, w, losers, fills);
    LeftSize(v, p);
    var v' := RefillAll(w, losers, fills);
    forall q | q in v' ensures |v'[q]| == Target(size, v') {
      assert q in v && q != p;
      LeaveSaturates(size, v, p, losers, fills, q);
    }
  }

  /**
   From an empty broadcast, every run of joins and leaves keeps every member at exactly min(size,
   members - 1) neighbors.
   */
  lemma {:induction false} EveryRunIsSaturated(size: nat, v: Views, run: seq<Change>)
    requires 0 < size && WellFormed(size, v) && Saturated(size, v) && AreChanges(size, v, run)
    ensures WellFormed(size, AfterChanges(size, v, run)) && Saturated(size, AfterChanges(size, v, run))
    decreases |run|
  {
    if run != [] {
      match run[0] {
        case Join(p, f) => JoinKeepsSaturation(size, v, p, f);
        case Leave(p, losers, fills) => LeaveKeepsSaturation(size, v, p, losers, fills);
      }
      EveryRunIsSaturated(size, Changed(v, run[0]), run[1..]);
    }
  }

  // ---- The class: four mutable structures kept in step ----

  /** `watchers` is the exact transpose of `v`. */
  ghost predicate IsTranspose(v: Views, watchers: Views) {
    watchers.Keys == v.Keys && forall b :: b in v ==> watchers[b] == Watchers(v, b)
  }

  /** `members` lists each member once and `positions` is its inverse. */
  ghost predicate IsIndex(keys: set<PeerId>, members: seq<PeerId>, positions: map<PeerId, nat>) {
    && Distinct(members)
    && Elems(members) == keys
    && positions.Keys == keys
    && forall i :: 0 <= i < |members| ==> positions[members[i]] == i
  }

  lemma TransposeAdd(size: nat, v: Views, watchers: Views, p: PeerId)
    requires WellFormed(size, v) && IsTranspose(v, watchers) && p !in v
    ensures IsTranspose(v[p := {}], watchers[p := {}])
  {
    var v' := v[p := {}];
    assert Watchers(v', p) == {};
    forall b | b in v ensures Watchers(v', b) == Watchers(v, b) {}
  }

  lemma TransposeSet(v: Views, watchers: Views, a: PeerId, b: PeerId, linked: bool)
    requires IsTranspose(v, watchers) && a in v && b in v
    ensures var v' := v[a := if linked then v[a] + {b} else v[a] - {b}];
      IsTranspose(v', watchers[b := if linked then watchers[b] + {a} else watchers[b] - {a}])
  {
    var v' := v[a := if linked then v[a] + {b} else v[a] - {b}];
    forall c | c in v && c != b ensures Watchers(v', c) == Watchers(v, c) {}
  }

  /** The next member examined is one that was not examined before. */
  lemma ExamineNext(keys: set<PeerId>, members: seq<PeerId>, positions: map<PeerId, nat>, i: nat, j: nat)
    requires IsIndex(keys, members, positions) && i <= j < |members|
    ensures members[j] in keys && members[j] !in Elems(members[..i])
  {
    assert members[j] in Elems(members);
  }

  lemma RemainingSize(v: Views, p: PeerId, candidates: seq<PeerId>)
    requires p in v && p !in v[p] && v[p] <= v.Keys
    requires Distinct(candidates) && Elems(candidates) == v.Keys - v[p] - {p}
    ensures |candidates| == |v| - 1 - |v[p]|
  {
    ElemsSize(candidates);
    assert v.Keys == Elems(candidates) + v[p] + {p};
    assert |v.Keys| == |v|;
  }

  lemma NothingToFill(size: nat, v: Views, p: PeerId)
    requires WellFormed(size, v) && (p in v ==> size <= |v[p]|)
    ensures IsFill(size, v, p, NO_FILL) && AfterFill(v, p, NO_FILL) == v
  {
    if p in v {
      SubsetBound(p, v[p], v.Keys);
      assert |v.Keys| == |v|;
      assert Refilled(v, p, NO_FILL) == v;
    }
  }

  /** Enough candidates, or all there are, make the links a complete fill. */
  lemma LinksAreFill(size: nat, v: Views, p: PeerId, candidates: seq<PeerId>, f: NeighborViewFill, w: Views)
    requires WellFormed(size, v) && Shows(size, v, p, f, w) && |v[p]| < size
    requires Distinct(candidates) && Elems(candidates) <= v.Keys - v[p] - {p}
    requires |candidates| < size - |v[p]| ==> Elems(candidates) == v.Keys - v[p] - {p}
    requires |v[p]| + |f.added| == Min(size, |v[p]| + |candidates|)
    ensures IsFill(size, v, p, f) && w == AfterFill(v, p, f)
  {
    CandidateBound(v, p, candidates);
    if |candidates| < size - |v[p]| { RemainingSize(v, p, candidates); }
  }

  lemma CandidateBound(v: Views, p: PeerId, candidates: seq<PeerId>)
    requires p in v && p !in v[p] && v[p] <= v.Keys
    requires Distinct(candidates) && Elems(candidates) <= v.Keys - v[p] - {p}
    ensures |v[p]| + |candidates| <= |v| - 1
  {
    ElemsSize(candidates);
    var all := Elems(candidates) + v[p] + {p};
    SetSizes(all, v.Keys);
    assert |all| == |candidates| + |v[p]| + 1;
    assert |v.Keys| == |v|;
  }

  lemma NothingLinked(size: nat, v: Views, p: PeerId)
    requires p in v
    ensures Shows(size, v, p, NO_FILL, v)
  {
  }

  /** Whether `c` can be linked after the links of `f`. */
  ghost predicate CanLinkNext(size: nat, v: Views, p: PeerId, f: NeighborViewFill, c: PeerId)
    requires p in v
  {
    IsLinking(size, v, p, f) && c in v && c != p && c !in v[p] && c !in f.added && RoomFirst(size, v, f.added + [c])
  }

  lemma Appended<T>(s: seq<T>, x: T)
    requires Distinct(s) && x !in s
    ensures Distinct(s + [x]) && Elems(s + [x]) == Elems(s) + {x}
  {
  }

  lemma NextLink(size: nat, v: Views, p: PeerId, f: NeighborViewFill, c: PeerId)
    requires p in v && CanLinkNext(size, v, p, f, c)
    ensures AreNewLinks(size, v, p, f.added + [c])
    ensures p in v[c] ==> AreLinksBack(v, p, f.added + [c], f.reciprocal)
    ensures p !in v[c] ==> c !in f.reciprocal && AreLinksBack(v, p, f.added + [c], f.reciprocal + [c])
  {
    hide AreEvictions;
    Appended(f.added, c);
    assert c !in f.reciprocal;
    if p !in v[c] { Appended(f.reciprocal, c); }
  }

  lemma NextEviction(size: nat, v: Views, reciprocal: seq<PeerId>, evicted: seq<Eviction>, c: PeerId, d: PeerId)
    requires AreEvictions(size, v, reciprocal, evicted) && c in v && c !in reciprocal
    ensures |v[c]| < size ==> AreEvictions(size, v, reciprocal + [c], evicted)
    ensures |v[c]| >= size && d in v[c] ==> AreEvictions(size, v, reciprocal + [c], evicted + [Eviction(c, d)])
  {
    if |v[c]| >= size && d in v[c] {
      var evicted' := evicted + [Eviction(c, d)];
      assert Eviction(c, d) in evicted';
      forall b | b in reciprocal && b in v && |v[b]| >= size ensures exists e :: e in evicted' && e.watcher == b {
        var e :| e in evicted && e.watcher == b;
        assert e in evicted';
      }
    }
  }

  lemma NotYetDropped(size: nat, v: Views, reciprocal: seq<PeerId>, evicted: seq<Eviction>, c: PeerId, d: PeerId)
    requires AreEvictions(size, v, reciprocal, evicted) && c !in reciprocal
    ensures Dropped(evicted, c) == {} && Dropped(evicted + [Eviction(c, d)], c) == {d}
    ensures forall q :: q != c ==> Dropped(evicted + [Eviction(c, d)], q) == Dropped(evicted, q)
  {
    var evicted' := evicted + [Eviction(c, d)];
    assert forall e :: e in evicted' <==> e in evicted || e == Eviction(c, d);
    assert Eviction(c, d) in evicted';
    forall q | q != c ensures Dropped(evicted', q) == Dropped(evicted, q) {}
  }

  /** How one more link shows in the views. */
  lemma RefilledNext(v: Views, p: PeerId, f: NeighborViewFill, g: NeighborViewFill, c: PeerId)
    requires p in v && c in v && c != p && c !in v[p] && c !in f.added && c !in f.reciprocal
    requires g.added == f.added + [c]
    requires g.reciprocal == f.reciprocal || g.reciprocal == f.reciprocal + [c]
    requires forall q :: q != c ==> Dropped(g.evicted, q) == Dropped(f.evicted, q)
    ensures var w := Refilled(v, p, f);
      && p in w && c in w && w[c] == v[c] && c !in w[p]
      && Refilled(v, p, g) ==
           if c in g.reciprocal then w[p := w[p] + {c}][c := w[c] - Dropped(g.evicted, c) + {p}] else w[p := w[p] + {c}]
  {
    hide Dropped;
    assert Elems(g.added) == Elems(f.added) + {c};
    assert c !in Elems(f.added);
    hide Elems;
    var w, w' := Refilled(v, p, f), Refilled(v, p, g);
    assert w'[p] == w[p] + {c};
    assert c in g.reciprocal ==> w'[c] == w[c] - Dropped(g.evicted, c) + {p};
    forall q | q in v && q != p && q != c ensures w'[q] == w[q] {
      assert q in g.reciprocal <==> q in f.reciprocal;
    }
  }

  /** `w` is what the links of `f` make of `v`. */
  ghost predicate Shows(size: nat, v: Views, p: PeerId, f: NeighborViewFill, w: Views) {
    p in v && IsLinking(size, v, p, f) && w == Refilled(v, p, f)
  }

  lemma CandidateUntouched(size: nat, v: Views, p: PeerId, f: NeighborViewFill, c: PeerId, w: Views)
    requires Shows(size, v, p, f, w) && CanLinkNext(size, v, p, f, c)
    ensures c in v && c in w && c != p && p in w && w.Keys == v.Keys && w[c] == v[c] && c !in w[p]
  {
    assert c !in f.reciprocal;
  }

  /** The candidate sees `p` already: only `p`'s own view gains a link. */
  lemma LinkOneWay(size: nat, v: Views, p: PeerId, f: NeighborViewFill, c: PeerId, w: Views)
    requires Shows(size, v, p, f, w) && CanLinkNext(size, v, p, f, c) && p in v[c]
    ensures p in w && Shows(size, v, p, f.(added := f.added + [c]), w[p := w[p] + {c}])
  {
    NextLink(size, v, p, f, c);
    RefilledNext(v, p, f, f.(added := f.added + [c]), c);
    hide AreNewLinks, AreLinksBack, AreEvictions, Refilled;
  }

  /** The candidate links back; if its view is full it drops `d` for that. */
  lemma LinkBothWays(size: nat, v: Views, p: PeerId, f: NeighborViewFill, c: PeerId, evicted: seq<Eviction>, w: Views)
    requires Shows(size, v, p, f, w) && CanLinkNext(size, v, p, f, c) && p !in v[c]
    requires if |v[c]| < size then evicted == []
      else |evicted| == 1 && evicted[0].watcher == c && evicted[0].peerId in v[c]
    ensures p in w && c in w
    ensures Shows(size, v, p, NeighborViewFill(f.added + [c], f.reciprocal + [c], f.evicted + evicted),
      w[p := w[p] + {c}][c := w[c] - Dropped(evicted, c) + {p}])
  {
    NextLink(size, v, p, f, c);
    var d := if evicted == [] then c else evicted[0].peerId;
    var g := NeighborViewFill(f.added + [c], f.reciprocal + [c], f.evicted + evicted);
    NextEviction(size, v, f.reciprocal, f.evicted, c, d);
    NotYetDropped(size, v, f.reciprocal, f.evicted, c, d);
    if evicted == [] { assert g.evicted == f.evicted; } else { assert evicted == [Eviction(c, d)]; }
    assert Dropped(g.evicted, c) == Dropped(evicted, c);
    RefilledNext(v, p, f, g, c);
    hide AreNewLinks, AreLinksBack, AreEvictions, Refilled;
  }

  lemma CandidateNext(size: nat, v: Views, p: PeerId, candidates: seq<PeerId>, i: nat, f: NeighborViewFill)
    requires WellFormed(size, v) && p in v && IsLinking(size, v, p, f) && i < |candidates| && f.added == candidates[..i]
    requires Distinct(candidates) && Elems(candidates) <= v.Keys - v[p] - {p} && RoomFirst(size, v, candidates)
    ensures CanLinkNext(size, v, p, f, candidates[i]) && v[candidates[i]] <= v.Keys
    ensures candidates[..i + 1] == candidates[..i] + [candidates[i]]
  {
    assert candidates[i] in Elems(candidates);
  }

  lemma FilledSize(size: nat, v: Views, p: PeerId, f: NeighborViewFill, w: Views)
    requires Shows(size, v, p, f, w)
    ensures p in w && |w[p]| == |v[p]| + |f.added|
  {
    ElemsSize(f.added);
    assert v[p] !! Elems(f.added);
  }

  /** Distinct candidates, those with room first; every one a member that `p` could link to. */
  ghost predicate AreCandidates(size: nat, v: Views, p: PeerId, withRoom: seq<PeerId>, full: seq<PeerId>) {
    && p in v
    && Distinct(withRoom + full)
    && (forall c :: c in withRoom ==> c in v && |v[c]| < size && c != p && c !in v[p])
    && (forall c :: c in full ==> c in v && |v[c]| >= size && c != p && c !in v[p])
  }

  /** The examined members are the skipped ones (the peer itself and its neighbors) and the candidates. */
  ghost predicate Examined(v: Views, p: PeerId, examined: set<PeerId>, count: nat,
                           skipped: set<PeerId>, withRoom: seq<PeerId>, full: seq<PeerId>)
  {
    p in v && skipped <= v[p] + {p} && examined == skipped + Elems(withRoom + full) &&
      |skipped| + |withRoom + full| == count
  }

  lemma MoreCandidates(size: nat, v: Views, p: PeerId, withRoom: seq<PeerId>, full: seq<PeerId>, c: PeerId)
    requires AreCandidates(size, v, p, withRoom, full)
    requires c in v && c != p && c !in v[p] && c !in Elems(withRoom + full)
    ensures |v[c]| < size ==> AreCandidates(size, v, p, withRoom + [c], full)
    ensures |v[c]| >= size ==> AreCandidates(size, v, p, withRoom, full + [c])
    ensures Elems(withRoom + [c] + full) == Elems(withRoom + (full + [c])) == Elems(withRoom + full) + {c}
    ensures |withRoom + [c] + full| == |withRoom + (full + [c])| == |withRoom + full| + 1
  {
    InsertedInMiddle(withRoom, full, c);
    assert withRoom + (full + [c]) == withRoom + full + [c];
  }

  lemma SkippedOneMore(v: Views, p: PeerId, examined: set<PeerId>, count: nat,
                       skipped: set<PeerId>, withRoom: seq<PeerId>, full: seq<PeerId>, c: PeerId)
    requires Examined(v, p, examined, count, skipped, withRoom, full) && c !in examined
    requires c in v && (c == p || c in v[p])
    ensures Examined(v, p, examined + {c}, count + 1, skipped + {c}, withRoom, full)
  {
  }

  lemma ExaminedOneMore(size: nat, v: Views, p: PeerId, examined: set<PeerId>, count: nat,
                        skipped: set<PeerId>, withRoom: seq<PeerId>, full: seq<PeerId>, c: PeerId)
    requires Examined(v, p, examined, count, skipped, withRoom, full) && c !in examined
    requires AreCandidates(size, v, p, withRoom, full) && c in v && c != p && c !in v[p]
    ensures |v[c]| < size ==>
      AreCandidates(size, v, p, withRoom + [c], full) &&
        Examined(v, p, examined + {c}, count + 1, skipped, withRoom + [c], full)
    ensures |v[c]| >= size ==>
      AreCandidates(size, v, p, withRoom, full + [c]) &&
        Examined(v, p, examined + {c}, count + 1, skipped, withRoom, full + [c])
  {
    MoreCandidates(size, v, p, withRoom, full, c);
    hide AreCandidates;
  }

  lemma CandidatesInOrder(size: nat, v: Views, p: PeerId, withRoom: seq<PeerId>, full: seq<PeerId>)
    requires AreCandidates(size, v, p, withRoom, full)
    ensures Distinct(withRoom + full) && Elems(withRoom + full) <= v.Keys - v[p] - {p}
    ensures RoomFirst(size, v, withRoom + full)
  {
    var s := withRoom + full;
    assert forall k :: 0 <= k < |withRoom| ==> s[k] in withRoom;
    assert forall k :: |withRoom| <= k < |s| ==> s[k] in full;
  }

  /** The state of the sampling loop. */
  ghost predicate Sampling(size: nat, v: Views, p: PeerId, examined: set<PeerId>, count: nat,
                           skipped: set<PeerId>, withRoom: seq<PeerId>, full: seq<PeerId>)
  {
    Examined(v, p, examined, count, skipped, withRoom, full) && AreCandidates(size, v, p, withRoom, full)
  }

  lemma SampledOneMore(size: nat, v: Views, p: PeerId, examined: set<PeerId>, count: nat,
                       skipped: set<PeerId>, withRoom: seq<PeerId>, full: seq<PeerId>, c: PeerId)
    requires Sampling(size, v, p, examined, count, skipped, withRoom, full) && c !in examined && c in v
    ensures p in v && if c == p || c in v[p]
      then Sampling(size, v, p, examined + {c}, count + 1, skipped + {c}, withRoom, full)
      else if |v[c]| < size then Sampling(size, v, p, examined + {c}, count + 1, skipped, withRoom + [c], full)
      else Sampling(size, v, p, examined + {c}, count + 1, skipped, withRoom, full + [c])
  {
    if c == p || c in v[p] {
      SkippedOneMore(v, p, examined, count, skipped, withRoom, full, c);
    } else {
      ExaminedOneMore(size, v, p, examined, count, skipped, withRoom, full, c);
    }
  }

  /** At most |view| + 1 examined members were skipped, so a spent budget leaves enough candidates. */
  lemma SampleIsEnough(size: nat, v: Views, p: PeerId, examined: set<PeerId>, count: nat,
                       skipped: set<PeerId>, withRoom: seq<PeerId>, full: seq<PeerId>, wanted: nat)
    requires Sampling(size, v, p, examined, count, skipped, withRoom, full)
    requires examined == v.Keys || |withRoom| >= wanted || count >= |v[p]| + 1 + Max(wanted * 8, 64)
    ensures Distinct(withRoom + full) && Elems(withRoom + full) <= v.Keys - v[p] - {p}
    ensures RoomFirst(size, v, withRoom + full)
    ensures |withRoom + full| < wanted ==> Elems(withRoom + full) == v.Keys - v[p] - {p}
  {
    CandidatesInOrder(size, v, p, withRoom, full);
    hide AreCandidates, RoomFirst;
    SetSizes(skipped, v[p] + {p});
  }

  lemma ExaminedPrefix(before: seq<PeerId>, members: seq<PeerId>, index: nat)
    requires index < |before| == |members| && members[..index] == before[..index]
    ensures Elems(members[..index + 1]) == Elems(before[..index]) + {members[index]}
  {
    assert members[..index + 1] == before[..index] + [members[index]];
  }

  lemma InsertedInMiddle(a: seq<PeerId>, b: seq<PeerId>, x: PeerId)
    requires Distinct(a + b) && x !in Elems(a + b)
    ensures Distinct(a + [x] + b) && Elems(a + [x] + b) == Elems(a + b) + {x}
    ensures Distinct(a + (b + [x])) && Elems(a + (b + [x])) == Elems(a + b) + {x}
  {
    assert forall i :: 0 <= i < |a| ==> a[i] == (a + b)[i];
    assert forall i :: 0 <= i < |b| ==> b[i] == (a + b)[|a| + i];
  }

  /** After both halves of a leave, the views are `Left` and the watchers are again their transpose. */
  lemma UnlinkedBothWays(v: Views, watchers: Views, v': Views, watchers': Views, p: PeerId)
    requires p in v && p !in v[p] && IsTranspose(v, watchers)
    requires v'.Keys == v.Keys == watchers'.Keys
    requires forall b :: b in v ==> watchers'[b] == if b in v[p] then watchers[b] - {p} else watchers[b]
    requires forall q :: q in v ==> v'[q] == if q in watchers'[p] then v[q] - {p} else v[q]
    ensures watchers'[p] == Watchers(v, p)
    ensures v' - {p} == Left(v, p)
    ensures IsTranspose(v' - {p}, watchers' - {p})
  {
    forall q | q in v && q != p ensures v'[q] == v[q] - {p} {
      assert q in Watchers(v, p) <==> p in v[q];
    }
    assert v' - {p} == Left(v, p);
    LeftIsTransposed(v, watchers, watchers', p);
  }

  lemma LeftIsTransposed(v: Views, watchers: Views, watchers': Views, p: PeerId)
    requires p in v && IsTranspose(v, watchers) && watchers'.Keys == v.Keys
    requires forall b :: b in v ==> watchers'[b] == if b in v[p] then watchers[b] - {p} else watchers[b]
    ensures IsTranspose(Left(v, p), watchers' - {p})
  {
    var w := Left(v, p);
    forall q | q in w ensures (watchers' - {p})[q] == Watchers(w, q) {
      assert watchers'[q] == Watchers(v, q) - {p};
    }
  }

  lemma IndexHas(keys: set<PeerId>, members: seq<PeerId>, positions: map<PeerId, nat>, p: PeerId)
    requires IsIndex(keys, members, positions) && p in keys
    ensures p in positions && positions[p] < |members| && members[positions[p]] == p
  {
    assert p in Elems(members);
    var i :| 0 <= i < |members| && members[i] == p;
  }

  lemma IndexAdd(keys: set<PeerId>, members: seq<PeerId>, positions: map<PeerId, nat>, p: PeerId)
    requires IsIndex(keys, members, positions) && p !in keys
    ensures IsIndex(keys + {p}, members + [p], positions[p := |members|])
  {
    assert Elems(members + [p]) == Elems(members) + {p};
    assert forall i :: 0 <= i < |members| ==> members[i] in Elems(members);
  }

  /** Exchanging two entries, and recording both new positions, keeps the index. */
  lemma IndexSwap(keys: set<PeerId>, members: seq<PeerId>, positions: map<PeerId, nat>, i: nat, j: nat)
    requires IsIndex(keys, members, positions) && i <= j < |members|
    ensures IsIndex(keys, members[j := members[i]][i := members[j]], positions[members[i] := j][members[j] := i])
  {
    var m := members[j := members[i]][i := members[j]];
    assert forall k :: 0 <= k < |members| ==> members[k] in Elems(members);
    assert Elems(m) == Elems(members) by {
      forall x | x in Elems(members) ensures x in Elems(m) {
        var k :| 0 <= k < |members| && members[k] == x;
        assert m[if k == i then j else if k == j then i else k] == x;
      }
    }
  }

  /** Moving the last entry into the hole keeps the index. */
  lemma IndexRemove(keys: set<PeerId>, members: seq<PeerId>, positions: map<PeerId, nat>, i: nat)
    requires IsIndex(keys, members, positions) && i < |members|
    ensures var n := |members| - 1; var last := members[n]; var p := members[i];
      if last != p
      then IsIndex(keys - {p}, members[..n][i := last], positions[last := i] - {p})
      else IsIndex(keys - {p}, members[..n], positions - {p})
  {
    var n := |members| - 1;
    var last := members[n];
    var p := members[i];
    assert forall k :: 0 <= k < |members| ==> members[k] in Elems(members);
    var m := if last != p then members[..n][i := last] else members[..n];
    assert Elems(m) == keys - {p} by {
      forall x | x in Elems(members) && x != p ensures x in Elems(m) {
        var k :| 0 <= k < |members| && members[k] == x;
        assert m[if k == n then i else k] == x;
      }
    }
  }

  class NeighborViews {
    const size: nat
    var views: Views
    var watchers: Views
    var members: seq<PeerId>
    var positions: map<PeerId, nat>

    ghost predicate Valid()
      reads this
    {
      && 0 < size
      && WellFormed(size, views)
      && IsTranspose(views, watchers)
      && IsIndex(views.Keys, members, positions)
    }

    constructor (size: nat)
      requires 0 < size
      ensures Valid() && views == map[] && this.size == size
    {
      this.size := size;
      views, watchers, members, positions := map[], map[], [], map[];
    }

    method RemoveBroadcast()
      requires Valid()
      modifies this
      ensures Valid() && views == map[]
    {
      views, watchers, members, positions := map[], map[], [], map[];
    }

    method Add(p: PeerId)
      requires Valid()
      modifies this
      ensures Valid() && views == Added(old(views), p)
    {
      if p in positions { return; }
      IndexAdd(views.Keys, members, positions, p);
      AddKeepsWellFormed(size, views, p);
      TransposeAdd(size, views, watchers, p);
      hide IsIndex, WellFormed, IsTranspose;
      positions := positions[p := |members|];
      members := members + [p];
      views := views[p := {}];
      watchers := watchers[p := {}];
      assert views.Keys == old(views).Keys + {p};
    }

    predicate HasRoom(p: PeerId)
      reads this
    {
      (if p in views then |views[p]| else 0) < size
    }

    method Link(from: PeerId, to: PeerId)
      requires from in views && IsTranspose(views, watchers) && to in views
      modifies this`views, this`watchers
      ensures IsTranspose(views, watchers)
      ensures views == old(views)[from := old(views)[from] + {to}]
    {
      TransposeSet(views, watchers, from, to, true);
      hide IsTranspose;
      views := views[from := views[from] + {to}];
      watchers := watchers[to := watchers[to] + {from}];
    }

    method Unlink(from: PeerId, to: PeerId)
      requires from in views && IsTranspose(views, watchers) && to in views
      modifies this`views, this`watchers
      ensures IsTranspose(views, watchers)
      ensures views == old(views)[from := old(views)[from] - {to}]
    {
      TransposeSet(views, watchers, from, to, false);
      hide IsTranspose;
      views := views[from := views[from] - {to}];
      watchers := watchers[to := watchers[to] - {from}];
    }

    /**
     Tops up a member's view. `random()` can be anything in [0, 1), so `:|` picks any member
     not yet examined; the result is one of the reports `IsFill` allows.
     */
    method Fill(p: PeerId) returns (f: NeighborViewFill)
      requires Valid()
      modifies this
      ensures Valid()
      ensures IsFill(size, old(views), p, f) && views == AfterFill(old(views), p, f)
    {
      hide IsIndex, IsTranspose, IsFill, AfterFill, Shows, WellFormed, RoomFirst;
      f := NO_FILL;
      if p !in views || size - |views[p]| <= 0 {
        NothingToFill(size, views, p);
        return;
      }
      var wanted := size - |views[p]|;
      var candidates := Sample(p, wanted);
      f := LinkAll(p, candidates);
      LinksAreFill(size, old(views), p, candidates, f, views);
      FillKeepsWellFormed(size, old(views), p, f);
    }

    /**
     Swaps random members to the front of the list, one by one, and examines each. Nobody is examined
     twice, and only `p` itself and its neighbors are turned away, so when the budget runs out `wanted`
     candidates were found, or nobody was left to examine.
     */
    method Sample(p: PeerId, wanted: nat) returns (candidates: seq<PeerId>)
      requires p in views && 0 < wanted && IsIndex(views.Keys, members, positions)
      modifies this`members, this`positions
      ensures IsIndex(views.Keys, members, positions)
      ensures Distinct(candidates) && Elems(candidates) <= views.Keys - views[p] - {p}
      ensures |candidates| < wanted ==> Elems(candidates) == views.Keys - views[p] - {p}
      ensures RoomFirst(size, views, candidates)
    {
      var withRoom: seq<PeerId>, full: seq<PeerId> := [], [];
      var budget := |views[p]| + 1 + Max(wanted * 8, 64);
      var index := 0;
      ghost var skipped: set<PeerId> := {};
      assert Sampling(size, views, p, Elems(members[..0]), 0, {}, [], []);
      assert Elems(members) == views.Keys;
      hide IsIndex, Sampling;
      while index < |members| && |withRoom| < wanted && index < budget
        invariant index <= |members| && IsIndex(views.Keys, members, positions) && Elems(members) == views.Keys
        invariant Sampling(size, views, p, Elems(members[..index]), index, skipped, withRoom, full)
        decreases |members| - index
      {
        ghost var examined, before := Elems(members[..index]), members;
        var candidate := Examine(index);
        ExaminedPrefix(before, members, index);
        SampledOneMore(size, views, p, examined, index, skipped, withRoom, full, candidate);
        if candidate == p || candidate in views[p] {
          skipped := skipped + {candidate};
        } else if HasRoom(candidate) {
          withRoom := withRoom + [candidate];
        } else {
          full := full + [candidate];
        }
        index := index + 1;
      }
      candidates := withRoom + full;
      assert members[..|members|] == members;
      SampleIsEnough(size, views, p, Elems(members[..index]), index, skipped, withRoom, full, wanted);
    }

    /** Moves a random member that was not examined yet to `index`. */
    method Examine(index: nat) returns (candidate: PeerId)
      requires index < |members| && IsIndex(views.Keys, members, positions)
      modifies this`members, this`positions
      ensures IsIndex(views.Keys, members, positions) && Elems(members) == views.Keys
      ensures |members| == |old(members)| && members[..index] == old(members)[..index] && members[index] == candidate
      ensures candidate in views && candidate !in Elems(old(members)[..index])
    {
      var swap :| index <= swap < |members|;
      IndexSwap(views.Keys, members, positions, index, swap);
      ExamineNext(views.Keys, members, positions, index, swap);
      hide IsIndex;
      candidate := members[swap];
      var displaced := members[index];
      members := members[swap := displaced][index := candidate];
      positions := positions[displaced := swap][candidate := index];
    }

    /** Links `p` and one candidate. */
    method LinkBoth(p: PeerId, candidate: PeerId, ghost v: Views, f: NeighborViewFill) returns (g: NeighborViewFill)
      requires 0 < size && IsTranspose(views, watchers) && Shows(size, v, p, f, views)
      requires CanLinkNext(size, v, p, f, candidate) && v[candidate] <= v.Keys
      modifies this`views, this`watchers
      ensures IsTranspose(views, watchers) && Shows(size, v, p, g, views) && g.added == f.added + [candidate]
    {
      CandidateUntouched(size, v, p, f, candidate, views);
      hide IsTranspose, Shows, CanLinkNext, Dropped;
      ghost var w := views;
      Link(p, candidate);
      if p in views[candidate] {
        LinkOneWay(size, v, p, f, candidate, w);
        g := f.(added := f.added + [candidate]);
      } else {
        var evicted := LinkBack(p, candidate);
        LinkBothWays(size, v, p, f, candidate, evicted, w);
        g := NeighborViewFill(f.added + [candidate], f.reciprocal + [candidate], f.evicted + evicted);
      }
    }

    /** Adds `p` to the candidate's view; a full view drops a random neighbor first. */
    method LinkBack(p: PeerId, candidate: PeerId) returns (evicted: seq<Eviction>)
      requires IsTranspose(views, watchers) && p in views && candidate in views && 0 < size
      requires views[candidate] <= views.Keys
      modifies this`views, this`watchers
      ensures IsTranspose(views, watchers)
      ensures if |old(views)[candidate]| < size then evicted == []
        else |evicted| == 1 && evicted[0].watcher == candidate && evicted[0].peerId in old(views)[candidate]
      ensures views == old(views)[candidate := old(views)[candidate] - Dropped(evicted, candidate) + {p}]
    {
      hide IsTranspose;
      evicted := [];
      OneDropped(candidate);
      if !HasRoom(candidate) {
        var dropped :| dropped in views[candidate];
        Unlink(candidate, dropped);
        evicted := [Eviction(candidate, dropped)];
      }
      hide Dropped;
      assert old(views)[candidate] - {} == old(views)[candidate];
      Link(candidate, p);
    }

    lemma OneDropped(watcher: PeerId)
      ensures Dropped([], watcher) == {} && forall p :: Dropped([Eviction(watcher, p)], watcher) == {p}
    {
      forall p ensures Dropped([Eviction(watcher, p)], watcher) == {p} {
        assert Eviction(watcher, p) in [Eviction(watcher, p)];
      }
    }

    /** Links `p` to the candidates until its view is full, and each of them back to `p`. */
    method LinkAll(p: PeerId, candidates: seq<PeerId>) returns (f: NeighborViewFill)
      requires 0 < size && WellFormed(size, views) && IsTranspose(views, watchers) && p in views && |views[p]| < size
      requires Distinct(candidates) && Elems(candidates) <= views.Keys - views[p] - {p}
      requires RoomFirst(size, views, candidates)
      modifies this`views, this`watchers
      ensures IsTranspose(views, watchers) && Shows(size, old(views), p, f, views)
      ensures |old(views)[p]| + |f.added| == Min(size, |old(views)[p]| + |candidates|)
    {
      ghost var v := views;
      f := NO_FILL;
      NothingLinked(size, v, p);
      for i := 0 to |candidates|
        invariant IsTranspose(views, watchers) && Shows(size, v, p, f, views) && f.added == candidates[..i]
        invariant |v[p]| + i <= size
      {
        FilledSize(size, v, p, f, views);
        if |views[p]| >= size { break; }
        CandidateNext(size, v, p, candidates, i, f);
        f := LinkBoth(p, candidates[i], v, f);
      }
    }

    /** Takes `p` out of every view and out of the member list; the result names each member that lost it, once. */
    method Leave(p: PeerId) returns (lost: seq<PeerId>)
      requires Valid()
      modifies this
      ensures Valid()
      ensures p !in old(views) ==> lost == [] && views == old(views)
      ensures p in old(views) ==> AreLosers(old(views), p, lost) && views == Left(old(views), p)
    {
      if p !in positions { return []; }
      IndexHas(views.Keys, members, positions, p);
      LeaveKeepsWellFormed(size, views, p);
      assert p !in views[p] && views[p] <= views.Keys;
      hide IsIndex, WellFormed, IsTranspose, Left, AreLosers;
      RemoveMember(p);
      ghost var v, w := views, watchers;
      UnwatchNeighbors(p);
      lost := ForgetByWatchers(p);
      UnlinkedBothWays(v, w, views, watchers, p);
      views := views - {p};
      watchers := watchers - {p};
    }

    /** Takes `p` out of the member list: the last member moves into its place. */
    method RemoveMember(p: PeerId)
      requires p in positions && IsIndex(views.Keys, members, positions)
      requires positions[p] < |members| && members[positions[p]] == p
      modifies this`members, this`positions
      ensures IsIndex(views.Keys - {p}, members, positions)
    {
      var position := positions[p];
      IndexRemove(views.Keys, members, positions, position);
      hide IsIndex;
      var last := members[|members| - 1];
      members := members[..|members| - 1];
      if last != p {
        members := members[position := last];
        positions := positions[last := position];
      }
      positions := positions - {p};
    }

    /** Tells every neighbor of `p` that `p` no longer watches it. */
    method UnwatchNeighbors(p: PeerId)
      requires p in views && views[p] <= views.Keys == watchers.Keys
      modifies this`watchers
      ensures watchers.Keys == old(watchers).Keys
      ensures forall b :: b in watchers ==>
        watchers[b] == if b in views[p] then old(watchers)[b] - {p} else old(watchers)[b]
    {
      var neighbors := views[p];
      while neighbors != {}
        invariant neighbors <= views[p] && watchers.Keys == old(watchers).Keys
        invariant forall b :: b in watchers ==>
          watchers[b] == if b in views[p] - neighbors then old(watchers)[b] - {p} else old(watchers)[b]
      {
        var neighbor :| neighbor in neighbors;
        watchers := watchers[neighbor := watchers[neighbor] - {p}];
        neighbors := neighbors - {neighbor};
      }
    }

    /** Takes `p` out of the view of every peer that watches it, and returns those peers. */
    method ForgetByWatchers(p: PeerId) returns (lost: seq<PeerId>)
      requires p in watchers && watchers[p] <= views.Keys
      modifies this`views
      ensures Distinct(lost) && Elems(lost) == watchers[p] && views.Keys == old(views).Keys
      ensures forall q :: q in views ==> views[q] == if q in watchers[p] then old(views)[q] - {p} else old(views)[q]
    {
      lost := [];
      var rest := watchers[p];
      while rest != {}
        invariant rest <= watchers[p] && views.Keys == old(views).Keys
        invariant Distinct(lost) && Elems(lost) == watchers[p] - rest
        invariant forall q :: q in views ==>
          views[q] == if q in watchers[p] - rest then old(views)[q] - {p} else old(views)[q]
      {
        var watcher :| watcher in rest;
        ghost var before := lost;
        assert watcher !in Elems(lost);
        lost := lost + [watcher];
        assert Elems(lost) == Elems(before) + {watcher};
        views := views[watcher := views[watcher] - {p}];
        rest := rest - {watcher};
      }
    }
  }
}
