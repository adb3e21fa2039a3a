/**
 The stateful default scheduler (peer/src/weighted-score-scheduler.ts): smoothed quality metrics per
 peer, a weighted score, and a plan that selects the best peer. Peer metrics are finite here.
 */
module WeightedScheduler {
  import opened Wrappers
  import opened Scheduler

  datatype Metrics = Metrics(latencyMs: real, successRate: real, uploadBandwidthBps: real, trustScore: real)

  datatype Peer = Peer(id: string, metrics: Metrics, segments: set<string>, originalIndex: Option<int>)

  datatype Observation = Observation(peerId: string, succeeded: bool, latencyMs: real, bytes: real,
    integrityFailure: bool)

  const POLICY := "weighted-score"
  const MINIMUM_TRUST_SCORE := 0.3
  const ALPHA := 0.3

  function Most(a: real, b: real): real { if a < b then b else a }

  function UnitClamp(x: real): real { if x < 0.0 then 0.0 else if x > 1.0 then 1.0 else x }

  function Average(previous: real, observed: real): real { ALPHA * observed + (1.0 - ALPHA) * previous }

  ghost predicate MetricsOk(m: Metrics) {
    m.latencyMs >= 0.0 && 0.0 <= m.successRate <= 1.0 && m.uploadBandwidthBps >= 0.0 && 0.0 <= m.trustScore <= 1.0
  }

  function Smoothed(a: Metrics, b: Metrics): Metrics {
    Metrics(Average(a.latencyMs, b.latencyMs), Average(a.successRate, b.successRate),
            Average(a.uploadBandwidthBps, b.uploadBandwidthBps), Average(a.trustScore, b.trustScore))
  }

  lemma SmoothingKeepsRange(a: Metrics, b: Metrics)
    requires MetricsOk(a) && MetricsOk(b)
    ensures MetricsOk(Smoothed(a, b))
  {
  }

  /** Every metric moves by 0.3 of its distance to what was observed. */
  lemma SmoothingMoves(a: Metrics, b: Metrics)
    ensures Smoothed(a, b).latencyMs - a.latencyMs == 0.3 * (b.latencyMs - a.latencyMs)
    ensures Smoothed(a, b).successRate - a.successRate == 0.3 * (b.successRate - a.successRate)
    ensures Smoothed(a, b).uploadBandwidthBps - a.uploadBandwidthBps ==
      0.3 * (b.uploadBandwidthBps - a.uploadBandwidthBps)
    ensures Smoothed(a, b).trustScore - a.trustScore == 0.3 * (b.trustScore - a.trustScore)
  {
  }

  /** The share of the best upload bandwidth. */
  function BandwidthScore(bps: real, maximum: real): real { if maximum <= 0.0 then 0.0 else UnitClamp(bps / maximum) }

  function Score(m: Metrics, maximumUploadBandwidthBps: real): real {
    var latency := Most(m.latencyMs, 0.0) / 1000.0;
    0.3 * (1.0 - if latency > 1.0 then 1.0 else latency) + 0.3 * UnitClamp(m.successRate)
    + 0.2 * BandwidthScore(m.uploadBandwidthBps, maximumUploadBandwidthBps) + 0.2 * UnitClamp(m.trustScore)
  }

  lemma ScoresAreShares(m: Metrics, maximum: real)
    ensures 0.0 <= Score(m, maximum) <= 1.0
  {
  }

  /** The ranges in which a metric counts; bandwidth counts up to the largest one. */
  ghost predicate InRange(m: Metrics, maximum: real) {
    && 0.0 <= m.latencyMs <= 1000.0 && 0.0 <= m.successRate <= 1.0 && 0.0 <= m.trustScore <= 1.0
    && (maximum > 0.0 ==> 0.0 <= m.uploadBandwidthBps <= maximum)
  }

  /** The best metrics score 1 and the worst score 0. */
  lemma ScoreEnds(maximum: real)
    requires maximum > 0.0
    ensures Score(Metrics(0.0, 1.0, maximum, 1.0), maximum) == 1.0
    ensures Score(Metrics(1000.0, 0.0, 0.0, 0.0), maximum) == 0.0
  {
    assert maximum / maximum == 1.0;
  }

  /**
   Within the ranges each metric counts by its weight: 0.3 for a second of latency and for the success
   rate, 0.2 for the share of the largest bandwidth and for trust.
   */
  lemma ScoreMoves(a: Metrics, b: Metrics, maximum: real)
    requires InRange(a, maximum) && InRange(b, maximum)
    ensures Score(b, maximum) - Score(a, maximum) ==
      0.3 * ((a.latencyMs - b.latencyMs) / 1000.0) + 0.3 * (b.successRate - a.successRate)
      + 0.2 * (if maximum > 0.0 then (b.uploadBandwidthBps - a.uploadBandwidthBps) / maximum else 0.0)
      + 0.2 * (b.trustScore - a.trustScore)
  {
    if maximum > 0.0 {
      ShareIsInUnit(a.uploadBandwidthBps, maximum);
      ShareIsInUnit(b.uploadBandwidthBps, maximum);
      QuotientOfDifference(b.uploadBandwidthBps, a.uploadBandwidthBps, maximum);
    }
  }

  lemma ShareIsInUnit(x: real, maximum: real)
    requires maximum > 0.0 && 0.0 <= x <= maximum
    ensures 0.0 <= x / maximum <= 1.0
  {
    QuotientGrows(0.0, x, maximum);
    QuotientGrows(x, maximum, maximum);
  }

  lemma QuotientOfDifference(a: real, b: real, c: real)
    requires c > 0.0
    ensures (a - b) / c == a / c - b / c
  {
  }

  predicate IsNearest(x: real, y: real, low: real, high: real) {
    y == if x < low then low else if x > high then high else x
  }

  /** A metric outside its range counts as the nearest bound. */
  lemma OutsideCountsAsBound(m: Metrics, n: Metrics, maximum: real)
    requires IsNearest(m.latencyMs, n.latencyMs, 0.0, 1000.0) && IsNearest(m.successRate, n.successRate, 0.0, 1.0)
    requires IsNearest(m.trustScore, n.trustScore, 0.0, 1.0)
    requires maximum > 0.0 ==> IsNearest(m.uploadBandwidthBps, n.uploadBandwidthBps, 0.0, maximum)
    ensures Score(m, maximum) == Score(n, maximum)
  {
    if maximum > 0.0 {
      assert maximum / maximum == 1.0;
      ShareIsInUnit(n.uploadBandwidthBps, maximum);
      if m.uploadBandwidthBps < 0.0 { QuotientGrows(m.uploadBandwidthBps, 0.0, maximum); }
      if m.uploadBandwidthBps > maximum { QuotientGrows(maximum, m.uploadBandwidthBps, maximum); }
    }
  }

  /** No worse in any respect, and better in one; latencies from a second on are all the same. */
  predicate IsBetter(a: Metrics, b: Metrics) {
    && a.latencyMs <= b.latencyMs && a.successRate >= b.successRate
    && a.uploadBandwidthBps >= b.uploadBandwidthBps && a.trustScore >= b.trustScore
    && ((a.latencyMs < b.latencyMs && a.latencyMs < 1000.0) || a.successRate > b.successRate
        || a.uploadBandwidthBps > b.uploadBandwidthBps || a.trustScore > b.trustScore)
  }

  lemma StrictlyBetterScoresHigher(a: Metrics, b: Metrics, maximum: real)
    requires MetricsOk(a) && MetricsOk(b) && IsBetter(a, b) && a.uploadBandwidthBps <= maximum
    ensures Score(a, maximum) > Score(b, maximum)
  {
    var a1 := a.(latencyMs := if a.latencyMs > 1000.0 then 1000.0 else a.latencyMs);
    var b1 := b.(latencyMs := if b.latencyMs > 1000.0 then 1000.0 else b.latencyMs);
    OutsideCountsAsBound(a, a1, maximum);
    OutsideCountsAsBound(b, b1, maximum);
    ScoreMoves(b1, a1, maximum);
    if maximum > 0.0 { QuotientRises(a.uploadBandwidthBps - b.uploadBandwidthBps, maximum); }
  }

  lemma QuotientRises(a: real, c: real)
    requires c > 0.0 && a >= 0.0
    ensures a / c >= 0.0 && (a > 0.0 ==> a / c > 0.0)
  {
    assert a / c * c == a;
  }

  /** A peer that is no worse in any respect scores no worse. */
  lemma BetterScoresHigher(a: Metrics, b: Metrics, maximum: real)
    requires a.latencyMs <= b.latencyMs && a.successRate >= b.successRate && a.trustScore >= b.trustScore
    requires a.uploadBandwidthBps >= b.uploadBandwidthBps
    ensures Score(a, maximum) >= Score(b, maximum)
  {
    if maximum > 0.0 { QuotientGrows(b.uploadBandwidthBps, a.uploadBandwidthBps, maximum); }
  }

  lemma QuotientGrows(a: real, b: real, c: real)
    requires c > 0.0 && a <= b
    ensures a / c <= b / c
  {
    assert a / c * c == a && b / c * c == b;
    assert (b / c - a / c) * c >= 0.0;
  }

  // ---- Ranking ----

  datatype Entry = Entry(peer: Peer, inputIndex: nat, score: real)

  function Position(e: Entry): int { if e.peer.originalIndex.Some? then e.peer.originalIndex.value else e.inputIndex }

  /** Higher scores first; ties in the original order. */
  predicate InOrder(a: Entry, b: Entry) { a.score > b.score || (a.score == b.score && Position(a) <= Position(b)) }

  ghost predicate Sorted(es: seq<Entry>) { forall i, j :: 0 <= i < j < |es| ==> InOrder(es[i], es[j]) }

  function Insert(es: seq<Entry>, e: Entry): seq<Entry> {
    if es == [] || !InOrder(es[0], e) then [e] + es else [es[0]] + Insert(es[1..], e)
  }

  function Sort(es: seq<Entry>): seq<Entry> { if es == [] then [] else Insert(Sort(es[..|es| - 1]), es[|es| - 1]) }

  lemma {:induction false} InsertSorts(es: seq<Entry>, e: Entry)
    requires Sorted(es)
    ensures Sorted(Insert(es, e)) && multiset(Insert(es, e)) == multiset(es) + multiset{e}
  {
    if es != [] {
      assert es == [es[0]] + es[1..];
      if InOrder(es[0], e) {
        InsertSorts(es[1..], e);
        var rest := Insert(es[1..], e);
        forall j | 0 <= j < |rest| ensures InOrder(es[0], rest[j]) {
          assert rest[j] in multiset(rest);
          assert rest[j] == e || rest[j] in es[1..];
        }
      }
    }
  }

  lemma {:induction false} SortSorts(es: seq<Entry>)
    ensures Sorted(Sort(es)) && multiset(Sort(es)) == multiset(es)
  {
    if es != [] {
      var rest, last := es[..|es| - 1], es[|es| - 1];
      SortSorts(rest);
      InsertSorts(Sort(rest), last);
      assert Sort(es) == Insert(Sort(rest), last);
      hide Sorted, Sort, Insert;
      assert multiset(es) == multiset(rest) + multiset{last} by { assert es == rest + [last]; }
    }
  }

  ghost predicate DistinctIndexes(es: seq<Entry>) {
    forall i, j :: 0 <= i < j < |es| ==> es[i].inputIndex != es[j].inputIndex
  }

  lemma {:induction false} InsertKeepsDistinct(es: seq<Entry>, e: Entry)
    requires DistinctIndexes(es) && forall x :: x in es ==> x.inputIndex != e.inputIndex
    ensures DistinctIndexes(Insert(es, e)) && forall x :: x in Insert(es, e) <==> x == e || x in es
  {
    if es != [] && InOrder(es[0], e) {
      assert es == [es[0]] + es[1..];
      InsertKeepsDistinct(es[1..], e);
      var rest := Insert(es[1..], e);
      forall j | 0 <= j < |rest| ensures rest[j].inputIndex != es[0].inputIndex {
        assert rest[j] in rest;
      }
    }
  }

  /** Sorting ranks nobody twice. */
  lemma {:induction false} SortKeepsDistinct(es: seq<Entry>)
    requires DistinctIndexes(es)
    ensures DistinctIndexes(Sort(es)) && forall x :: x in Sort(es) <==> x in es
  {
    if es != [] {
      var rest, e := es[..|es| - 1], es[|es| - 1];
      SortKeepsDistinct(rest);
      InsertKeepsDistinct(Sort(rest), e);
      assert es == rest + [e];
    }
  }

  function RankedPeers(es: seq<Entry>): seq<Ranked> {
    seq(|es|, i requires 0 <= i < |es| =>
      Ranked(es[i].peer.id, Finite((i + 1) as real), Some(Finite(es[i].score)), true))
  }

  function OriginOnly(): Plan { Plan(Text(POLICY), Text("origin"), Some([]), Some([]), NoExecution) }

  function Selecting(ranked: seq<Entry>): Plan
    requires ranked != []
  {
    Plan(Text(POLICY), Text("single-peer"), Some([Text(ranked[0].peer.id)]), Some(RankedPeers(ranked)), NoExecution)
  }

  function CandidatesOf(peers: seq<Peer>): seq<Candidate> {
    seq(|peers|, i requires 0 <= i < |peers| => Candidate(peers[i].id, peers[i].segments))
  }

  ghost predicate DistinctIds(peers: seq<Peer>) { forall i, j :: 0 <= i < j < |peers| ==> peers[i].id != peers[j].id }

  predicate IsEligible(p: Peer, ctx: Context) {
    p.id != ctx.selfPeerId && p.metrics.trustScore >= MINIMUM_TRUST_SCORE &&
      (ctx.segmentId == "" || ctx.segmentId in p.segments)
  }

  lemma RanksInOrder(es: seq<Entry>)
    ensures IsPermutation(RankedPeers(es))
  {
    var ranked := RankedPeers(es);
    forall k | 1 <= k <= |ranked| ensures HasRank(ranked, k) {
      assert ranked[k - 1].rank == Finite(k as real);
    }
  }

  /** A plan that ranks eligible peers of the request is valid. */
  lemma SelectingIsValid(ranked: seq<Entry>, peers: seq<Peer>, ctx: Context)
    requires ranked != [] && DistinctIds(peers) && ctx.candidates == CandidatesOf(peers)
    requires forall e :: e in ranked ==>
      e.inputIndex < |peers| && peers[e.inputIndex] == e.peer && IsEligible(e.peer, ctx)
    requires DeadlineOk(ctx.deadline) && ctx.maximumParallelism >= 1
    ensures ValidPlan(Selecting(ranked), POLICY, ctx)
  {
    RanksInOrder(ranked);
    var entries := RankedPeers(ranked);
    forall r | r in entries ensures EntryOk(ctx, r) {
      var i :| 0 <= i < |entries| && entries[i] == r;
      assert ranked[i] in ranked && ctx.candidates[ranked[i].inputIndex].id == r.peerId;
    }
    var best := ranked[0];
    assert best in ranked && ctx.candidates[best.inputIndex] == Candidate(best.peer.id, best.peer.segments);
    assert CanServe(ctx, best.peer.id);
  }

  lemma OriginOnlyIsValid(ctx: Context)
    requires DeadlineOk(ctx.deadline) && ctx.maximumParallelism >= 1
    ensures ValidPlan(OriginOnly(), POLICY, ctx)
  {
    RanksInOrder([]);
  }

  // ---- The scheduler ----

  /** What the tracker says of a peer, in range. */
  function Seen(p: Peer): Metrics {
    Metrics(Most(0.0, p.metrics.latencyMs), UnitClamp(p.metrics.successRate),
            Most(0.0, p.metrics.uploadBandwidthBps), UnitClamp(p.metrics.trustScore))
  }

  predicate IsAsked(peers: seq<Peer>, ctx: Context, id: string) {
    exists p :: p in peers && p.id == id && IsEligible(p, ctx)
  }

  /** Of these peers the eligible ones had what the tracker says smoothed in once; all other metrics are as before. */
  ghost predicate SmoothedIn(before: map<string, Metrics>, after: map<string, Metrics>, peers: seq<Peer>,
                             ctx: Context) {
    && (forall p :: p in peers && IsEligible(p, ctx) ==>
          p.id in after && after[p.id] == if p.id in before then Smoothed(before[p.id], Seen(p)) else Seen(p))
    && (forall id :: !IsAsked(peers, ctx, id) ==>
          (id in after <==> id in before) && (id in after ==> after[id] == before[id]))
  }

  lemma NothingSmoothed(metrics: map<string, Metrics>, peers: seq<Peer>, ctx: Context)
    ensures SmoothedIn(metrics, metrics, peers[..0], ctx)
  {
  }

  lemma SmoothedOneMore(before: map<string, Metrics>, after: map<string, Metrics>, after1: map<string, Metrics>,
                        peers: seq<Peer>, k: nat, ctx: Context)
    requires DistinctIds(peers) && k < |peers| && SmoothedIn(before, after, peers[..k], ctx)
    requires var p := peers[k];
      after1 == if !IsEligible(p, ctx) then after
        else after[p.id := if p.id in after then Smoothed(after[p.id], Seen(p)) else Seen(p)]
    ensures SmoothedIn(before, after1, peers[..k + 1], ctx)
  {
    hide IsEligible, Smoothed, Seen, IsAsked, DistinctIds;
    var more, p := peers[..k + 1], peers[k];
    assert more == peers[..k] + [p];
    NotAskedBefore(peers, k, ctx);
    forall id
      ensures !IsAsked(more, ctx, id) ==>
        (id in after1 <==> id in before) && (id in after1 ==> after1[id] == before[id])
    {
      AskedOneMore(peers[..k], p, ctx, id);
    }
    forall q | q in more && IsEligible(q, ctx)
      ensures q.id in after1
      ensures after1[q.id] == if q.id in before then Smoothed(before[q.id], Seen(q)) else Seen(q)
    {
      assert q in peers[..k] || q == p;
    }
  }

  lemma AskedOneMore(peers: seq<Peer>, p: Peer, ctx: Context, id: string)
    ensures IsAsked(peers + [p], ctx, id) <==> IsAsked(peers, ctx, id) || (IsEligible(p, ctx) && p.id == id)
  {
    hide IsEligible;
    assert p in peers + [p];
    if q :| q in peers && q.id == id && IsEligible(q, ctx) { assert q in peers + [p]; }
  }

  lemma NotAskedBefore(peers: seq<Peer>, k: nat, ctx: Context)
    requires DistinctIds(peers) && k < |peers|
    ensures !IsAsked(peers[..k], ctx, peers[k].id) && forall q :: q in peers[..k] ==> q.id != peers[k].id
  {
    hide IsEligible;
    forall q | q in peers[..k] ensures q.id != peers[k].id { var i :| 0 <= i < k && peers[i] == q; }
  }

  class WeightedScoreScheduler {
    const urgentThresholdSegments: real
    var peerMetrics: map<string, Metrics>
    var peerTrustScores: map<string, real>

    ghost predicate Valid()
      reads this
    {
      && (forall k :: k in peerMetrics ==> MetricsOk(peerMetrics[k]))
      && (forall k :: k in peerTrustScores ==> 0.0 <= peerTrustScores[k] <= 1.0)
    }

    constructor (urgentThresholdSegments: real)
      ensures Valid() && peerMetrics == map[] && this.urgentThresholdSegments == urgentThresholdSegments
    {
      this.urgentThresholdSegments := urgentThresholdSegments;
      peerMetrics, peerTrustScores := map[], map[];
    }

    /** Smooths in what the tracker says of a peer. */
    method MetricsFor(p: Peer) returns (m: Metrics)
      requires Valid()
      modifies this`peerMetrics, this`peerTrustScores
      ensures Valid() && MetricsOk(m) && peerMetrics == old(peerMetrics)[p.id := m]
      ensures m == if p.id in old(peerMetrics) then Smoothed(old(peerMetrics)[p.id], Seen(p)) else Seen(p)
      ensures peerTrustScores == old(peerTrustScores)[p.id := UnitClamp(p.metrics.trustScore)]
    {
      var seen := Seen(p);
      peerTrustScores := peerTrustScores[p.id := seen.trustScore];
      m := seen;
      if p.id in peerMetrics {
        SmoothingKeepsRange(peerMetrics[p.id], seen);
        m := Smoothed(peerMetrics[p.id], seen);
      }
      peerMetrics := peerMetrics[p.id := m];
    }

    method ObservePeer(o: Observation)
      requires Valid()
      modifies this`peerMetrics
      ensures Valid() && peerMetrics.Keys == old(peerMetrics).Keys
      ensures forall k :: k in peerMetrics && k != o.peerId ==> peerMetrics[k] == old(peerMetrics)[k]
      ensures o.peerId in peerMetrics ==>
        var before, after := old(peerMetrics)[o.peerId], peerMetrics[o.peerId];
        var trust := if o.integrityFailure then 0.0
          else if o.peerId in peerTrustScores then peerTrustScores[o.peerId] else before.trustScore;
        var bps := if o.succeeded then Most(0.0, o.bytes) * 8.0 / (Most(Most(0.0, o.latencyMs), 1.0) / 1000.0) else 0.0;
        && after.latencyMs - before.latencyMs == 0.3 * (Most(0.0, o.latencyMs) - before.latencyMs)
        && after.trustScore - before.trustScore == 0.3 * (trust - before.trustScore)
        && after.successRate - before.successRate == 0.3 * ((if o.succeeded then 1.0 else 0.0) - before.successRate)
        && after.uploadBandwidthBps - before.uploadBandwidthBps == 0.3 * (bps - before.uploadBandwidthBps)
      ensures o.peerId in peerMetrics && o.succeeded && !o.integrityFailure ==>
        peerMetrics[o.peerId].successRate >= old(peerMetrics)[o.peerId].successRate
      ensures o.peerId in peerMetrics && !o.succeeded ==>
        peerMetrics[o.peerId].successRate <= old(peerMetrics)[o.peerId].successRate &&
        peerMetrics[o.peerId].uploadBandwidthBps <= old(peerMetrics)[o.peerId].uploadBandwidthBps
    {
      if o.peerId !in peerMetrics { return; }
      var previous := peerMetrics[o.peerId];
      var latencyMs, bytes := Most(0.0, o.latencyMs), Most(0.0, o.bytes);
      var elapsedSeconds := Most(latencyMs, 1.0) / 1000.0;
      var trust := if o.integrityFailure then 0.0
        else if o.peerId in peerTrustScores then peerTrustScores[o.peerId] else previous.trustScore;
      var bps := if o.succeeded then bytes * 8.0 / elapsedSeconds else 0.0;
      RateIsPositive(bytes * 8.0, elapsedSeconds);
      var observed := Metrics(latencyMs, if o.succeeded then 1.0 else 0.0, bps, trust);
      SmoothingKeepsRange(previous, observed);
      SmoothingMoves(previous, observed);
      peerMetrics := peerMetrics[o.peerId := Smoothed(previous, observed)];
    }

    lemma RateIsPositive(a: real, b: real)
      requires a >= 0.0 && b > 0.0
      ensures a / b >= 0.0
    {
    }

    /** Forgets peers that are gone. */
    method ReconcilePeers(current: set<string>)
      requires Valid()
      modifies this`peerMetrics, this`peerTrustScores
      ensures Valid() && peerMetrics == map k | k in old(peerMetrics) && k in current :: old(peerMetrics)[k]
      ensures peerTrustScores == old(peerTrustScores) - (old(peerMetrics).Keys - current)
    {
      var gone := peerMetrics.Keys - current;
      peerMetrics := peerMetrics - gone;
      peerTrustScores := peerTrustScores - gone;
    }

    /**
     Ranks the eligible peers whose smoothed trust suffices, best first, and selects the best. For
     any history and any well-formed request with distinct peers the plan passes the validator.
     */
    method PlanSegment(ctx: Context, peers: seq<Peer>, segmentsAhead: Option<real>)
      returns (plan: Plan, ghost ranked: seq<Entry>, ghost maximum: real)
      requires Valid() && DistinctIds(peers) && ctx.candidates == CandidatesOf(peers)
      modifies this`peerMetrics, this`peerTrustScores
      ensures Valid() && Sorted(ranked) && DistinctIndexes(ranked)
      ensures (forall e :: e in ranked ==> 0.0 <= e.score <= 1.0)
      ensures forall e :: e in ranked ==> e.peer.id in peerMetrics && e.score == Score(peerMetrics[e.peer.id], maximum)
      ensures IsHighest(maximum, ranked) && BestFirst(ranked)
      ensures plan.Plan? && (ranked == [] ==> plan.mode == Text("origin"))
      ensures ranked != [] ==> plan.mode == Text("single-peer") && plan.peerIds == Some([Text(ranked[0].peer.id)])
      ensures plan == if ranked == [] then OriginOnly() else Selecting(ranked)
      ensures DeadlineOk(ctx.deadline) && ctx.maximumParallelism >= 1 ==> ValidPlan(plan, POLICY, ctx)
      ensures segmentsAhead.Some? && segmentsAhead.value < urgentThresholdSegments ==> ranked == []
      ensures !(segmentsAhead.Some? && segmentsAhead.value < urgentThresholdSegments) ==>
        RanksExactly(ranked, peers, ctx) && SmoothedIn(old(peerMetrics), peerMetrics, peers, ctx)
      ensures segmentsAhead.Some? && segmentsAhead.value < urgentThresholdSegments ==> peerMetrics == old(peerMetrics)
    {
      ranked, maximum := [], 0.0;
      assert Sorted([]) && DistinctIndexes([]);
      hide ValidPlan, Sorted, Score, DistinctIndexes;
      if DeadlineOk(ctx.deadline) && ctx.maximumParallelism >= 1 { OriginOnlyIsValid(ctx); }
      if segmentsAhead.Some? && segmentsAhead.value < urgentThresholdSegments { return OriginOnly(), [], 0.0; }
      var indexes := Candidates(ctx, peers);
      var sorted, highest := Rank(peers, indexes);
      ranked, maximum := sorted, highest;
      RanksAll(sorted, indexes, peers, ctx);
      if sorted == [] { return OriginOnly(), ranked, maximum; }
      plan := Selecting(sorted);
      if DeadlineOk(ctx.deadline) && ctx.maximumParallelism >= 1 { SelectingIsValid(sorted, peers, ctx); }
    }

    lemma RanksAll(ranked: seq<Entry>, indexes: seq<nat>, peers: seq<Peer>, ctx: Context)
      requires forall i: nat :: i in indexes <==> i < |peers| && IsEligible(peers[i], ctx) && IsTrusted(peers[i].id)
      requires forall e :: e in ranked ==> e.inputIndex in indexes && peers[e.inputIndex] == e.peer
      requires forall i :: i in indexes ==> exists e :: e in ranked && e.inputIndex == i
      ensures RanksExactly(ranked, peers, ctx)
    {
    }

    /** The peers at these indexes with their scores, best first. */
    method Rank(peers: seq<Peer>, indexes: seq<nat>) returns (ranked: seq<Entry>, maximum: real)
      requires Valid() && (forall i :: i in indexes ==> i < |peers| && peers[i].id in peerMetrics)
      requires forall i, j :: 0 <= i < j < |indexes| ==> indexes[i] < indexes[j]
      ensures Sorted(ranked) && DistinctIndexes(ranked) && IsHighest(maximum, ranked) && BestFirst(ranked)
      ensures forall e :: e in ranked ==> e.inputIndex in indexes && peers[e.inputIndex] == e.peer
      ensures forall i :: i in indexes ==> exists e :: e in ranked && e.inputIndex == i
      ensures forall e :: e in ranked ==>
        0.0 <= e.score <= 1.0 && e.peer.id in peerMetrics && e.score == Score(peerMetrics[e.peer.id], maximum)
    {
      var entries, highest := Scored(peers, indexes);
      hide Score, Sorted, Sort;
      maximum := highest;
      forall i | i in indexes ensures exists e :: e in entries && e.inputIndex == i {
        var k :| 0 <= k < |indexes| && indexes[k] == i;
        assert entries[k] in entries;
      }
      SortSorts(entries);
      SortKeepsDistinct(entries);
      ranked := Sort(entries);
      SortedIsBestFirst(ranked, maximum);
    }

    /** Better peers come first, and equally good ones in the original order. */
    ghost predicate BestFirst(ranked: seq<Entry>)
      reads this
    {
      forall i, j :: 0 <= i < |ranked| && 0 <= j < |ranked| ==>
        ranked[i].peer.id in peerMetrics && ranked[j].peer.id in peerMetrics ==>
        && (IsBetter(peerMetrics[ranked[i].peer.id], peerMetrics[ranked[j].peer.id]) ==> i < j)
        && (i < j && peerMetrics[ranked[i].peer.id] == peerMetrics[ranked[j].peer.id] ==>
              match (ranked[i].peer.originalIndex, ranked[j].peer.originalIndex)
              case (Some(k), Some(l)) => k <= l
              case (None, None) => ranked[i].inputIndex <= ranked[j].inputIndex
              case _ => true)
    }

    lemma SortedIsBestFirst(ranked: seq<Entry>, maximum: real)
      requires Valid() && Sorted(ranked) && IsHighest(maximum, ranked)
      requires forall e :: e in ranked ==> e.peer.id in peerMetrics && e.score == Score(peerMetrics[e.peer.id], maximum)
      ensures BestFirst(ranked)
    {
      hide Score;
      forall i, j | 0 <= i < |ranked| && 0 <= j < |ranked|
        && IsBetter(peerMetrics[ranked[i].peer.id], peerMetrics[ranked[j].peer.id])
        ensures i < j
      {
        assert j < i ==> InOrder(ranked[j], ranked[i]);
        StrictlyBetterScoresHigher(peerMetrics[ranked[i].peer.id], peerMetrics[ranked[j].peer.id], maximum);
      }
    }

    /** The largest upload bandwidth among the ranked peers, or 0 if there is none above it. */
    ghost predicate IsHighest(maximum: real, ranked: seq<Entry>)
      reads this
    {
      && (forall e :: e in ranked ==> e.peer.id in peerMetrics && peerMetrics[e.peer.id].uploadBandwidthBps <= maximum)
      && (maximum == 0.0 ||
          exists e :: e in ranked && e.peer.id in peerMetrics && peerMetrics[e.peer.id].uploadBandwidthBps == maximum)
    }

    /** The ranking holds the eligible peers that are trusted by now, and nobody else. */
    ghost predicate RanksExactly(ranked: seq<Entry>, peers: seq<Peer>, ctx: Context)
      reads this
    {
      && (forall e :: e in ranked ==> e.inputIndex < |peers| && peers[e.inputIndex] == e.peer)
      && (forall i :: 0 <= i < |peers| ==>
            ((exists e :: e in ranked && e.inputIndex == i) <==>
              && peers[i].id != ctx.selfPeerId && (ctx.segmentId == "" || ctx.segmentId in peers[i].segments)
              && peers[i].metrics.trustScore >= 0.3
              && peers[i].id in peerMetrics && peerMetrics[peers[i].id].trustScore >= 0.3))
    }

    predicate IsTrusted(id: string)
      reads this
    {
      id in peerMetrics && peerMetrics[id].trustScore >= MINIMUM_TRUST_SCORE
    }

    /** Indexes of the eligible peers that are trusted once their metrics are updated. */
    method Candidates(ctx: Context, peers: seq<Peer>) returns (indexes: seq<nat>)
      requires Valid() && DistinctIds(peers)
      modifies this`peerMetrics, this`peerTrustScores
      ensures Valid() && SmoothedIn(old(peerMetrics), peerMetrics, peers, ctx)
      ensures forall i: nat :: i in indexes <==> i < |peers| && IsEligible(peers[i], ctx) && IsTrusted(peers[i].id)
      ensures forall i, j :: 0 <= i < j < |indexes| ==> indexes[i] < indexes[j]
    {
      hide SmoothedIn, Smoothed, Seen;
      indexes := [];
      assert SmoothedIn(old(peerMetrics), peerMetrics, peers[..0], ctx) by { NothingSmoothed(peerMetrics, peers, ctx); }
      for k := 0 to |peers|
        invariant Valid() && SmoothedIn(old(peerMetrics), peerMetrics, peers[..k], ctx)
        invariant forall i: nat :: i in indexes <==> i < k && IsEligible(peers[i], ctx) && IsTrusted(peers[i].id)
        invariant forall j :: 0 <= j < |indexes| ==> indexes[j] < k
        invariant forall i, j :: 0 <= i < j < |indexes| ==> indexes[i] < indexes[j]
      {
        ghost var before := peerMetrics;
        if IsEligible(peers[k], ctx) {
          var m := MetricsFor(peers[k]);
          assert forall i :: 0 <= i < k ==> peers[i].id != peers[k].id;
          if m.trustScore >= MINIMUM_TRUST_SCORE { indexes := indexes + [k]; }
        }
        SmoothedOneMore(old(peerMetrics), before, peerMetrics, peers, k, ctx);
      }
      assert peers[..|peers|] == peers;
    }

    method Scored(peers: seq<Peer>, indexes: seq<nat>) returns (entries: seq<Entry>, maximum: real)
      requires forall i :: i in indexes ==> i < |peers| && peers[i].id in peerMetrics
      ensures forall e :: e in entries ==>
        e.inputIndex in indexes && peers[e.inputIndex] == e.peer && 0.0 <= e.score <= 1.0
      ensures |entries| == |indexes| && forall k :: 0 <= k < |entries| ==> entries[k].inputIndex == indexes[k]
      ensures forall e :: e in entries ==> e.peer.id in peerMetrics && e.score == Score(peerMetrics[e.peer.id], maximum)
      ensures forall i :: i in indexes ==> peerMetrics[peers[i].id].uploadBandwidthBps <= maximum
      ensures maximum == 0.0 || exists i :: i in indexes && peerMetrics[peers[i].id].uploadBandwidthBps == maximum
    {
      maximum := 0.0;
      for k := 0 to |indexes|
        invariant forall j :: 0 <= j < k ==>
          indexes[j] in indexes && peerMetrics[peers[indexes[j]].id].uploadBandwidthBps <= maximum
        invariant maximum == 0.0 || exists i :: i in indexes && peerMetrics[peers[i].id].uploadBandwidthBps == maximum
      {
        assert indexes[k] in indexes;
        maximum := Most(maximum, peerMetrics[peers[indexes[k]].id].uploadBandwidthBps);
      }
      entries := [];
      for k := 0 to |indexes|
        invariant forall e :: e in entries ==>
          e.inputIndex in indexes && peers[e.inputIndex] == e.peer && 0.0 <= e.score <= 1.0
        invariant forall e :: e in entries ==>
          e.peer.id in peerMetrics && e.score == Score(peerMetrics[e.peer.id], maximum)
        invariant |entries| == k && forall j :: 0 <= j < k ==> entries[j].inputIndex == indexes[j]
      {
        assert indexes[k] in indexes;
        var m := peerMetrics[peers[indexes[k]].id];
        ScoresAreShares(m, maximum);
        var e := Entry(peers[indexes[k]], indexes[k], Score(m, maximum));
        assert e in entries + [e];
        entries := entries + [e];
      }
    }
  }
}
