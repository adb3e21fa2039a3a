/**
 Containing untrusted peer schedulers (common/src/scheduler.ts): the plan validator, the safe call
 and the batch planner.

 A scheduler may be custom code and answer anything, so a plan's fields have their malformed cases.
 Milliseconds and scores are reals; NaN and the infinities are `NonFinite`.
 */
module Scheduler {
  import opened Sequences
  import opened Wrappers

  /** A field that should be a number. */
  datatype Number = Finite(value: real) | NonFinite | NotANumber

  /** A field that should be a string. */
  datatype Text = Text(value: string) | NotAString

  datatype Candidate = Candidate(id: string, segments: set<string>)

  datatype Deadline =
    | NoDeadline
    | Malformed
    | Deadline(kind: Text, slackMs: Number, segmentDurationMs: Option<Number>, bufferAheadMs: Option<Number>)

  datatype Context = Context(segmentId: string, deadline: Deadline, candidates: seq<Candidate>, selfPeerId: string,
    maximumParallelism: int)

  /** `reasons` says whether the entry's reasons can be iterated over; the validator never looks at them. */
  datatype Ranked = BadEntry | Ranked(peerId: string, rank: Number, score: Option<Number>, reasons: bool)

  datatype Execution =
    | NoExecution
    | BadExecution
    | Execution(strategy: Text, peerAttemptBudgetMs: Option<Number>, originHedgeDelayMs: Option<Number>,
      deadlineSlackMs: Option<Number>)

  /** `None` where an array is expected stands for anything that is not an array. */
  datatype Plan =
    | NotAnObject
    | Plan(policy: Text, mode: Text, peerIds: Option<seq<Text>>, rankedPeers: Option<seq<Ranked>>, execution: Execution)

  datatype Code =
    | InvalidPlan | InvalidMode | PolicyMismatch | InvalidPeerCount | DuplicatePeer | UnknownPeer | SelfPeer
    | SegmentUnavailable | ParallelismExceeded | InvalidRank | NonFiniteScore | InvalidDeadline | InvalidExecutionHints

  const DEADLINE_KINDS := {"player-derived", "playlist-derived", "synthetic", "unknown"}
  const STRATEGIES := {"legacy-p2p-first", "origin-only", "hedged-origin"}
  const MODES := {"origin", "single-peer", "parallel-peers"}

  // ---- What a valid plan is ----

  predicate IsFinite(n: Number) { n.Finite? }

  predicate IsDuration(n: Option<Number>) { n.Some? ==> n.value.Finite? && n.value.value >= 0.0 }

  predicate DeadlineOk(d: Deadline) {
    match d
    case NoDeadline => true
    case Malformed => false
    case Deadline(kind, slack, duration, ahead) =>
      kind.Text? && kind.value in DEADLINE_KINDS && IsFinite(slack) && IsDuration(duration) && IsDuration(ahead)
  }

  predicate IsMode(mode: Text, name: string) { mode == Text(name) }

  predicate CountFits(mode: Text, n: nat) {
    (IsMode(mode, "origin") ==> n == 0) && (IsMode(mode, "single-peer") ==> n == 1) &&
      (IsMode(mode, "parallel-peers") ==> n >= 1)
  }

  predicate IsKnown(candidates: seq<Candidate>, id: string) {
    exists i :: 0 <= i < |candidates| && candidates[i].id == id
  }

  /** The code looks candidates up in a map, where the last one of a name wins. */
  predicate Advertises(candidates: seq<Candidate>, id: string, segment: string) {
    exists i :: 0 <= i < |candidates| && candidates[i].id == id && segment in candidates[i].segments
      && forall j :: i < j < |candidates| ==> candidates[j].id != id
  }

  ghost predicate CanServe(ctx: Context, id: string) {
    && IsKnown(ctx.candidates, id) && id != ctx.selfPeerId
    && (ctx.segmentId != "" ==> Advertises(ctx.candidates, id, ctx.segmentId))
  }

  predicate AllText(ids: seq<Text>) { forall i :: 0 <= i < |ids| ==> ids[i].Text? }

  ghost predicate PeerIdsOk(ctx: Context, mode: Text, ids: seq<Text>) {
    && AllText(ids) && CountFits(mode, |ids|) && |ids| <= ctx.maximumParallelism
    && (forall i, j :: 0 <= i < j < |ids| ==> ids[i] != ids[j])
    && (forall i :: 0 <= i < |ids| && ids[i].Text? ==> CanServe(ctx, ids[i].value))
  }

  ghost predicate EntryOk(ctx: Context, r: Ranked) {
    r.Ranked? && IsKnown(ctx.candidates, r.peerId) && r.peerId != ctx.selfPeerId &&
      (r.score.Some? ==> IsFinite(r.score.value))
  }

  ghost predicate HasRank(ranked: seq<Ranked>, k: int) {
    exists i :: 0 <= i < |ranked| && ranked[i].Ranked? && ranked[i].rank == Finite(k as real)
  }

  /** The ranks are the numbers 1 to n, each once. */
  ghost predicate IsPermutation(ranked: seq<Ranked>) {
    && (forall k :: 1 <= k <= |ranked| ==> HasRank(ranked, k))
    && (forall i, j :: 0 <= i < j < |ranked| && ranked[i].Ranked? && ranked[j].Ranked? ==>
      ranked[i].rank != ranked[j].rank)
  }

  /** The slack a hedge delay is held against: the plan's own, or else the deadline's. */
  function Slack(e: Execution, d: Deadline): Option<Number>
    requires e.Execution?
  {
    if IsDuration(e.deadlineSlackMs) && e.deadlineSlackMs.Some? then e.deadlineSlackMs
    else if d.Deadline? then Some(d.slackMs) else None
  }

  predicate HedgeFits(e: Execution, d: Deadline)
    requires e.Execution?
  {
    IsDuration(e.originHedgeDelayMs) && e.originHedgeDelayMs.Some? && Slack(e, d).Some? && Slack(e, d).value.Finite? ==>
      e.originHedgeDelayMs.value.value <= Slack(e, d).value.value
  }

  predicate ExecutionOk(e: Execution, d: Deadline, mode: Text, peers: nat) {
    match e
    case NoExecution => true
    case BadExecution => false
    case Execution(strategy, budget, hedge, slack) =>
      && strategy.Text? && strategy.value in STRATEGIES && IsDuration(budget) && IsDuration(hedge) && IsDuration(slack)
      && (budget.Some? ==> peers > 0)
      && (hedge.Some? ==> strategy != Text("origin-only") && !IsMode(mode, "origin"))
      && HedgeFits(e, d)
  }

  ghost predicate ValidPlan(plan: Plan, policyName: string, ctx: Context) {
    && plan.Plan? && DeadlineOk(ctx.deadline)
    && plan.mode.Text? && plan.mode.value in MODES && plan.policy == Text(policyName)
    && plan.peerIds.Some? && PeerIdsOk(ctx, plan.mode, plan.peerIds.value)
    && plan.rankedPeers.Some? && (forall r :: r in plan.rankedPeers.value ==> EntryOk(ctx, r)) &&
      IsPermutation(plan.rankedPeers.value)
    && ExecutionOk(plan.execution, ctx.deadline, plan.mode, |plan.peerIds.value|)
  }

  /**
   What the fetcher may rely on: distinct candidates other than itself that advertise the segment, as
   many as the mode asks for and the parallelism allows, and no hedge later than the slack it goes by.
   */
  lemma ValidPlansAreSafe(plan: Plan, policyName: string, ctx: Context)
    requires ValidPlan(plan, policyName, ctx)
    ensures var ids := plan.peerIds.value;
      && |ids| <= ctx.maximumParallelism
      && (plan.mode == Text("origin") <==> ids == []) && (|ids| > 1 ==> plan.mode == Text("parallel-peers"))
      && (forall i :: 0 <= i < |ids| ==> ids[i].Text? && ids[i] != Text(ctx.selfPeerId))
      && (forall i, j :: 0 <= i < j < |ids| ==> ids[i] != ids[j])
      && (forall i :: 0 <= i < |ids| && ids[i].Text? ==> HasServer(ctx, ids[i].value))
    ensures var e, d := plan.execution, ctx.deadline;
      e.Execution? && e.originHedgeDelayMs.Some? ==>
        && e.originHedgeDelayMs.value.Finite? && e.originHedgeDelayMs.value.value >= 0.0
        && (e.deadlineSlackMs.None? && d.Deadline? ==> e.originHedgeDelayMs.value.value <= d.slackMs.value)
  {
    var ids := plan.peerIds.value;
    forall i | 0 <= i < |ids| && ids[i].Text? ensures HasServer(ctx, ids[i].value) { FindsServer(ctx, ids[i].value); }
  }

  ghost predicate HasServer(ctx: Context, id: string) {
    exists c :: c in ctx.candidates && c.id == id && (ctx.segmentId == "" || ctx.segmentId in c.segments)
  }

  lemma FindsServer(ctx: Context, id: string)
    requires CanServe(ctx, id)
    ensures HasServer(ctx, id)
  {
    var i :| 0 <= i < |ctx.candidates| && ctx.candidates[i].id == id
      && (ctx.segmentId == "" || ctx.segmentId in ctx.candidates[i].segments);
    assert ctx.candidates[i] in ctx.candidates;
  }

  // ---- The validator ----

  method CheckDuration(n: Option<Number>, code: Code) returns (failures: seq<Code>)
    ensures failures == [] <==> IsDuration(n)
  {
    failures := if n.None? || (n.value.Finite? && n.value.value >= 0.0) then [] else [code];
  }

  method CheckDeadline(d: Deadline) returns (failures: seq<Code>)
    ensures failures == [] <==> DeadlineOk(d)
  {
    match d {
      case NoDeadline => failures := [];
      case Malformed => failures := [InvalidDeadline];
      case Deadline(kind, slack, duration, ahead) =>
        failures := [];
        if !kind.Text? || kind.value !in DEADLINE_KINDS { failures := failures + [InvalidDeadline]; }
        if !slack.Finite? { failures := failures + [InvalidDeadline]; }
        var a := CheckDuration(duration, InvalidDeadline);
        var b := CheckDuration(ahead, InvalidDeadline);
        failures := failures + a + b;
    }
  }

  /** The strings of an array, in order. */
  function Strings(ids: seq<Text>): seq<string> {
    if ids == [] then []
    else Strings(ids[..|ids| - 1]) + (if ids[|ids| - 1].Text? then [ids[|ids| - 1].value] else [])
  }

  lemma {:induction false} StringsOfText(ids: seq<Text>)
    ensures |Strings(ids)| <= |ids| && (|Strings(ids)| == |ids| <==> AllText(ids))
    ensures AllText(ids) ==> forall i :: 0 <= i < |ids| ==> Strings(ids)[i] == ids[i].value
  {
    if ids != [] {
      var rest, last := ids[..|ids| - 1], ids[|ids| - 1];
      StringsOfText(rest);
      assert AllText(ids) <==> AllText(rest) && last.Text? by {
        assert AllText(ids) ==> forall i :: 0 <= i < |rest| ==> rest[i] == ids[i];
        assert forall i :: 0 <= i < |ids| ==> ids[i] == if i < |rest| then rest[i] else last;
      }
    }
  }

  method HasDuplicates(ids: seq<string>) returns (found: bool)
    ensures found <==> exists i, j :: 0 <= i < j < |ids| && ids[i] == ids[j]
  {
    var seen: set<string> := {};
    found := false;
    for k := 0 to |ids|
      invariant seen == set i | 0 <= i < k :: ids[i]
      invariant found <==> exists i, j :: 0 <= i < j < k && ids[i] == ids[j]
    {
      if ids[k] in seen { found := true; }
      seen := seen + {ids[k]};
    }
  }

  /** The last candidate of a name. */
  method Lookup(candidates: seq<Candidate>, id: string) returns (found: Option<Candidate>)
    ensures found.Some? <==> IsKnown(candidates, id)
    ensures forall segment :: found.Some? && segment in found.value.segments <==> Advertises(candidates, id, segment)
  {
    found := None;
    for k := 0 to |candidates|
      invariant found.Some? <==> IsKnown(candidates[..k], id)
      invariant found.Some? ==>
        exists i :: 0 <= i < k && candidates[i] == found.value && found.value.id == id &&
          forall j :: i < j < k ==> candidates[j].id != id
      invariant found.None? ==> forall j :: 0 <= j < k ==> candidates[j].id != id
    {
      assert candidates[..k + 1][k] == candidates[k];
      assert forall i :: 0 <= i < k ==> candidates[..k + 1][i] == candidates[..k][i];
      if candidates[k].id == id { found := Some(candidates[k]); }
    }
    assert candidates[..|candidates|] == candidates;
  }

  method CheckPeerIds(ctx: Context, mode: Text, ids: seq<Text>) returns (failures: seq<Code>)
    ensures failures == [] <==> PeerIdsOk(ctx, mode, ids)
  {
    failures := [];
    var texts := Strings(ids);
    StringsOfText(ids);
    if |texts| != |ids| { failures := failures + [InvalidPlan]; }
    if !CountFits(mode, |ids|) { failures := failures + [InvalidPeerCount]; }
    if |ids| > ctx.maximumParallelism { failures := failures + [ParallelismExceeded]; }
    var repeated := HasDuplicates(texts);
    if repeated { failures := failures + [DuplicatePeer]; }
    var more := CheckServers(ctx, texts);
    failures := failures + more;
    if AllText(ids) {
      assert repeated <==> exists i, j :: 0 <= i < j < |ids| && ids[i] == ids[j];
    }
  }

  method CheckServers(ctx: Context, ids: seq<string>) returns (failures: seq<Code>)
    ensures failures == [] <==> forall i :: 0 <= i < |ids| ==> CanServe(ctx, ids[i])
  {
    failures := [];
    for k := 0 to |ids|
      invariant failures == [] <==> forall i :: 0 <= i < k ==> CanServe(ctx, ids[i])
    {
      var candidate := Lookup(ctx.candidates, ids[k]);
      if candidate.None? { failures := failures + [UnknownPeer]; }
      if ids[k] == ctx.selfPeerId { failures := failures + [SelfPeer]; }
      if candidate.Some? && ctx.segmentId != "" && ctx.segmentId !in candidate.value.segments {
        failures := failures + [SegmentUnavailable];
      }
    }
  }

  /** An integer from 1 to n. */
  predicate InRange(rank: Number, n: nat) {
    rank.Finite? && rank.value == rank.value.Floor as real && 1.0 <= rank.value <= n as real
  }

  method CheckRanked(ctx: Context, ranked: seq<Ranked>) returns (failures: seq<Code>)
    ensures failures == [] <==> (forall r :: r in ranked ==> EntryOk(ctx, r)) && IsPermutation(ranked)
  {
    failures := [];
    var seen: set<Number> := {};
    var repeated := false;
    for k := 0 to |ranked|
      invariant failures == [] <==>
        forall i :: 0 <= i < k ==> EntryOk(ctx, ranked[i]) && InRange(ranked[i].rank, |ranked|)
      invariant failures == [] ==> seen == set i | 0 <= i < k :: ranked[i].rank
      invariant failures == [] ==> (repeated <==> exists i, j :: 0 <= i < j < k && ranked[i].rank == ranked[j].rank)
    {
      var entry := ranked[k];
      if entry.BadEntry? {
        failures := failures + [InvalidPlan];
        continue;
      }
      var candidate := Lookup(ctx.candidates, entry.peerId);
      if candidate.None? { failures := failures + [UnknownPeer]; }
      if entry.peerId == ctx.selfPeerId { failures := failures + [SelfPeer]; }
      if InRange(entry.rank, |ranked|) {
        if entry.rank in seen { repeated := true; }
        seen := seen + {entry.rank};
      } else {
        failures := failures + [InvalidRank];
      }
      if entry.score.Some? && !IsFinite(entry.score.value) { failures := failures + [NonFiniteScore]; }
    }
    RankedIsValid(ctx, ranked);
    hide EntryOk, InRange, IsPermutation;
    if repeated { failures := failures + [InvalidRank]; }
  }

  lemma RankedIsValid(ctx: Context, ranked: seq<Ranked>)
    ensures (forall i :: 0 <= i < |ranked| ==> EntryOk(ctx, ranked[i]) && InRange(ranked[i].rank, |ranked|))
      && !(exists i, j :: 0 <= i < j < |ranked| && ranked[i].rank == ranked[j].rank)
      <==> (forall r :: r in ranked ==> EntryOk(ctx, r)) && IsPermutation(ranked)
  {
    assert (forall r :: r in ranked ==> EntryOk(ctx, r)) <==> forall i :: 0 <= i < |ranked| ==> EntryOk(ctx, ranked[i]);
    if forall i :: 0 <= i < |ranked| ==> ranked[i].Ranked? {
      RanksArePermutation(ranked);
      hide IsPermutation, InRange;
      assert RanksOk(ranked) <==>
        (forall i :: 0 <= i < |ranked| ==> InRange(ranked[i].rank, |ranked|))
        && !(exists i, j :: 0 <= i < j < |ranked| && ranked[i].rank == ranked[j].rank);
    }
  }

  ghost predicate RanksOk(ranked: seq<Ranked>) {
    && (forall i :: 0 <= i < |ranked| ==> ranked[i].Ranked? && InRange(ranked[i].rank, |ranked|))
    && (forall i, j :: 0 <= i < j < |ranked| ==> ranked[i].rank != ranked[j].rank)
  }

  function UpTo(n: nat): (s: set<int>)
    ensures |s| == n && forall k :: k in s <==> 1 <= k <= n
  {
    if n == 0 then {} else UpTo(n - 1) + {n}
  }

  /** n distinct numbers from 1 to n are all of them. */
  lemma Pigeonhole(s: seq<int>)
    requires Distinct(s) && forall i :: 0 <= i < |s| ==> 1 <= s[i] <= |s|
    ensures forall k :: 1 <= k <= |s| ==> k in s
  {
    ElemsSize(s);
    SetSizes(Elems(s), UpTo(|s|));
    forall k | 1 <= k <= |s| ensures k in s { assert k in UpTo(|s|); }
  }

  /** Range and distinctness are enough for a permutation, and follow from one. */
  lemma RanksArePermutation(ranked: seq<Ranked>)
    requires forall i :: 0 <= i < |ranked| ==> ranked[i].Ranked?
    ensures RanksOk(ranked) <==> IsPermutation(ranked)
  {
    if RanksOk(ranked) { RanksCover(ranked); }
    if IsPermutation(ranked) { RanksInRange(ranked); }
  }

  lemma RanksCover(ranked: seq<Ranked>)
    requires RanksOk(ranked)
    ensures IsPermutation(ranked)
  {
    var ranks := seq(|ranked|, i requires 0 <= i < |ranked| => ranked[i].rank.value.Floor);
    assert forall i :: 0 <= i < |ranked| ==> ranked[i].rank == Finite(ranks[i] as real) && 1 <= ranks[i] <= |ranks|;
    forall i, j | 0 <= i < j < |ranks| ensures ranks[i] != ranks[j] { assert ranked[i].rank != ranked[j].rank; }
    Pigeonhole(ranks);
    forall k | 1 <= k <= |ranked| ensures HasRank(ranked, k) {
      assert k in ranks;
      var i :| 0 <= i < |ranks| && ranks[i] == k;
      assert ranked[i].rank == Finite(k as real);
    }
  }

  lemma RanksInRange(ranked: seq<Ranked>)
    requires IsPermutation(ranked) && forall i :: 0 <= i < |ranked| ==> ranked[i].Ranked?
    ensures RanksOk(ranked)
  {
    var n := |ranked|;
    var positions := seq(n, k requires 0 <= k < n => Holder(ranked, k + 1) + 1);
    forall k, l | 0 <= k < l < n ensures positions[k] != positions[l] {
      assert ranked[positions[k] - 1].rank == Finite((k + 1) as real);
      assert ranked[positions[l] - 1].rank == Finite((l + 1) as real);
    }
    Pigeonhole(positions);
    forall i | 0 <= i < n ensures InRange(ranked[i].rank, n) {
      assert i + 1 in positions;
      var k :| 0 <= k < n && positions[k] == i + 1;
      assert ranked[i].rank == Finite((k + 1) as real);
    }
  }

  ghost function Holder(ranked: seq<Ranked>, k: int): (i: nat)
    requires HasRank(ranked, k)
    ensures i < |ranked| && ranked[i].Ranked? && ranked[i].rank == Finite(k as real)
  {
    var i :| 0 <= i < |ranked| && ranked[i].Ranked? && ranked[i].rank == Finite(k as real);
    i
  }

  method CheckExecution(e: Execution, d: Deadline, mode: Text, peers: nat) returns (failures: seq<Code>)
    ensures failures == [] <==> ExecutionOk(e, d, mode, peers)
  {
    failures := [];
    match e {
      case NoExecution => return [];
      case BadExecution => return [InvalidExecutionHints];
      case Execution(strategy, budget, hedge, slack) =>
        if !strategy.Text? || strategy.value !in STRATEGIES { failures := failures + [InvalidExecutionHints]; }
        var a := CheckDuration(budget, InvalidExecutionHints);
        var b := CheckDuration(hedge, InvalidExecutionHints);
        var c := CheckDuration(slack, InvalidExecutionHints);
        failures := failures + a + b + c;
        if budget.Some? && peers == 0 { failures := failures + [InvalidExecutionHints]; }
        if hedge.Some? && (strategy == Text("origin-only") || mode == Text("origin")) {
          failures := failures + [InvalidExecutionHints];
        }
        var limit := if c == [] && slack.Some? then slack else if d.Deadline? then Some(d.slackMs) else None;
        if b == [] && hedge.Some? && limit.Some? && limit.value.Finite? && hedge.value.value > limit.value.value {
          failures := failures + [InvalidExecutionHints];
        }
    }
  }

  /** Collects every failure; there is none exactly when the plan is valid. */
  method ValidateSchedulerPlan(plan: Plan, policyName: string, ctx: Context) returns (failures: seq<Code>)
    ensures failures == [] <==> ValidPlan(plan, policyName, ctx)
  {
    if plan.NotAnObject? { return [InvalidPlan]; }
    failures := CheckDeadline(ctx.deadline);
    if !plan.mode.Text? || plan.mode.value !in MODES { failures := failures + [InvalidMode]; }
    if plan.policy != Text(policyName) { failures := failures + [PolicyMismatch]; }
    var more;
    if plan.peerIds.Some? {
      more := CheckPeerIds(ctx, plan.mode, plan.peerIds.value);
      failures := failures + more;
    } else {
      failures := failures + [InvalidPlan];
    }
    if plan.rankedPeers.None? { return failures + [InvalidPlan]; }
    more := CheckRanked(ctx, plan.rankedPeers.value);
    failures := failures + more;
    var selected := if plan.peerIds.Some? then |Strings(plan.peerIds.value)| else 0;
    if plan.peerIds.Some? { StringsOfText(plan.peerIds.value); }
    more := CheckExecution(plan.execution, ctx.deadline, plan.mode, selected);
    failures := failures + more;
  }

  // ---- Planning one segment ----

  /** What a call of an untrusted scheduler ends with. */
  datatype Response = Throws | Answers(plan: Plan)

  function OriginFallback(policyName: string): Plan {
    Plan(Text(policyName), Text("origin"), Some([]), Some([]), NoExecution)
  }

  /** The plan that a safe call yields: the scheduler's own if it is valid. */
  ghost function SafePlan(policyName: string, response: Response, ctx: Context): Plan {
    if response.Answers? && ValidPlan(response.plan, policyName, ctx) then response.plan else OriginFallback(policyName)
  }

  method PlanSegmentSafely(policyName: string, response: Response,
                           ctx: Context) returns (plan: Plan, warnings: seq<Code>)
    ensures warnings == [] <==> response.Answers? && ValidPlan(response.plan, policyName, ctx)
    ensures plan == SafePlan(policyName, response, ctx)
    ensures warnings != [] ==> plan == OriginFallback(policyName)
  {
    if response.Throws? { return OriginFallback(policyName), [InvalidPlan]; }
    warnings := ValidateSchedulerPlan(response.plan, policyName, ctx);
    plan := if warnings == [] then response.plan else OriginFallback(policyName);
  }

  // ---- Planning a batch ----

  datatype Request = Request(segmentId: string, segmentsAhead: Option<real>)

  datatype Assignment = Assignment(segmentId: string, peerId: Option<string>)

  function First(requests: seq<Request>, id: string): (i: nat)
    ensures i <= |requests| && (forall j :: 0 <= j < i ==> requests[j].segmentId != id)
    ensures i < |requests| ==> requests[i].segmentId == id
  {
    if requests == [] || requests[0].segmentId == id then 0 else 1 + First(requests[1..], id)
  }

  ghost predicate ByFirst(order: seq<Request>, requests: seq<Request>) {
    forall i, j :: 0 <= i < j < |order| ==> First(requests, order[i].segmentId) < First(requests, order[j].segmentId)
  }

  ghost predicate Covers(order: seq<Request>, requests: seq<Request>) {
    forall r :: r in requests ==> HasSegment(order, r.segmentId)
  }

  ghost predicate HasSegment(order: seq<Request>, id: string) { exists r :: r in order && r.segmentId == id }

  /** Each requested segment once, in order of first request, with its last request. */
  ghost predicate IsDeduped(order: seq<Request>, requests: seq<Request>) {
    ByFirst(order, requests) && Covers(order, requests) && forall r :: r in order ==> IsLast(r, requests)
  }

  ghost predicate IsLast(r: Request, requests: seq<Request>) {
    exists k :: 0 <= k < |requests| && requests[k] == r &&
      forall l :: k < l < |requests| ==> requests[l].segmentId != r.segmentId
  }

  function Find(order: seq<Request>, id: string): (i: nat)
    ensures i <= |order| && (i < |order| ==> order[i].segmentId == id)
    ensures forall j :: 0 <= j < i ==> order[j].segmentId != id
  {
    if order == [] || order[0].segmentId == id then 0 else 1 + Find(order[1..], id)
  }

  /** `new Map(...)`: a repeated key keeps its place and takes the new value. */
  method Dedupe(requests: seq<Request>) returns (order: seq<Request>)
    ensures IsDeduped(order, requests)
  {
    order := [];
    for k := 0 to |requests|
      invariant IsDeduped(order, requests[..k])
    {
      var i := Find(order, requests[k].segmentId);
      assert requests[..k + 1] == requests[..k] + [requests[k]];
      ByFirstOneMore(order, requests[..k], requests[k], i);
      CoversOneMore(order, requests[..k], requests[k], i);
      LastsOneMore(order, requests[..k], requests[k], i);
      hide ByFirst, Covers, IsLast;
      order := Placed(order, requests[k], i);
    }
    assert requests[..|requests|] == requests;
  }

  lemma {:induction false} FirstOfMore(requests: seq<Request>, r: Request, id: string)
    ensures First(requests + [r], id) ==
      if First(requests, id) < |requests| then First(requests, id)
      else if r.segmentId == id then |requests| else |requests| + 1
  {
    if requests != [] {
      FirstOfMore(requests[1..], r, id);
      assert (requests + [r])[1..] == requests[1..] + [r];
    }
  }

  lemma LastOfMore(requests: seq<Request>, r: Request, last: Request)
    requires IsLast(last, requests) && last.segmentId != r.segmentId
    ensures IsLast(last, requests + [r])
  {
    var k :| 0 <= k < |requests| && requests[k] == last &&
      forall l :: k < l < |requests| ==> requests[l].segmentId != last.segmentId;
    assert (requests + [r])[k] == last;
  }

  function Placed(order: seq<Request>, r: Request, i: nat): seq<Request>
    requires i <= |order|
  {
    if i < |order| then order[i := r] else order + [r]
  }

  lemma LastIsRequested(last: Request, requests: seq<Request>, r: Request)
    requires IsLast(last, requests)
    ensures First(requests + [r], last.segmentId) == First(requests, last.segmentId) < |requests|
  {
    FirstOfMore(requests, r, last.segmentId);
  }

  /** A segment that was requested is in the order. */
  lemma RequestedIsPlaced(order: seq<Request>, requests: seq<Request>, id: string)
    requires Covers(order, requests)
    ensures First(requests, id) < |requests| ==> Find(order, id) < |order|
  {
    var k := First(requests, id);
    if k < |requests| {
      assert requests[k] in requests;
      var r :| r in order && r.segmentId == id;
      var j :| 0 <= j < |order| && order[j] == r;
    }
  }

  lemma ByFirstOneMore(order: seq<Request>, requests: seq<Request>, r: Request, i: nat)
    requires IsDeduped(order, requests) && i == Find(order, r.segmentId)
    ensures ByFirst(Placed(order, r, i), requests + [r])
  {
    forall j | 0 <= j < |order|
      ensures First(requests + [r], order[j].segmentId) == First(requests, order[j].segmentId) < |requests|
    {
      LastIsRequested(order[j], requests, r);
    }
    FirstOfMore(requests, r, r.segmentId);
    RequestedIsPlaced(order, requests, r.segmentId);
    hide IsLast, Covers;
  }

  lemma CoversOneMore(order: seq<Request>, requests: seq<Request>, r: Request, i: nat)
    requires Covers(order, requests) && i == Find(order, r.segmentId)
    ensures Covers(Placed(order, r, i), requests + [r])
  {
    var order1 := Placed(order, r, i);
    assert order1[i] == r && r in order1;
    forall q | q in requests ensures HasSegment(order1, q.segmentId) {
      var p :| p in order && p.segmentId == q.segmentId;
      var j :| 0 <= j < |order| && order[j] == p;
      assert order1[j].segmentId == q.segmentId && order1[j] in order1;
    }
  }

  lemma LastsOneMore(order: seq<Request>, requests: seq<Request>, r: Request, i: nat)
    requires IsDeduped(order, requests) && i == Find(order, r.segmentId)
    ensures forall q :: q in Placed(order, r, i) ==> IsLast(q, requests + [r])
  {
    var order1 := Placed(order, r, i);
    forall q | q in order1 ensures IsLast(q, requests + [r]) {
      var j :| 0 <= j < |order1| && order1[j] == q;
      if j == i {
        assert (requests + [r])[|requests|] == q;
      } else {
        OthersDiffer(order, requests, i, j);
        LastOfMore(requests, r, order[j]);
      }
    }
  }

  lemma OthersDiffer(order: seq<Request>, requests: seq<Request>, i: nat, j: nat)
    requires ByFirst(order, requests) && i <= |order| && j < |order| && i != j
    requires i == |order| || i < |order|
    ensures i < |order| ==> order[i].segmentId != order[j].segmentId
  {
    if i < j { assert i < |order| ==> First(requests, order[i].segmentId) < First(requests, order[j].segmentId); }
    if j < i < |order| { assert First(requests, order[j].segmentId) < First(requests, order[i].segmentId); }
  }

  function Reversed<T>(s: seq<T>): (r: seq<T>)
    ensures |r| == |s| && forall i :: 0 <= i < |s| ==> r[i] == s[|s| - 1 - i]
  {
    if s == [] then [] else [s[|s| - 1]] + Reversed(s[..|s| - 1])
  }

  function Available(candidates: seq<Candidate>, taken: set<string>): (rest: seq<Candidate>)
    ensures forall c :: c in rest <==> c in candidates && c.id !in taken
  {
    if candidates == [] then []
    else
      var last := candidates[|candidates| - 1];
      Available(candidates[..|candidates| - 1], taken) + (if last.id in taken then [] else [last])
  }

  lemma {:induction false} AvailableOfTwo(a: seq<Candidate>, b: seq<Candidate>, taken: set<string>)
    ensures Available(a + b, taken) == Available(a, taken) + Available(b, taken)
  {
    if b == [] {
      assert a + b == a;
    } else {
      var n := |b| - 1;
      assert (a + b)[..|a + b| - 1] == a + b[..n];
      AvailableOfTwo(a, b[..n], taken);
    }
  }

  /** The candidates that are not taken, in their order. */
  lemma {:induction false} AvailableIsFilter(a: seq<Candidate>, c: Candidate, b: seq<Candidate>, taken: set<string>)
    ensures Available(a + [c] + b, taken) ==
      Available(a, taken) + (if c.id in taken then [] else [c]) + Available(b, taken)
  {
    AvailableOfTwo(a + [c], b, taken);
    AvailableOfTwo(a, [c], taken);
    assert Available([c], taken) == if c.id in taken then [] else [c] by { assert [c][..0] == []; }
  }

  /** A candidate other than this peer that advertises the segment, when the segment has a name. */
  ghost predicate Serves(candidates: seq<Candidate>, selfPeerId: string, segment: string, peer: string) {
    peer != selfPeerId && exists c :: c in candidates && c.id == peer && (segment != "" ==> segment in c.segments)
  }

  lemma SelectedPeerServes(plan: Plan, policyName: string, ctx: Context, candidates: seq<Candidate>)
    requires ValidPlan(plan, policyName, ctx) && plan.mode != Text("origin")
    requires forall c :: c in ctx.candidates ==> c in candidates
    ensures |plan.peerIds.value| > 0 && plan.peerIds.value[0].Text?
    ensures Serves(candidates, ctx.selfPeerId, ctx.segmentId, plan.peerIds.value[0].value)
    ensures exists c :: c in ctx.candidates && c.id == plan.peerIds.value[0].value
  {
    var id := plan.peerIds.value[0].value;
    assert CanServe(ctx, id);
    if ctx.segmentId != "" {
      var i :| 0 <= i < |ctx.candidates| && ctx.candidates[i].id == id && ctx.segmentId in ctx.candidates[i].segments;
      assert ctx.candidates[i] in candidates;
    } else {
      var i :| 0 <= i < |ctx.candidates| && ctx.candidates[i].id == id;
      assert ctx.candidates[i] in candidates;
    }
  }

  /** Whom the answer to one request is assigned to, whatever the scheduler answered. */
  method PlanOne(policyName: string, response: Response, ctx: Context, ghost candidates: seq<Candidate>)
    returns (peerId: Option<string>, warnings: seq<Code>)
    requires forall c :: c in ctx.candidates ==> c in candidates
    ensures peerId.Some? ==> Serves(candidates, ctx.selfPeerId, ctx.segmentId, peerId.value)
    ensures peerId.Some? ==> exists c :: c in ctx.candidates && c.id == peerId.value
    ensures peerId.Some? <==>
      response.Answers? && ValidPlan(response.plan, policyName, ctx) && response.plan.mode != Text("origin")
    ensures peerId.Some? ==> [Text(peerId.value)] <= response.plan.peerIds.value
  {
    var plan;
    plan, warnings := PlanSegmentSafely(policyName, response, ctx);
    if plan.mode == Text("origin") { return None, warnings; }
    SelectedPeerServes(plan, policyName, ctx, candidates);
    peerId := Some(plan.peerIds.value[0].value);
  }

  function SyntheticDeadline(segmentsAhead: Option<real>, segmentDurationMs: Option<real>): Deadline {
    if segmentsAhead.None? || segmentDurationMs.None? then NoDeadline
    else Deadline(Text("synthetic"), Finite(segmentsAhead.value * segmentDurationMs.value),
      Some(Finite(segmentDurationMs.value)), None)
  }

  /** A segment is due when the segments ahead of it have been played; without either number nothing is known. */
  lemma SyntheticDeadlineIs(segmentsAhead: Option<real>, segmentDurationMs: Option<real>)
    ensures var d := SyntheticDeadline(segmentsAhead, segmentDurationMs);
      if segmentsAhead.None? || segmentDurationMs.None? then d == NoDeadline
      else
        && d.Deadline? && d.kind == Text("synthetic") && d.segmentDurationMs == Some(Finite(segmentDurationMs.value))
        && d.slackMs.Finite? && d.slackMs.value == segmentsAhead.value * segmentDurationMs.value
        && d.bufferAheadMs.None?
  {
  }

  /** The peers assigned from position `from` on and before position `to`. */
  ghost function AssignedIn(assignments: seq<Assignment>, from: nat, to: nat): set<string>
    requires to <= |assignments|
  {
    set i | from <= i < to && assignments[i].peerId.Some? :: assignments[i].peerId.value
  }

  /**
   Whom the scheduler answered for the request at position `i`: the first peer of a valid plan that is
   not for Origin, and otherwise nobody. It is asked with the deadline that follows from how far ahead
   the segment is.
   */
  ghost predicate IsAnswer(peerId: Option<string>, i: nat, request: Request, policyName: string,
                           scheduler: (nat, Context) -> Response, available: seq<Candidate>, selfPeerId: string,
                           wave: nat, segmentDurationMs: Option<real>)
  {
    var ctx := Context(request.segmentId, SyntheticDeadline(request.segmentsAhead, segmentDurationMs), available,
                       selfPeerId, wave);
    var answer := scheduler(i, ctx);
    if answer.Answers? && ValidPlan(answer.plan, policyName, ctx) && answer.plan.mode != Text("origin")
    then peerId.Some? && [Text(peerId.value)] <= answer.plan.peerIds.value
    else peerId.None?
  }

  /** The scheduler was asked with the candidates that its wave had not assigned yet. */
  ghost predicate IsAnswered(assignments: seq<Assignment>, i: nat, request: Request, policyName: string,
                             scheduler: (nat, Context) -> Response, candidates: seq<Candidate>, selfPeerId: string,
                             wave: nat, segmentDurationMs: Option<real>)
    requires wave > 0 && i < |assignments|
  {
    IsAnswer(assignments[i].peerId, i, request, policyName, scheduler,
      Available(candidates, AssignedIn(assignments, i / wave * wave, i)), selfPeerId, wave, segmentDurationMs)
  }

  ghost predicate FollowsScheduler(assignments: seq<Assignment>, order: seq<Request>, policyName: string,
                                   scheduler: (nat, Context) -> Response, candidates: seq<Candidate>,
                                   selfPeerId: string, wave: nat, segmentDurationMs: Option<real>)
    requires wave > 0
  {
    && |assignments| <= |order|
    && forall i :: 0 <= i < |assignments| ==>
         IsAnswered(assignments, i, order[i], policyName, scheduler, candidates, selfPeerId, wave, segmentDurationMs)
  }

  lemma SameAssigned(a: seq<Assignment>, b: seq<Assignment>, from: nat, to: nat)
    requires to <= |a| && to <= |b| && forall i :: from <= i < to ==> a[i] == b[i]
    ensures AssignedIn(a, from, to) == AssignedIn(b, from, to)
  {
    forall p ensures p in AssignedIn(a, from, to) <==> p in AssignedIn(b, from, to) {
      assert forall i :: from <= i < to ==> a[i] == b[i];
    }
  }

  lemma AssignedOneMore(a: seq<Assignment>, next: Assignment, from: nat)
    requires from <= |a|
    ensures AssignedIn(a + [next], from, |a| + 1) ==
      AssignedIn(a, from, |a|) + if next.peerId.Some? then {next.peerId.value} else {}
  {
    SameAssigned(a + [next], a, from, |a|);
    assert (a + [next])[|a|] == next;
  }

  lemma StillAnswered(before: seq<Assignment>, next: Assignment, i: nat, request: Request, policyName: string,
                      scheduler: (nat, Context) -> Response, candidates: seq<Candidate>, selfPeerId: string,
                      wave: nat, segmentDurationMs: Option<real>)
    requires wave > 0 && i < |before|
    requires IsAnswered(before, i, request, policyName, scheduler, candidates, selfPeerId, wave, segmentDurationMs)
    ensures IsAnswered(before + [next], i, request, policyName, scheduler, candidates, selfPeerId, wave,
      segmentDurationMs)
  {
    hide Available, IsAnswer, AssignedIn;
    FirstOfWave(i, wave);
    var from := i / wave * wave;
    SameAssigned(before + [next], before, from, i);
  }

  lemma FollowsOneMore(before: seq<Assignment>, next: Assignment, order: seq<Request>, policyName: string,
                       scheduler: (nat, Context) -> Response, candidates: seq<Candidate>, selfPeerId: string,
                       wave: nat, segmentDurationMs: Option<real>)
    requires wave > 0 && |before| < |order|
    requires FollowsScheduler(before, order, policyName, scheduler, candidates, selfPeerId, wave, segmentDurationMs)
    requires IsAnswer(next.peerId, |before|, order[|before|], policyName, scheduler,
      Available(candidates, AssignedIn(before, |before| / wave * wave, |before|)), selfPeerId, wave, segmentDurationMs)
    ensures FollowsScheduler(before + [next], order, policyName, scheduler, candidates, selfPeerId, wave,
      segmentDurationMs)
  {
    hide Available, AssignedIn, IsAnswer;
    FirstOfWave(|before|, wave);
    SameAssigned(before + [next], before, |before| / wave * wave, |before|);
    forall i | 0 <= i < |before|
      ensures IsAnswered(before + [next], i, order[i], policyName, scheduler, candidates, selfPeerId, wave,
        segmentDurationMs)
    {
      StillAnswered(before, next, i, order[i], policyName, scheduler, candidates, selfPeerId, wave, segmentDurationMs);
    }
  }

  /** Peers are assigned at most once in each of the waves that are fetched concurrently. */
  ghost predicate DistinctInWaves(assignments: seq<Assignment>, wave: nat)
    requires wave > 0
  {
    forall i, j ::
      0 <= i < j < |assignments| && i / wave == j / wave && assignments[i].peerId.Some? && assignments[j].peerId.Some?
      ==> assignments[i].peerId != assignments[j].peerId
  }

  /** A batch plan: every distinct request once, most urgent first, each to Origin or to a peer that has it. */
  ghost predicate IsBatchPlan(assignments: seq<Assignment>, order: seq<Request>, candidates: seq<Candidate>,
                              selfPeerId: string) {
    && |assignments| <= |order|
    && (forall i :: 0 <= i < |assignments| ==> assignments[i].segmentId == order[i].segmentId)
    && (forall i :: 0 <= i < |assignments| && assignments[i].peerId.Some? ==>
          Serves(candidates, selfPeerId, assignments[i].segmentId, assignments[i].peerId.value))
  }

  /**
   The scheduler is an arbitrary sequence of answers, so nothing is assumed about it. `None` is the
   error for a parallelism that is not positive.
   */
  method PlanBatch(policyName: string,
                   scheduler: (nat, Context) -> Response, requests: seq<Request>, candidates: seq<Candidate>,
                   selfPeerId: string, maximumParallelism: int, segmentDurationMs: Option<real>)
    returns (assignments: Option<seq<Assignment>>, ghost distinct: seq<Request>)
    ensures assignments.None? <==> maximumParallelism <= 0
    ensures IsDeduped(distinct, requests)
    ensures assignments.Some? ==>
      && |assignments.value| == |distinct| && IsBatchPlan(assignments.value, Reversed(distinct), candidates, selfPeerId)
      && DistinctInWaves(assignments.value, maximumParallelism)
      && FollowsScheduler(assignments.value, Reversed(distinct), policyName, scheduler, candidates, selfPeerId,
           maximumParallelism, segmentDurationMs)
  {
    var order := Dedupe(requests);
    distinct := order;
    if maximumParallelism <= 0 { return None, distinct; }
    var prioritized := Reversed(order);
    var result: seq<Assignment> := [];
    var offset := 0;
    ghost var waves := 0;
    while offset < |prioritized|
      invariant 0 <= waves && offset == waves * maximumParallelism
      invariant |result| == if offset < |prioritized| then offset else |prioritized|
      invariant IsBatchPlan(result, prioritized, candidates, selfPeerId) && DistinctInWaves(result, maximumParallelism)
      invariant FollowsScheduler(result, prioritized, policyName, scheduler, candidates, selfPeerId,
        maximumParallelism, segmentDurationMs)
    {
      hide IsBatchPlan, DistinctInWaves, FollowsScheduler;
      result := PlanWave(policyName, scheduler, prioritized, candidates, selfPeerId, maximumParallelism,
        segmentDurationMs, result, waves);
      offset, waves := offset + maximumParallelism, waves + 1;
    }
    assignments := Some(result);
  }

  /** Asks the scheduler about one request. */
  method PlanNext(policyName: string, scheduler: (nat, Context) -> Response, k: nat, request: Request,
                  candidates: seq<Candidate>, taken: set<string>, selfPeerId: string, maximumParallelism: nat,
                  segmentDurationMs: Option<real>)
    returns (next: Assignment)
    requires maximumParallelism > 0
    ensures next.segmentId == request.segmentId
    ensures IsAnswer(next.peerId, k, request, policyName, scheduler, Available(candidates, taken), selfPeerId,
      maximumParallelism, segmentDurationMs)
    ensures next.peerId.Some? ==>
      next.peerId.value !in taken && Serves(candidates, selfPeerId, next.segmentId, next.peerId.value)
  {
    var ctx := Context(request.segmentId, SyntheticDeadline(request.segmentsAhead, segmentDurationMs),
                       Available(candidates, taken), selfPeerId, maximumParallelism);
    var peerId, _ := PlanOne(policyName, scheduler(k, ctx), ctx, candidates);
    next := Assignment(request.segmentId, peerId);
  }

  method PlanWave(policyName: string,
                  scheduler: (nat, Context) -> Response, prioritized: seq<Request>, candidates: seq<Candidate>,
                  selfPeerId: string, maximumParallelism: nat, segmentDurationMs: Option<real>,
                  before: seq<Assignment>, ghost waves: nat)
    returns (result: seq<Assignment>)
    requires maximumParallelism > 0 && |before| < |prioritized| && |before| == waves * maximumParallelism
    requires IsBatchPlan(before, prioritized, candidates, selfPeerId) && DistinctInWaves(before, maximumParallelism)
    requires FollowsScheduler(before, prioritized, policyName, scheduler, candidates, selfPeerId, maximumParallelism,
      segmentDurationMs)
    ensures |result| == if |before| + maximumParallelism < |prioritized| then |before| + maximumParallelism
      else |prioritized|
    ensures IsBatchPlan(result, prioritized, candidates, selfPeerId) && DistinctInWaves(result, maximumParallelism)
    ensures FollowsScheduler(result, prioritized, policyName, scheduler, candidates, selfPeerId, maximumParallelism,
      segmentDurationMs)
  {
    var offset := |before|;
    var end := if offset + maximumParallelism < |prioritized| then offset + maximumParallelism else |prioritized|;
    var taken: set<string> := {};
    result := before;
    NobodyAssigned(before, offset);
    for k := offset to end
      invariant |result| == k && IsBatchPlan(result, prioritized, candidates, selfPeerId)
      invariant DistinctInWaves(result, maximumParallelism)
      invariant FollowsScheduler(result, prioritized, policyName, scheduler, candidates, selfPeerId,
        maximumParallelism, segmentDurationMs)
      invariant taken == AssignedIn(result, offset, k)
    {
      hide IsAnswer, Available, IsBatchPlan, DistinctInWaves, Serves, FollowsScheduler, AssignedIn;
      var next := PlanNext(policyName, scheduler, k, prioritized[k], candidates, taken, selfPeerId,
        maximumParallelism, segmentDurationMs);
      WaveGoesOn(result, next, prioritized, policyName, scheduler, candidates, selfPeerId, maximumParallelism,
        segmentDurationMs, waves);
      result := result + [next];
      if next.peerId.Some? { taken := taken + {next.peerId.value}; }
    }
  }

  lemma NobodyAssigned(assignments: seq<Assignment>, at: nat)
    requires at <= |assignments|
    ensures AssignedIn(assignments, at, at) == {}
  {
  }

  lemma WaveGoesOn(result: seq<Assignment>, next: Assignment, order: seq<Request>, policyName: string,
                   scheduler: (nat, Context) -> Response, candidates: seq<Candidate>, selfPeerId: string,
                   wave: nat, segmentDurationMs: Option<real>, q: nat)
    requires wave > 0 && q * wave <= |result| < q * wave + wave && |result| < |order|
    requires IsBatchPlan(result, order, candidates, selfPeerId) && DistinctInWaves(result, wave)
    requires FollowsScheduler(result, order, policyName, scheduler, candidates, selfPeerId, wave, segmentDurationMs)
    requires next.segmentId == order[|result|].segmentId
    requires var taken := AssignedIn(result, q * wave, |result|);
      && IsAnswer(next.peerId, |result|, order[|result|], policyName, scheduler, Available(candidates, taken),
           selfPeerId, wave, segmentDurationMs)
      && (next.peerId.Some? ==>
            next.peerId.value !in taken && Serves(candidates, selfPeerId, next.segmentId, next.peerId.value))
    ensures IsBatchPlan(result + [next], order, candidates, selfPeerId) && DistinctInWaves(result + [next], wave)
    ensures FollowsScheduler(result + [next], order, policyName, scheduler, candidates, selfPeerId, wave,
      segmentDurationMs)
    ensures AssignedIn(result + [next], q * wave, |result| + 1) ==
      AssignedIn(result, q * wave, |result|) + if next.peerId.Some? then {next.peerId.value} else {}
  {
    hide IsAnswer, Available, Serves, FollowsScheduler, DistinctInWaves;
    Quotient(|result|, q, wave);
    FollowsOneMore(result, next, order, policyName, scheduler, candidates, selfPeerId, wave, segmentDurationMs);
    AssignedOneMore(result, next, q * wave);
    WaveGrows(result, next, wave, q, |result|);
  }

  /** The fetcher runs `assignments.slice(offset, offset + wave)` concurrently: no peer serves two of them. */
  lemma ConcurrentPeersAreDistinct(assignments: seq<Assignment>, wave: nat, q: nat, i: nat, j: nat)
    requires wave > 0 && DistinctInWaves(assignments, wave) && q * wave <= i < j < |assignments| && j < q * wave + wave
    requires assignments[i].peerId.Some? && assignments[j].peerId.Some?
    ensures assignments[i].peerId.value != assignments[j].peerId.value
  {
    Quotient(i, q, wave);
    Quotient(j, q, wave);
  }

  lemma WaveGrows(result: seq<Assignment>, next: Assignment, wave: nat, q: nat, k: nat)
    requires wave > 0 && DistinctInWaves(result, wave) && |result| == k && q * wave <= k < q * wave + wave
    requires forall i :: q * wave <= i < k && result[i].peerId.Some? ==> result[i].peerId != next.peerId
    ensures DistinctInWaves(result + [next], wave)
  {
    var more := result + [next];
    Quotient(k, q, wave);
    forall i, j | 0 <= i < j < |more| && i / wave == j / wave && more[i].peerId.Some? && more[j].peerId.Some?
      ensures more[i].peerId != more[j].peerId
    {
      if j == k { FirstOfWave(i, wave); }
    }
  }

  lemma FirstOfWave(i: nat, wave: nat)
    requires wave > 0
    ensures (i / wave) * wave <= i
  {
  }
}
