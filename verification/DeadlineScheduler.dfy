/**
 The deadline wrapper (peer/src/deadline-aware-scheduler.ts): execution hints around any base
 scheduler's plan, from the playback slack and an estimate of how long Origin takes
 (peer/src/origin-latency-estimator.ts).
 */
module DeadlineScheduler {
  import opened Wrappers
  import opened Scheduler

  // ---- Origin latency estimate ----

  function Clamp(value: real, minimum: real, maximum: real): real {
    if value < minimum then (if minimum < maximum then minimum else maximum)
    else if value > maximum then maximum else value
  }

  /** One observation; samples that are not finite are ignored. */
  function Observed(estimate: real, sample: Number, alpha: real, minMs: real, maxMs: real): real {
    if !sample.Finite? then estimate
    else Clamp(alpha * Clamp(sample.value, minMs, maxMs) + (1.0 - alpha) * estimate, minMs, maxMs)
  }

  ghost predicate EstimatorOk(alpha: real, minMs: real, maxMs: real) { 0.0 < alpha <= 1.0 && 0.0 <= minMs <= maxMs }

  /** The outer clamp never acts: a sample moves the estimate towards itself and never past itself. */
  lemma ObservedIsBetween(estimate: real, sample: real, alpha: real, minMs: real, maxMs: real)
    requires EstimatorOk(alpha, minMs, maxMs) && minMs <= estimate <= maxMs
    ensures var s := if sample < minMs then minMs else if sample > maxMs then maxMs else sample;
      var e := Observed(estimate, Finite(sample), alpha, minMs, maxMs);
      && e == estimate + alpha * (s - estimate) && minMs <= e <= maxMs
      && (if s <= estimate then s <= e <= estimate else estimate <= e <= s)
  {
    var s := Clamp(sample, minMs, maxMs);
    var d := s - estimate;
    assert alpha * s + (1.0 - alpha) * estimate == estimate + alpha * d;
    if d >= 0.0 {
      ProductIsPositive(alpha, d);
      ProductIsPositive(1.0 - alpha, d);
    } else {
      ProductIsPositive(alpha, -d);
      ProductIsPositive(1.0 - alpha, -d);
    }
  }

  lemma ProductIsPositive(a: real, b: real)
    requires a >= 0.0 && b >= 0.0
    ensures a * b >= 0.0
  {
  }

  class OriginLatencyEstimator {
    const initialEstimateMs: real
    const alpha: real
    const minMs: real
    const maxMs: real
    var currentEstimateMs: real

    ghost predicate Valid()
      reads this
    {
      EstimatorOk(alpha, minMs, maxMs) && minMs <= initialEstimateMs <= maxMs && minMs <= currentEstimateMs <= maxMs
    }

    constructor (initial: real, alpha: real, minMs: real, maxMs: real)
      requires EstimatorOk(alpha, minMs, maxMs)
      ensures Valid() && currentEstimateMs == Clamp(initial, minMs, maxMs)
    {
      this.alpha, this.minMs, this.maxMs := alpha, minMs, maxMs;
      initialEstimateMs, currentEstimateMs := Clamp(initial, minMs, maxMs), Clamp(initial, minMs, maxMs);
    }

    method Observe(latencyMs: Number)
      requires Valid()
      modifies this`currentEstimateMs
      ensures Valid() && currentEstimateMs == Observed(old(currentEstimateMs), latencyMs, alpha, minMs, maxMs)
      ensures latencyMs.Finite? ==>
        currentEstimateMs ==
          old(currentEstimateMs) + alpha * (Clamp(latencyMs.value, minMs, maxMs) - old(currentEstimateMs))
    {
      if !latencyMs.Finite? { return; }
      var bounded := Clamp(latencyMs.value, minMs, maxMs);
      var next := Clamp(alpha * bounded + (1.0 - alpha) * currentEstimateMs, minMs, maxMs);
      assert next == Observed(currentEstimateMs, latencyMs, alpha, minMs, maxMs);
      hide Observed;
      ObservedIsBetween(currentEstimateMs, latencyMs.value, alpha, minMs, maxMs);
      currentEstimateMs := next;
    }

    method Reset()
      requires Valid()
      modifies this`currentEstimateMs
      ensures Valid() && currentEstimateMs == initialEstimateMs
    {
      currentEstimateMs := initialEstimateMs;
    }
  }

  // ---- The wrapper ----

  datatype Settings = Settings(safetyMarginMs: real, maximumPeerProbeWindowMs: real, maximumHedgeDelayMs: real)

  ghost predicate SettingsOk(c: Settings) {
    c.safetyMarginMs >= 0.0 && c.maximumPeerProbeWindowMs >= 0.0 && c.maximumHedgeDelayMs >= 0.0
  }

  const POLICY := "deadline-aware"

  function Max(a: real, b: real): real { if a < b then b else a }

  function Least(a: real, b: real): real { if a < b then a else b }

  function ExecutionSlack(slack: Option<Number>): Option<Number> {
    if slack.Some? && slack.value.Finite? then Some(Finite(Max(0.0, slack.value.value))) else None
  }

  function OriginPlan(slack: Option<Number>): Plan {
    Plan(Text(POLICY), Text("origin"), Some([]), Some([]),
      Execution(Text("origin-only"), None, None, ExecutionSlack(slack)))
  }

  function SlackOf(ctx: Context): Option<Number> { if ctx.deadline.Deadline? then Some(ctx.deadline.slackMs) else None }

  /** Every ranked entry has reasons that can be copied. */
  predicate HasReasons(plan: Plan) {
    plan.Plan? && plan.rankedPeers.Some? && forall r :: r in plan.rankedPeers.value ==> r.Ranked? && r.reasons
  }

  /** A copy spreads the reasons of every ranked entry, which throws if they cannot be iterated over. */
  function CopyPlan(plan: Plan, execution: Execution): Response
    requires plan.Plan?
  {
    if HasReasons(plan) then Answers(plan.(policy := Text(POLICY), execution := execution)) else Throws
  }

  /** `decorateBasePlan`: a copy of the base scheduler's plan if it is valid, with the hints in place of its own. */
  ghost function Decorated(basePolicy: string, base: Response, ctx: Context, strategy: string,
                           hedgeDelayMs: Option<Number>): Response {
    if !(base.Answers? && ValidPlan(base.plan, basePolicy, ctx)) then Answers(OriginPlan(ExecutionSlack(SlackOf(ctx))))
    else if base.plan.mode == Text("origin") || base.plan.peerIds.value == []
    then Answers(OriginPlan(ExecutionSlack(SlackOf(ctx))))
    else CopyPlan(base.plan, Execution(Text(strategy), hedgeDelayMs, hedgeDelayMs, ExecutionSlack(SlackOf(ctx))))
  }

  function LatestSafeOriginStart(c: Settings, estimateMs: real, slackMs: real): real {
    slackMs - estimateMs - c.safetyMarginMs
  }

  ghost function PlanSegment(c: Settings, estimateMs: real, basePolicy: string, base: Response,
                             ctx: Context): Response {
    if !ctx.deadline.Deadline? || ctx.deadline.kind == Text("unknown")
    then Decorated(basePolicy, base, ctx, "legacy-p2p-first", None)
    else if !ctx.deadline.slackMs.Finite? then Answers(OriginPlan(None))
    else
      var latest := LatestSafeOriginStart(c, estimateMs, ctx.deadline.slackMs.value);
      if latest <= 0.0 then Answers(OriginPlan(SlackOf(ctx)))
      else if latest > c.maximumPeerProbeWindowMs then Decorated(basePolicy, base, ctx, "legacy-p2p-first", None)
      else Decorated(basePolicy, base, ctx, "hedged-origin",
        Some(Finite(Least(c.maximumHedgeDelayMs, Max(0.0, latest)))))
  }

  /** Origin has to start at once, or the base scheduler gives no peers. */
  ghost predicate OriginChosen(c: Settings, estimateMs: real, basePolicy: string, base: Response, ctx: Context) {
    || (ctx.deadline.Deadline? && ctx.deadline.kind != Text("unknown") &&
        (!ctx.deadline.slackMs.Finite? || ctx.deadline.slackMs.value <= estimateMs + c.safetyMarginMs))
    || !(base.Answers? && ValidPlan(base.plan, basePolicy, ctx)) || base.plan.mode == Text("origin")
  }

  lemma OriginPlanIsValid(ctx: Context, slack: Option<Number>)
    ensures ValidPlan(OriginPlan(slack), POLICY, ctx) <==> DeadlineOk(ctx.deadline) && ctx.maximumParallelism >= 0
  {
    assert IsPermutation([]);
  }

  ghost predicate AnswersValid(response: Response, ctx: Context) {
    response.Answers? && ValidPlan(response.plan, POLICY, ctx)
  }

  /** A hint delay that leaves Origin its time is always accepted. */
  lemma DecoratedIsValid(basePolicy: string, base: Response, ctx: Context, strategy: string,
                         hedgeDelayMs: Option<Number>)
    requires strategy in STRATEGIES && strategy != "origin-only" && IsDuration(hedgeDelayMs)
    requires hedgeDelayMs.Some? ==>
      ctx.deadline.Deadline? && ctx.deadline.slackMs.Finite? && hedgeDelayMs.value.value <= ctx.deadline.slackMs.value
    ensures var r, chosen := Decorated(basePolicy, base, ctx, strategy, hedgeDelayMs),
        !(base.Answers? && ValidPlan(base.plan, basePolicy, ctx)) || base.plan.mode == Text("origin");
      && (r.Throws? <==> !chosen && !HasReasons(base.plan))
      && (AnswersValid(r, ctx) <==>
        DeadlineOk(ctx.deadline) && ctx.maximumParallelism >= 0 && (chosen || HasReasons(base.plan)))
  {
    OriginPlanIsValid(ctx, ExecutionSlack(SlackOf(ctx)));
    hide CanServe, EntryOk, IsPermutation, HasReasons;
  }

  /**
   Whatever the base scheduler answers, the wrapper answers with a valid plan exactly when the request
   is well formed and either Origin is chosen or every entry the base plan ranks has reasons. In the
   remaining case, a base plan that passed the validator without reasons, the wrapper throws.
   */
  lemma WrapperIsContained(c: Settings, estimateMs: real, basePolicy: string, base: Response, ctx: Context)
    requires SettingsOk(c) && estimateMs >= 0.0 && !ctx.deadline.Malformed?
    ensures var r, chosen := PlanSegment(c, estimateMs, basePolicy, base, ctx),
      OriginChosen(c, estimateMs, basePolicy, base, ctx);
      && (r.Throws? <==> !chosen && !HasReasons(base.plan))
      && (AnswersValid(r, ctx) <==>
        DeadlineOk(ctx.deadline) && ctx.maximumParallelism >= 0 && (chosen || HasReasons(base.plan)))
  {
    hide ValidPlan, Decorated, OriginPlan, HasReasons;
    if !ctx.deadline.Deadline? || ctx.deadline.kind == Text("unknown") {
      DecoratedIsValid(basePolicy, base, ctx, "legacy-p2p-first", None);
    } else if !ctx.deadline.slackMs.Finite? {
      OriginPlanIsValid(ctx, None);
    } else {
      var latest := LatestSafeOriginStart(c, estimateMs, ctx.deadline.slackMs.value);
      OriginPlanIsValid(ctx, SlackOf(ctx));
      DecoratedIsValid(basePolicy, base, ctx, "legacy-p2p-first", None);
      if 0.0 < latest {
        DecoratedIsValid(basePolicy, base, ctx, "hedged-origin",
          Some(Finite(Least(c.maximumHedgeDelayMs, Max(0.0, latest)))));
      }
    }
  }

  /** Such a base plan: one peer is selected and ranked, and the entry has no reasons. */
  lemma ReasonsAreNotValidated(c: Settings, estimateMs: real)
    ensures var ctx := Context("s", NoDeadline, [Candidate("p", {"s"})], "me", 1);
      var plan := Plan(Text("base"), Text("single-peer"), Some([Text("p")]),
        Some([Ranked("p", Finite(1.0), None, false)]), NoExecution);
      ValidPlan(plan, "base", ctx) && PlanSegment(c, estimateMs, "base", Answers(plan), ctx) == Throws
  {
    var ctx := Context("s", NoDeadline, [Candidate("p", {"s"})], "me", 1);
    var ranked := [Ranked("p", Finite(1.0), None, false)];
    assert ctx.candidates[0].id == "p" && "s" in ctx.candidates[0].segments;
    assert Advertises(ctx.candidates, "p", "s") && IsKnown(ctx.candidates, "p") && CanServe(ctx, "p");
    assert ranked[0].rank == Finite(1 as real) && HasRank(ranked, 1) && IsPermutation(ranked);
    assert ranked[0] in ranked;
  }

  /**
   Behind the safe call of its user the wrapper is contained after all: a throw becomes the Origin
   fallback, and the plan that is used is valid exactly when the request is well formed.
   */
  lemma SafeWrapperIsContained(c: Settings, estimateMs: real, basePolicy: string, base: Response, ctx: Context)
    requires SettingsOk(c) && estimateMs >= 0.0 && !ctx.deadline.Malformed?
    ensures var r := PlanSegment(c, estimateMs, basePolicy, base, ctx);
      && (r.Throws? ==> SafePlan(POLICY, r, ctx) == OriginFallback(POLICY))
      && (r.Answers? && DeadlineOk(ctx.deadline) && ctx.maximumParallelism >= 0 ==> SafePlan(POLICY, r, ctx) == r.plan)
      && (ValidPlan(SafePlan(POLICY, r, ctx), POLICY, ctx) <==> DeadlineOk(ctx.deadline) && ctx.maximumParallelism >= 0)
  {
    FallbackIsValid(ctx);
    hide ValidPlan, PlanSegment, HasReasons, OriginChosen;
    WrapperIsContained(c, estimateMs, basePolicy, base, ctx);
  }

  lemma FallbackIsValid(ctx: Context)
    ensures ValidPlan(OriginFallback(POLICY), POLICY, ctx) <==> DeadlineOk(ctx.deadline) && ctx.maximumParallelism >= 0
  {
    assert IsPermutation([]);
  }

  /** The hedge delay, the estimated Origin latency and the margin fit the slack together. */
  predicate HedgeFitsSlack(c: Settings, estimateMs: real, e: Execution, d: Deadline)
    requires e.Execution?
  {
    && d.Deadline? && d.slackMs.Finite? && e.originHedgeDelayMs.Some? && e.originHedgeDelayMs.value.Finite?
    && e.originHedgeDelayMs.value.value + estimateMs + c.safetyMarginMs <= d.slackMs.value
    && 0.0 <= e.originHedgeDelayMs.value.value <= c.maximumHedgeDelayMs && e.peerAttemptBudgetMs == e.originHedgeDelayMs
  }

  /** No longer delay would fit: it is the maximum, or nothing of the slack is left. */
  predicate HedgeIsLongest(c: Settings, estimateMs: real, delayMs: real, slackMs: real) {
    delayMs == c.maximumHedgeDelayMs || delayMs + estimateMs + c.safetyMarginMs == slackMs
  }

  /** A hedge starts as late as still leaves Origin time to answer within the slack, with the margin to spare. */
  lemma HedgeLeavesOriginTime(c: Settings, estimateMs: real, basePolicy: string, base: Response, ctx: Context)
    requires SettingsOk(c) && estimateMs >= 0.0 && PlanSegment(c, estimateMs, basePolicy, base, ctx).Answers?
    ensures var plan := PlanSegment(c, estimateMs, basePolicy, base, ctx).plan;
      && plan.Plan? && plan.execution.Execution?
      && (plan.execution.strategy == Text("hedged-origin") ==>
        && HedgeFitsSlack(c, estimateMs, plan.execution, ctx.deadline)
        && HedgeIsLongest(c, estimateMs, plan.execution.originHedgeDelayMs.value.value, ctx.deadline.slackMs.value))
  {
    assert base.Answers? && ValidPlan(base.plan, basePolicy, ctx) ==> base.plan.Plan?;
    hide ValidPlan, HasReasons;
  }

  /** Peers are skipped exactly when Origin has to start at once, or the base scheduler gives none. */
  lemma OriginAtOnce(c: Settings, estimateMs: real, basePolicy: string, base: Response, ctx: Context)
    requires SettingsOk(c) && estimateMs >= 0.0
    ensures var r := PlanSegment(c, estimateMs, basePolicy, base, ctx);
      OriginChosen(c, estimateMs, basePolicy, base, ctx) <==>
        r.Answers? && r.plan.Plan? && r.plan.mode == Text("origin")
  {
    hide CanServe, EntryOk, IsPermutation, ExecutionOk, HasReasons;
  }

  /**
   Unless Origin is chosen the plan asks the peers the base scheduler ranked. It is hedged exactly when
   the deadline is known and Origin's latest safe start lies within the probe window.
   */
  lemma KeepsThePeers(c: Settings, estimateMs: real, basePolicy: string, base: Response, ctx: Context)
    requires SettingsOk(c) && !OriginChosen(c, estimateMs, basePolicy, base, ctx) && HasReasons(base.plan)
    ensures var r, d := PlanSegment(c, estimateMs, basePolicy, base, ctx), ctx.deadline;
      && r.Answers? && r.plan.Plan? && r.plan.execution.Execution? && r.plan.policy == Text("deadline-aware")
      && r.plan.mode == base.plan.mode && r.plan.peerIds == base.plan.peerIds
      && r.plan.rankedPeers == base.plan.rankedPeers
      && (r.plan.execution.strategy == Text("hedged-origin") <==>
            d.Deadline? && d.kind != Text("unknown") &&
            d.slackMs.value - estimateMs - c.safetyMarginMs <= c.maximumPeerProbeWindowMs)
      && (r.plan.execution.strategy != Text("hedged-origin") ==>
            r.plan.execution == Execution(Text("legacy-p2p-first"), None, None, r.plan.execution.deadlineSlackMs))
      && r.plan.execution.deadlineSlackMs ==
           if d.Deadline? && d.slackMs.Finite? then Some(Finite(Max(0.0, d.slackMs.value))) else None
  {
    hide CanServe, EntryOk, IsPermutation, ExecutionOk, HasReasons;
  }
}
