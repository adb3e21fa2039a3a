/**
 Consumers that want the same segment share one request (peer/src/fetcher.ts; the browser plugin
 does the same with a counter, sdk/src/hls-plugin.ts). The request is aborted when its last
 consumer gives up.

 Each event is one turn of the JavaScript event loop: a fetch starts or joins, the shared work
 settles, a settled result reaches a consumer, a consumer aborts, or everything is stopped.
 */
module Coalescing {

  datatype Outcome = Waiting | Resolved | Rejected

  /** `waiting` are the consumers whose promise is open; `aborted` is the signal given to the work. */
  datatype Request = Request(segment: string, waiting: set<nat>, settled: bool, succeeded: bool, aborted: bool)

  datatype Consumer = Consumer(request: nat, outcome: Outcome)

  datatype State = State(inFlight: map<string, nat>, requests: seq<Request>, consumers: seq<Consumer>, stopped: bool)

  const IDLE := State(map[], [], [], false)

  datatype Event =
    | Fetch(segment: string)
    | Settle(request: nat, succeeded: bool)
    | Deliver(consumer: nat)
    | GiveUp(consumer: nat)
    | Stop

  predicate Enabled(s: State, e: Event) {
    match e
    case Fetch(_) => true
    case Settle(r, _) => r < |s.requests| && !s.requests[r].settled
    case Deliver(c) =>
      c < |s.consumers| && s.consumers[c].request < |s.requests| && s.consumers[c].outcome == Waiting &&
      s.requests[s.consumers[c].request].settled
    case GiveUp(c) => c < |s.consumers| && s.consumers[c].request < |s.requests|
    case Stop => !s.stopped
  }

  /** `waitForSegment`: one more consumer of request `r`. */
  function Join(s: State, r: nat): State
    requires r < |s.requests|
  {
    var c := |s.consumers|;
    s.(consumers := s.consumers + [Consumer(r, Waiting)],
       requests := s.requests[r := s.requests[r].(waiting := s.requests[r].waiting + {c})])
  }

  /** `startUncachedSegment`. */
  function Begin(s: State, segment: string): State {
    s.(requests := s.requests + [Request(segment, {}, false, false, false)],
      inFlight := s.inFlight[segment := |s.requests|])
  }

  /** `finish`: the consumer's promise closes; the last one to abort before the work settles aborts the work. */
  function Finish(s: State, c: nat, outcome: Outcome, gaveUp: bool): State
    requires c < |s.consumers| && s.consumers[c].request < |s.requests|
  {
    if s.consumers[c].outcome != Waiting then s
    else
      var r := s.consumers[c].request;
      var q := s.requests[r].(waiting := s.requests[r].waiting - {c});
      s.(consumers := s.consumers[c := s.consumers[c].(outcome := outcome)],
         requests := s.requests[r := if q.waiting == {} && !q.settled && gaveUp then q.(aborted := true) else q])
  }

  predicate InFlight(s: State, r: nat) {
    r < |s.requests| && s.requests[r].segment in s.inFlight && s.inFlight[s.requests[r].segment] == r
  }

  function Next(s: State, e: Event): State
    requires Enabled(s, e)
  {
    match e
    case Fetch(segment) =>
      if segment in s.inFlight && s.inFlight[segment] < |s.requests| then Join(s, s.inFlight[segment])
      else Join(Begin(s, segment), |s.requests|)
    case Settle(r, ok) =>
      s.(requests := s.requests[r := s.requests[r].(settled := true, succeeded := ok)],
         inFlight := if InFlight(s, r) then s.inFlight - {s.requests[r].segment} else s.inFlight)
    case Deliver(c) => Finish(s, c, if s.requests[s.consumers[c].request].succeeded then Resolved else Rejected, false)
    case GiveUp(c) => Finish(s, c, Rejected, true)
    case Stop =>
      s.(stopped := true,
         requests := seq(|s.requests|, r requires 0 <= r < |s.requests| =>
           if InFlight(s, r) then s.requests[r].(waiting := {}, aborted := true) else s.requests[r]),
         consumers := seq(|s.consumers|, c requires 0 <= c < |s.consumers| =>
           if s.consumers[c].outcome == Waiting && InFlight(s, s.consumers[c].request)
           then s.consumers[c].(outcome := Rejected) else s.consumers[c]))
  }

  // ---- What always holds ----

  /** A segment is in flight exactly while its one open request is. */
  ghost predicate OnePerSegment(s: State) {
    && (forall x :: x in s.inFlight ==> s.inFlight[x] < |s.requests| && s.requests[s.inFlight[x]].segment == x)
    && (forall r :: 0 <= r < |s.requests| ==> (InFlight(s, r) <==> !s.requests[r].settled))
  }

  predicate WaitsFor(s: State, c: nat, r: nat) {
    c < |s.consumers| && s.consumers[c].request == r && s.consumers[c].outcome == Waiting
  }

  /** A request counts exactly the consumers that still wait for it. */
  ghost predicate CountsConsumers(s: State) {
    && (forall c :: 0 <= c < |s.consumers| ==> s.consumers[c].request < |s.requests|)
    && (forall r: nat, c: nat :: r < |s.requests| ==> (c in s.requests[r].waiting <==> WaitsFor(s, c, r)))
    && (forall c :: 0 <= c < |s.consumers| && s.consumers[c].outcome == Resolved ==>
          s.requests[s.consumers[c].request].settled && s.requests[s.consumers[c].request].succeeded)
  }

  ghost predicate Sound(s: State) { OnePerSegment(s) && CountsConsumers(s) }

  lemma JoinSound(s: State, r: nat)
    requires Sound(s) && r < |s.requests|
    ensures Sound(Join(s, r))
  {
    var s1, last := Join(s, r), |s.consumers|;
    assert last !in s.requests[r].waiting by { assert !WaitsFor(s, last, r); }
    assert forall i: nat, c: nat :: WaitsFor(s1, c, i) <==> WaitsFor(s, c, i) || (i == r && c == last);
    assert forall i :: 0 <= i < |s.requests| ==> (InFlight(s1, i) <==> InFlight(s, i));
  }

  lemma BeginSound(s: State, segment: string)
    requires Sound(s) && segment !in s.inFlight
    ensures Sound(Begin(s, segment))
  {
    var s1 := Begin(s, segment);
    assert forall i :: 0 <= i < |s.requests| ==> (InFlight(s1, i) <==> InFlight(s, i));
  }

  lemma FinishSound(s: State, c: nat, outcome: Outcome, gaveUp: bool)
    requires Sound(s) && c < |s.consumers| && outcome != Waiting
    requires outcome == Resolved ==>
      s.requests[s.consumers[c].request].settled && s.requests[s.consumers[c].request].succeeded
    ensures Sound(Finish(s, c, outcome, gaveUp))
  {
    var s1 := Finish(s, c, outcome, gaveUp);
    assert forall i: nat, d: nat :: WaitsFor(s1, d, i) <==> WaitsFor(s, d, i) && d != c;
    assert forall i :: 0 <= i < |s.requests| ==> (InFlight(s1, i) <==> InFlight(s, i));
  }

  lemma SettleSound(s: State, r: nat, ok: bool)
    requires Sound(s) && Enabled(s, Settle(r, ok))
    ensures Sound(Next(s, Settle(r, ok)))
  {
    var s1 := Next(s, Settle(r, ok));
    assert forall i :: 0 <= i < |s.requests| ==> (InFlight(s1, i) <==> InFlight(s, i) && i != r);
  }

  lemma StopSound(s: State)
    requires Sound(s) && !s.stopped
    ensures Sound(Next(s, Stop))
  {
    var s1 := Next(s, Stop);
    assert forall i: nat, d: nat :: WaitsFor(s1, d, i) <==> WaitsFor(s, d, i) && !InFlight(s, i);
    assert forall i :: 0 <= i < |s.requests| ==> (InFlight(s1, i) <==> InFlight(s, i));
  }

  lemma NextStaysSound(s: State, e: Event)
    requires Sound(s) && Enabled(s, e)
    ensures Sound(Next(s, e))
  {
    match e {
      case Fetch(segment) =>
        if segment in s.inFlight {
          JoinSound(s, s.inFlight[segment]);
        } else {
          BeginSound(s, segment);
          JoinSound(Begin(s, segment), |s.requests|);
        }
      case Settle(r, ok) => SettleSound(s, r, ok);
      case Deliver(c) => FinishSound(s, c, if s.requests[s.consumers[c].request].succeeded then Resolved else Rejected,
        false);
      case GiveUp(c) => FinishSound(s, c, Rejected, true);
      case Stop => StopSound(s);
    }
  }

  /** Two open requests never fetch the same segment. */
  lemma OneRequestPerSegment(s: State, a: nat, b: nat)
    requires Sound(s) && a < |s.requests| && b < |s.requests| && !s.requests[a].settled && !s.requests[b].settled
    requires s.requests[a].segment == s.requests[b].segment
    ensures a == b
  {
    assert InFlight(s, a) && InFlight(s, b);
  }

  /** A consumer's promise closes once and keeps its outcome. */
  lemma SettlesOnce(s: State, e: Event, c: nat)
    requires Sound(s) && Enabled(s, e) && c < |s.consumers| && s.consumers[c].outcome != Waiting
    ensures c < |Next(s, e).consumers| && Next(s, e).consumers[c] == s.consumers[c]
  {
  }

  /**
   What each event does to a waiting consumer: a delivery hands it the result of its request, giving
   up rejects it, stopping rejects it while its request is open, and nothing else touches it.
   */
  lemma NextOutcome(s: State, e: Event, c: nat)
    requires Sound(s) && Enabled(s, e) && c < |s.consumers| && s.consumers[c].outcome == Waiting
    ensures c < |Next(s, e).consumers| && Next(s, e).consumers[c].request == s.consumers[c].request
    ensures var q := s.requests[s.consumers[c].request];
      match Next(s, e).consumers[c].outcome
      case Resolved => e == Deliver(c) && q.settled && q.succeeded
      case Rejected => (e == Deliver(c) && q.settled && !q.succeeded) || e == GiveUp(c) || (e == Stop && !q.settled)
      case Waiting => e != Deliver(c) && e != GiveUp(c) && (e == Stop ==> q.settled)
  {
    var r := s.consumers[c].request;
    assert InFlight(s, r) <==> !s.requests[r].settled;
  }

  /** A fetch adds one consumer, waiting for the open request of its segment; a new one starts only if there is none. */
  lemma FetchWaits(s: State, segment: string)
    requires Sound(s)
    ensures var s1, c := Next(s, Fetch(segment)), |s.consumers|;
      && |s1.consumers| == c + 1 && s1.consumers[..c] == s.consumers && s1.consumers[c].outcome == Waiting
      && var r := s1.consumers[c].request;
         && r < |s1.requests| && s1.requests[r].segment == segment && !s1.requests[r].settled
         && c in s1.requests[r].waiting
         && |s1.requests| == (if exists i :: 0 <= i < |s.requests| && InFlight(s, i) && s.requests[i].segment == segment
              then |s.requests| else |s.requests| + 1)
         && (forall i :: 0 <= i < |s.requests| ==>
              s1.requests[i] == s.requests[i].(waiting := s.requests[i].waiting + if i == r then {c} else {}))
  {
    if segment in s.inFlight { assert InFlight(s, s.inFlight[segment]); }
  }

  /** Delivering to a consumer and giving up change that consumer alone, and of the requests only who waits. */
  lemma OthersAreLeftAlone(s: State, e: Event, c: nat)
    requires Sound(s) && Enabled(s, e) && e in {Deliver(c), GiveUp(c)}
    ensures var s1 := Next(s, e);
      && |s1.consumers| == |s.consumers| && |s1.requests| == |s.requests|
      && s1.inFlight == s.inFlight && s1.stopped == s.stopped
      && (forall d :: 0 <= d < |s.consumers| && d != c ==> s1.consumers[d] == s.consumers[d])
      && (forall r :: 0 <= r < |s.requests| ==>
            && s1.requests[r].segment == s.requests[r].segment && s1.requests[r].waiting == s.requests[r].waiting - {c}
            && s1.requests[r].settled == s.requests[r].settled && s1.requests[r].succeeded == s.requests[r].succeeded)
  {
    forall r | 0 <= r < |s.requests| && r != s.consumers[c].request ensures c !in s.requests[r].waiting {
      assert !WaitsFor(s, c, r);
    }
    assert s.consumers[c].outcome == Waiting || forall r :: 0 <= r < |s.requests| ==> c !in s.requests[r].waiting by {
      assert s.consumers[c].outcome == Waiting || !WaitsFor(s, c, s.consumers[c].request);
    }
  }

  /** No consumer is forgotten: while one waits, its work is open or its result can be delivered. */
  lemma NobodyIsForgotten(s: State, c: nat)
    requires Sound(s) && c < |s.consumers| && s.consumers[c].outcome == Waiting
    ensures InFlight(s, s.consumers[c].request) || Enabled(s, Deliver(c))
  {
    assert s.requests[s.consumers[c].request].settled || InFlight(s, s.consumers[c].request);
  }

  /** `stop` aborts all open work; otherwise it is aborted exactly by its last consumer giving up. */
  lemma AbortsOnlyTheDeserted(s: State, e: Event, r: nat)
    requires Sound(s) && Enabled(s, e) && r < |s.requests| && !s.requests[r].aborted
    ensures r < |Next(s, e).requests|
    ensures Next(s, e).requests[r].aborted && e != Stop ==>
      e.GiveUp? && s.requests[r].waiting == {e.consumer} && Next(s, e).requests[r].waiting == {} &&
        !s.requests[r].settled
    ensures e.GiveUp? && s.requests[r].waiting == {e.consumer} && !s.requests[r].settled ==>
      Next(s, e).requests[r].aborted
    ensures e == Stop ==> (Next(s, e).requests[r].aborted <==> !s.requests[r].settled)
  {
    assert InFlight(s, r) <==> !s.requests[r].settled;
    if e.GiveUp? && s.requests[r].waiting == {e.consumer} {
      assert e.consumer in s.requests[r].waiting;
    }
  }

  // ---- Joining an aborted request ----

  /** A fetch of a segment whose request was aborted but has not settled yet. */
  predicate JoinsAborted(s: State, e: Event) {
    e.Fetch? && e.segment in s.inFlight && s.inFlight[e.segment] < |s.requests| &&
      s.requests[s.inFlight[e.segment]].aborted
  }

  /** Nobody waits for work that was told to stop. */
  ghost predicate AbortedAreDeserted(s: State) {
    forall r :: 0 <= r < |s.requests| && s.requests[r].aborted ==> s.requests[r].waiting == {}
  }

  /** Exactly the late joiners end up waiting for aborted work. */
  lemma DesertedIffNobodyJoinsLate(s: State, e: Event)
    requires Sound(s) && Enabled(s, e) && AbortedAreDeserted(s)
    ensures AbortedAreDeserted(Next(s, e)) <==> !JoinsAborted(s, e)
  {
    if JoinsAborted(s, e) {
      assert |s.consumers| in Next(s, e).requests[s.inFlight[e.segment]].waiting;
    }
  }

  ghost predicate IsRun(s: State, run: seq<Event>)
    decreases |run|
  {
    run == [] || (Enabled(s, run[0]) && IsRun(Next(s, run[0]), run[1..]))
  }

  ghost function After(s: State, run: seq<Event>): State
    requires IsRun(s, run)
    decreases |run|
  {
    if run == [] then s else After(Next(s, run[0]), run[1..])
  }

  ghost predicate NobodyJoinsLate(s: State, run: seq<Event>)
    requires IsRun(s, run)
    decreases |run|
  {
    run == [] || (!JoinsAborted(s, run[0]) && NobodyJoinsLate(Next(s, run[0]), run[1..]))
  }

  /** Every run: one request per segment, exact consumer sets, and each consumer's first outcome is final. */
  lemma {:induction false} EveryRunIsSound(s: State, run: seq<Event>, c: nat)
    requires Sound(s) && IsRun(s, run)
    ensures Sound(After(s, run))
    ensures c < |s.consumers| && s.consumers[c].outcome != Waiting ==>
      c < |After(s, run).consumers| && After(s, run).consumers[c] == s.consumers[c]
    ensures AbortedAreDeserted(s) && NobodyJoinsLate(s, run) ==> AbortedAreDeserted(After(s, run))
    decreases |run|
  {
    if run != [] {
      NextStaysSound(s, run[0]);
      if c < |s.consumers| && s.consumers[c].outcome != Waiting { SettlesOnce(s, run[0], c); }
      if AbortedAreDeserted(s) { DesertedIffNobodyJoinsLate(s, run[0]); }
      hide Sound, AbortedAreDeserted, JoinsAborted, Next, Enabled;
      EveryRunIsSound(Next(s, run[0]), run[1..], c);
    }
  }

  // ---- What becomes of each consumer ----

  /** At step `k` of the run the consumer, still waiting, is given this outcome, and why. */
  ghost predicate ClosedAt(s: State, run: seq<Event>, c: nat, outcome: Outcome, k: nat) {
    && k < |run| && IsRun(s, run[..k]) && c < |After(s, run[..k]).consumers|
    && var m := After(s, run[..k]);
       && m.consumers[c].outcome == Waiting && m.consumers[c].request < |m.requests|
       && var q := m.requests[m.consumers[c].request];
          match outcome
          case Resolved => run[k] == Deliver(c) && q.settled && q.succeeded
          case Rejected =>
            (run[k] == Deliver(c) && q.settled && !q.succeeded) || run[k] == GiveUp(c) || (run[k] == Stop && !q.settled)
          case Waiting => false
  }

  lemma ClosedLater(s: State, run: seq<Event>, c: nat, outcome: Outcome, k: nat)
    requires IsRun(s, run) && k < |run| - 1
    ensures ClosedAt(s, run, c, outcome, k + 1) <==> ClosedAt(Next(s, run[0]), run[1..], c, outcome, k)
  {
    assert run[..k + 1][1..] == run[1..][..k] && run[..k + 1][0] == run[0];
  }

  lemma ClosedNowOrLater(s: State, run: seq<Event>, c: nat, outcome: Outcome)
    requires IsRun(s, run) && run != []
    ensures (exists k: nat :: ClosedAt(s, run, c, outcome, k)) <==>
      ClosedAt(s, run, c, outcome, 0) || exists k: nat :: ClosedAt(Next(s, run[0]), run[1..], c, outcome, k)
  {
    if k: nat :| ClosedAt(s, run, c, outcome, k) && k > 0 {
      ClosedLater(s, run, c, outcome, k - 1);
      assert ClosedAt(Next(s, run[0]), run[1..], c, outcome, k - 1);
    }
    if k: nat :| ClosedAt(Next(s, run[0]), run[1..], c, outcome, k) {
      ClosedLater(s, run, c, outcome, k);
      assert ClosedAt(s, run, c, outcome, k + 1);
    }
  }

  lemma NotClosedAgain(s: State, run: seq<Event>, c: nat, outcome: Outcome, k: nat)
    requires Sound(s) && IsRun(s, run) && c < |s.consumers| && s.consumers[c].outcome != Waiting
    ensures !ClosedAt(s, run, c, outcome, k)
  {
    if k < |run| && IsRun(s, run[..k]) { EveryRunIsSound(s, run[..k], c); }
  }

  /**
   Over every run a consumer is resolved exactly if it was handed the result of a request that
   succeeded, and rejected exactly if it was handed a failure, gave up, or everything was stopped
   while its request was open, each time as the first thing that closed it.
   */
  lemma {:induction false} OutcomeIff(s: State, run: seq<Event>, c: nat, outcome: Outcome)
    requires Sound(s) && IsRun(s, run) && outcome != Waiting
    requires c < |s.consumers| ==> s.consumers[c].outcome == Waiting
    ensures c < |After(s, run).consumers| && After(s, run).consumers[c].outcome == outcome <==>
      exists k: nat :: ClosedAt(s, run, c, outcome, k)
    decreases |run|
  {
    if run == [] { return; }
    var s1 := Next(s, run[0]);
    NextStaysSound(s, run[0]);
    ClosedNowOrLater(s, run, c, outcome);
    assert ClosedAt(s, run, c, outcome, 0) <==>
      c < |s.consumers| && c < |s1.consumers| && s1.consumers[c].outcome == outcome by {
      assert run[..0] == [];
      if c < |s.consumers| { NextOutcome(s, run[0], c); }
    }
    hide Sound, ClosedAt;
    if c < |s1.consumers| && s1.consumers[c].outcome != Waiting {
      EveryRunIsSound(s1, run[1..], c);
      forall k: nat ensures !ClosedAt(s1, run[1..], c, outcome, k) { NotClosedAgain(s1, run[1..], c, outcome, k); }
    } else {
      OutcomeIff(s1, run[1..], c, outcome);
    }
  }

  lemma NextResult(s: State, e: Event, r: nat, ok: bool)
    requires Sound(s) && Enabled(s, e)
    ensures (r < |Next(s, e).requests| && Next(s, e).requests[r].settled && Next(s, e).requests[r].succeeded == ok) <==>
      (r < |s.requests| && s.requests[r].settled && s.requests[r].succeeded == ok) || e == Settle(r, ok)
  {
  }

  /** A request has the result it was settled with. */
  lemma {:induction false} ResultIff(s: State, run: seq<Event>, r: nat, ok: bool)
    requires Sound(s) && IsRun(s, run)
    ensures (r < |After(s, run).requests| &&
        After(s, run).requests[r].settled && After(s, run).requests[r].succeeded == ok) <==>
      (r < |s.requests| && s.requests[r].settled && s.requests[r].succeeded == ok) || Settle(r, ok) in run
    decreases |run|
  {
    if run != [] {
      assert run == [run[0]] + run[1..];
      NextStaysSound(s, run[0]);
      NextResult(s, run[0], r, ok);
      hide Sound, Next, Enabled;
      ResultIff(Next(s, run[0]), run[1..], r, ok);
    }
  }

  /** The consumer is open, or closed with the result of its request. */
  predicate HasResult(s: State, c: nat) {
    c < |s.consumers| && s.consumers[c].outcome != Waiting ==>
      && s.consumers[c].request < |s.requests| && s.requests[s.consumers[c].request].settled
      && s.consumers[c].outcome == if s.requests[s.consumers[c].request].succeeded then Resolved else Rejected
  }

  lemma NextHasResult(s: State, e: Event, c: nat)
    requires Sound(s) && Enabled(s, e) && HasResult(s, c) && e != GiveUp(c) && e != Stop
    ensures HasResult(Next(s, e), c)
    ensures c < |Next(s, e).consumers| ==>
      (Next(s, e).consumers[c].outcome != Waiting <==>
        (c < |s.consumers| && s.consumers[c].outcome != Waiting) || e == Deliver(c))
  {
    if c < |s.consumers| && s.consumers[c].outcome == Waiting { NextOutcome(s, e, c); }
  }

  lemma {:induction false} UndisturbedHaveResults(s: State, run: seq<Event>, c: nat)
    requires Sound(s) && IsRun(s, run) && HasResult(s, c) && GiveUp(c) !in run && Stop !in run
    ensures HasResult(After(s, run), c)
    ensures c < |After(s, run).consumers| ==> (After(s, run).consumers[c].outcome != Waiting <==>
      (c < |s.consumers| && s.consumers[c].outcome != Waiting) || Deliver(c) in run)
    decreases |run|
  {
    if run != [] {
      assert run == [run[0]] + run[1..];
      NextStaysSound(s, run[0]);
      NextHasResult(s, run[0], c);
      hide Sound, Next, HasResult;
      UndisturbedHaveResults(Next(s, run[0]), run[1..], c);
    }
  }

  /**
   A consumer that does not give up, in a run without a stop, ends with the result its request was
   settled with, as soon as that was delivered.
   */
  lemma UndisturbedGetTheResult(run: seq<Event>, c: nat)
    requires IsRun(IDLE, run) && c < |After(IDLE, run).consumers| && GiveUp(c) !in run && Stop !in run
    ensures var consumer := After(IDLE, run).consumers[c];
      && (consumer.outcome == Resolved <==> Deliver(c) in run && Settle(consumer.request, true) in run)
      && (consumer.outcome == Rejected <==> Deliver(c) in run && Settle(consumer.request, false) in run)
  {
    UndisturbedHaveResults(IDLE, run, c);
    var r := After(IDLE, run).consumers[c].request;
    ResultIff(IDLE, run, r, true);
    ResultIff(IDLE, run, r, false);
  }

  /** Such a run: the only consumer gives up, and another asks before the aborted work has settled. */
  lemma LateJoinerIsReachable()
    ensures var run := [Fetch("s"), GiveUp(0), Fetch("s")];
      IsRun(IDLE, run) &&
      (var s := After(IDLE, run);
       |s.requests| == 1 && s.requests[0].aborted && s.requests[0].waiting == {1})
  {
    var run := [Fetch("s"), GiveUp(0), Fetch("s")];
    var s1 := Next(IDLE, run[0]);
    var s2 := Next(s1, run[1]);
    var s3 := Next(s2, run[2]);
    assert s1.requests[0].waiting == {0} && s2.requests[0].waiting == {} && s3.requests[0].waiting == {1};
    assert run[1..] == [GiveUp(0), Fetch("s")] && run[1..][1..] == [Fetch("s")] && run[1..][1..][1..] == [];
    assert After(s3, []) == s3 && After(s2, [Fetch("s")]) == s3;
    assert After(s1, [GiveUp(0), Fetch("s")]) == s3;
  }
}
