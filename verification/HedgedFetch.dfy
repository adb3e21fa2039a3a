/**
 The Node fetcher's race between a peer and Origin (peer/src/fetcher.ts) and the traffic counters it
 shares with all other fetches (peer/src/stats.ts).

 Asynchronous code becomes steps: an attempt settles, the hedge timer fires, a caller aborts, or the
 race loop takes up one settled attempt. Any interleaving of any number of fetches is a run.
 */
module HedgedFetch {

  datatype Source = P2P | Origin

  datatype Attempt = Held | Trying | Delivered(bytes: nat) | Refused

  datatype Timer = Armed | Fired | Cancelled

  datatype Outcome = Racing | Won(source: Source, bytes: nat) | BothFailed | Stopped

  /**
   One hedged fetch. `pending` are the attempts the loop still waits for, `failures` those it saw
   fail. `aborted` says that the caller or the whole fetcher aborted.
   */
  datatype Race = Race(
    peer: Attempt, origin: Attempt, hedge: Timer,
    pending: set<Source>, failures: set<Source>, aborted: bool, outcome: Outcome)

  /** A fetch from at most one peer, then from Origin. */
  datatype Fetch =
    | Hedged(race: Race)
    | Plain(peer: Attempt, origin: Attempt, aborted: bool)

  datatype Stats = Stats(p2pRequests: nat, p2pSuccesses: nat, p2pFailures: nat, originRequests: nat, bytesP2P: nat,
    bytesOrigin: nat)

  datatype Fetcher = Fetcher(fetches: seq<Fetch>, stats: Stats)

  // ---- The race ----

  /** The attempts as they start. A signal that was aborted before cancels the hedge at once. */
  function StartRace(aborted: bool): Race {
    Race(Trying, Held, if aborted then Cancelled else Armed, {P2P, Origin}, {}, aborted, Racing)
  }

  function Cancel(t: Timer): Timer { if t == Armed then Cancelled else t }

  function Fire(t: Timer): Timer { if t == Armed then Fired else t }

  function AttemptOf(r: Race, s: Source): Attempt { if s == P2P then r.peer else r.origin }

  predicate IsSettled(a: Attempt) { a.Delivered? || a.Refused? }

  datatype Step =
    | PeerSettles(result: Attempt)
    | HedgeFires
    | OriginStarts
    | HedgeFails
    | OriginSettles(result: Attempt)
    | Abort
    | TakeUp(source: Source)

  predicate CanStep(r: Race, step: Step) {
    match step
    case PeerSettles(a) => r.peer == Trying && IsSettled(a)
    case HedgeFires => r.hedge == Armed
    case OriginStarts => r.origin == Held && r.hedge == Fired
    case HedgeFails => r.origin == Held && r.hedge == Cancelled
    case OriginSettles(a) => r.origin == Trying && IsSettled(a)
    case Abort => !r.aborted && r.outcome == Racing
    case TakeUp(s) => r.outcome == Racing && s in r.pending && IsSettled(AttemptOf(r, s))
  }

  /** The race is over: both controllers are aborted, so a hedge that has not started never will. */
  function Finish(r: Race, outcome: Outcome): Race { r.(outcome := outcome, hedge := Cancel(r.hedge)) }

  /** The body of the race loop for one settled attempt. */
  function Taken(r: Race, s: Source): Race {
    var r1 := r.(pending := r.pending - {s});
    if r.aborted then Finish(r1, Stopped)
    else if AttemptOf(r, s).Delivered? then Finish(r1, Won(s, AttemptOf(r, s).bytes))
    else
      var r2 := r1.(failures := r1.failures + {s}, hedge := if s == P2P then Fire(r1.hedge) else r1.hedge);
      if r2.pending == {} then Finish(r2, BothFailed) else r2
  }

  function StepRace(r: Race, step: Step): Race
    requires CanStep(r, step)
  {
    match step
    case PeerSettles(a) => r.(peer := a)
    case HedgeFires => r.(hedge := Fired)
    case OriginStarts => r.(origin := Trying)
    case HedgeFails => r.(origin := Refused)
    case OriginSettles(a) => r.(origin := a)
    case Abort => r.(aborted := true, hedge := Cancel(r.hedge))
    case TakeUp(s) => Taken(r, s)
  }

  /** What the code adds to the counters at a step of a race. */
  function Counted(st: Stats, r: Race, step: Step): Stats {
    match step
    case OriginStarts => st.(originRequests := st.originRequests + 1)
    case TakeUp(P2P) =>
      if r.aborted then st
      else if r.peer.Delivered? then st.(p2pSuccesses := st.p2pSuccesses + 1, bytesP2P := st.bytesP2P + r.peer.bytes)
      else st.(p2pFailures := st.p2pFailures + 1)
    case TakeUp(Origin) =>
      if !r.aborted && r.origin.Delivered? then st.(bytesOrigin := st.bytesOrigin + r.origin.bytes) else st
    case _ => st
  }

  // ---- One race ----

  /** What holds of a race whatever happened so far. */
  ghost predicate Consistent(r: Race) {
    && r.peer != Held && r.pending + r.failures <= {P2P, Origin} && r.pending !! r.failures
    && (P2P in r.failures ==> r.peer == Refused) && (Origin in r.failures ==> r.origin == Refused)
    && (r.origin.Trying? || r.origin.Delivered? ==> r.hedge == Fired)
    && (r.hedge == Armed ==> r.origin == Held)
    && (r.hedge == Cancelled ==> r.aborted || r.outcome != Racing)
    && (r.origin == Refused && r.hedge != Fired ==> r.aborted || r.outcome != Racing)
    && (P2P in r.failures && !r.aborted ==> r.hedge == Fired)
    && (match r.outcome
        case Racing => r.pending + r.failures == {P2P, Origin} && r.pending != {}
        case Won(s, bytes) => s !in r.pending && s !in r.failures && AttemptOf(r, s) == Delivered(bytes) && !r.aborted
        case BothFailed => r.failures == {P2P, Origin} && r.hedge == Fired && !r.aborted
        case Stopped => r.aborted)
  }

  lemma RaceStaysConsistent(r: Race, step: Step)
    requires Consistent(r) && CanStep(r, step)
    ensures Consistent(StepRace(r, step))
  {
    if step.TakeUp? {
      var s := step.source;
      assert s !in r.failures && {P2P, Origin} - {s} == {if s == P2P then Origin else P2P};
    }
  }

  /** Steps that can still come; every step of a race uses one up. */
  function Rank(r: Race): nat {
    (if r.peer == Trying then 1 else 0) + (if r.hedge == Armed then 1 else 0)
    + (match r.origin case Held => 2 case Trying => 1 case _ => 0)
    + (if r.aborted || r.outcome != Racing then 0 else 1)
    + (if r.outcome == Racing then |r.pending| else 0)
  }

  lemma StepsRunOut(r: Race, step: Step)
    requires Consistent(r) && CanStep(r, step)
    ensures Rank(StepRace(r, step)) < Rank(r)
  {
    if step.TakeUp? {
      assert |r.pending - {step.source}| == |r.pending| - 1;
      assert Rank(r) >= |r.pending| + (if r.hedge == Armed then 1 else 0);
    }
  }

  /**
   A race that is not over can always go on without waiting for the caller to abort, and once the
   peer has failed it need not wait for the hedge timer either.
   */
  lemma NeverStuck(r: Race)
    requires Consistent(r) && r.outcome == Racing
    ensures exists step :: CanStep(r, step) && step != Abort && (P2P in r.failures && !r.aborted ==> step != HedgeFires)
  {
    if r.peer == Trying {
      assert CanStep(r, PeerSettles(Refused));
    } else if P2P in r.pending {
      assert CanStep(r, TakeUp(P2P));
    } else if r.origin == Held {
      assert r.hedge == Armed || CanStep(r, OriginStarts) || CanStep(r, HedgeFails);
      assert r.hedge == Armed ==> CanStep(r, HedgeFires);
    } else if r.origin == Trying {
      assert CanStep(r, OriginSettles(Refused));
    } else {
      assert CanStep(r, TakeUp(Origin));
    }
  }

  /** Once decided, a race stays decided: late results neither change the winner nor count. */
  lemma DecidedOnce(st: Stats, r: Race, step: Step)
    requires r.outcome != Racing && CanStep(r, step)
    ensures StepRace(r, step).outcome == r.outcome
    ensures Counted(st, r, step) == if step == OriginStarts then st.(originRequests := st.originRequests + 1) else st
  {
  }

  // ---- All fetches of a peer, and what they count ----

  datatype Kind = HedgedFetch | PeerFirst | OriginOnly

  datatype Event =
    | Begin(kind: Kind, aborted: bool)
    | RaceSteps(id: nat, step: Step)
    | PeerEnds(id: nat, result: Attempt)
    | OriginEnds(id: nat, result: Attempt)
    | AbortPlain(id: nat)

  predicate Enabled(f: Fetcher, e: Event) {
    match e
    case Begin(kind, aborted) => true
    case RaceSteps(i, step) => i < |f.fetches| && f.fetches[i].Hedged? && CanStep(f.fetches[i].race, step)
    case PeerEnds(i, a) => i < |f.fetches| && f.fetches[i].Plain? && f.fetches[i].peer == Trying && IsSettled(a)
    case OriginEnds(i, a) => i < |f.fetches| && f.fetches[i].Plain? && f.fetches[i].origin == Trying && IsSettled(a)
    case AbortPlain(i) => i < |f.fetches| && f.fetches[i].Plain?
  }

  function Next(f: Fetcher, e: Event): Fetcher
    requires Enabled(f, e)
  {
    var st := f.stats;
    match e
    case Begin(HedgedFetch, aborted) =>
      Fetcher(f.fetches + [Hedged(StartRace(aborted))], st.(p2pRequests := st.p2pRequests + 1))
    case Begin(PeerFirst, aborted) =>
      Fetcher(f.fetches + [Plain(Trying, Held, aborted)], st.(p2pRequests := st.p2pRequests + 1))
    case Begin(OriginOnly, aborted) =>
      Fetcher(f.fetches + [Plain(Held, Trying, aborted)], st.(originRequests := st.originRequests + 1))
    case RaceSteps(i, step) =>
      var r := f.fetches[i].race;
      Fetcher(f.fetches[i := Hedged(StepRace(r, step))], Counted(st, r, step))
    case PeerEnds(i, a) =>
      var p := f.fetches[i];
      if a.Delivered? then
        Fetcher(f.fetches[i := p.(peer := a)],
          st.(p2pSuccesses := st.p2pSuccesses + 1, bytesP2P := st.bytesP2P + a.bytes))
      else if p.aborted then
        Fetcher(f.fetches[i := p.(peer := a)], st)
      else
        Fetcher(f.fetches[i := p.(peer := a, origin := Trying)],
                st.(p2pFailures := st.p2pFailures + 1, originRequests := st.originRequests + 1))
    case OriginEnds(i, a) =>
      Fetcher(f.fetches[i := f.fetches[i].(origin := a)],
        if a.Delivered? then st.(bytesOrigin := st.bytesOrigin + a.bytes) else st)
    case AbortPlain(i) => f.(fetches := f.fetches[i := f.fetches[i].(aborted := true)])
  }

  const IDLE := Fetcher([], Stats(0, 0, 0, 0, 0, 0))

  ghost predicate IsRun(f: Fetcher, run: seq<Event>)
    decreases |run|
  {
    run == [] || (Enabled(f, run[0]) && IsRun(Next(f, run[0]), run[1..]))
  }

  ghost function Outcomes(f: Fetcher, run: seq<Event>): Fetcher
    requires IsRun(f, run)
    decreases |run|
  {
    if run == [] then f else Outcomes(Next(f, run[0]), run[1..])
  }

  function Wins(f: Fetch, s: Source): bool {
    match f
    case Hedged(r) => r.outcome.Won? && r.outcome.source == s
    case Plain(peer, origin, _) => (if s == P2P then peer else origin).Delivered?
  }

  /** What a fetch obtained from a source, when that source won. */
  function Bytes(f: Fetch, s: Source): nat {
    if !Wins(f, s) then 0
    else match f
      case Hedged(r) => r.outcome.bytes
      case Plain(peer, origin, _) => if s == P2P then peer.bytes else origin.bytes
  }

  predicate AskedPeer(f: Fetch) { f.Hedged? || f.peer != Held }

  predicate PeerFailed(f: Fetch) {
    match f
    case Hedged(r) => P2P in r.failures
    case Plain(peer, origin, _) => peer == Refused && origin != Held
  }

  predicate AskedOrigin(f: Fetch) {
    match f
    case Hedged(r) => r.origin != Held && r.hedge == Fired
    case Plain(peer, origin, _) => origin != Held
  }

  function One(b: bool): nat { if b then 1 else 0 }

  /** The share of one fetch in the counters, read off its state alone. */
  function Share(f: Fetch): Stats {
    Stats(One(AskedPeer(f)), One(Wins(f, P2P)), One(PeerFailed(f)), One(AskedOrigin(f)), Bytes(f, P2P),
      Bytes(f, Origin))
  }

  function Sum(a: Stats, b: Stats): Stats {
    Stats(a.p2pRequests + b.p2pRequests, a.p2pSuccesses + b.p2pSuccesses, a.p2pFailures + b.p2pFailures,
          a.originRequests + b.originRequests, a.bytesP2P + b.bytesP2P, a.bytesOrigin + b.bytesOrigin)
  }

  function Total(fetches: seq<Fetch>): Stats {
    if fetches == [] then Stats(0, 0, 0, 0, 0, 0)
      else Sum(Total(fetches[..|fetches| - 1]), Share(fetches[|fetches| - 1]))
  }

  lemma {:induction false} TotalChanges(fetches: seq<Fetch>, i: nat, f: Fetch)
    requires i < |fetches|
    ensures Sum(Total(fetches[i := f]), Share(fetches[i])) == Sum(Total(fetches), Share(f))
  {
    hide Share;
    var n := |fetches| - 1;
    if i == n {
      assert fetches[i := f][..n] == fetches[..n];
    } else {
      TotalChanges(fetches[..n], i, f);
      assert fetches[i := f][..n] == fetches[..n][i := f];
    }
  }

  ghost predicate Fine(f: Fetch) {
    match f
    case Hedged(r) => Consistent(r)
    case Plain(peer, origin, aborted) =>
      && (peer.Trying? ==> origin == Held) && (peer.Delivered? ==> origin == Held) && (peer == Held ==> origin != Held)
      && (peer == Refused && origin == Held ==> aborted)
  }

  /** The counters are exactly what the fetches so far amount to. */
  ghost predicate Exact(f: Fetcher) { f.stats == Total(f.fetches) && forall x :: x in f.fetches ==> Fine(x) }

  lemma RaceCounts(st: Stats, r: Race, step: Step)
    requires Consistent(r) && CanStep(r, step)
    ensures Sum(Counted(st, r, step), Share(Hedged(r))) == Sum(st, Share(Hedged(StepRace(r, step))))
  {
  }

  /** A step of one plain fetch. */
  lemma PlainCounts(f: Fetcher, e: Event)
    requires (e.PeerEnds? || e.OriginEnds? || e.AbortPlain?) && Enabled(f, e) && Fine(f.fetches[e.id])
    ensures var f1 := Next(f, e);
      && |f1.fetches| == |f.fetches| && f1.fetches == f.fetches[e.id := f1.fetches[e.id]] && Fine(f1.fetches[e.id])
      && Sum(f1.stats, Share(f.fetches[e.id])) == Sum(f.stats, Share(f1.fetches[e.id]))
  {
  }

  lemma StepCounts(f: Fetcher, e: Event)
    requires !e.Begin? && Enabled(f, e) && Fine(f.fetches[e.id])
    ensures var f1 := Next(f, e);
      && |f1.fetches| == |f.fetches| && f1.fetches == f.fetches[e.id := f1.fetches[e.id]] && Fine(f1.fetches[e.id])
      && Sum(f1.stats, Share(f.fetches[e.id])) == Sum(f.stats, Share(f1.fetches[e.id]))
  {
    if e.RaceSteps? {
      RaceStaysConsistent(f.fetches[e.id].race, e.step);
      RaceCounts(f.stats, f.fetches[e.id].race, e.step);
    } else {
      PlainCounts(f, e);
    }
  }

  lemma BeginCounts(f: Fetcher, e: Event)
    requires e.Begin?
    ensures var f1 := Next(f, e);
      |f1.fetches| == |f.fetches| + 1 && f1.fetches[..|f.fetches|] == f.fetches && Fine(f1.fetches[|f.fetches|])
      && f1.stats == Sum(f.stats, Share(f1.fetches[|f.fetches|]))
  {
  }

  lemma BeginStaysExact(f: Fetcher, e: Event)
    requires Exact(f) && e.Begin?
    ensures Exact(Next(f, e))
  {
    BeginCounts(f, e);
    var f1 := Next(f, e);
    hide Share, Fine, Next, Sum;
    assert f1.fetches[..|f1.fetches| - 1] == f.fetches;
    forall x | x in f1.fetches ensures Fine(x) {
      assert x in f.fetches || x == f1.fetches[|f.fetches|];
    }
  }

  lemma ChangeStaysExact(f: Fetcher, f1: Fetcher, i: nat)
    requires Exact(f) && i < |f.fetches| == |f1.fetches|
    requires f1.fetches == f.fetches[i := f1.fetches[i]] && Fine(f1.fetches[i])
    requires Sum(f1.stats, Share(f.fetches[i])) == Sum(f.stats, Share(f1.fetches[i]))
    ensures Exact(f1)
  {
    hide Share, Fine;
    TotalChanges(f.fetches, i, f1.fetches[i]);
    SumCancels(f1.stats, Total(f1.fetches), Share(f.fetches[i]));
    hide Sum, Total;
    forall x | x in f1.fetches ensures Fine(x) {
      assert x in f.fetches || x == f1.fetches[i];
    }
  }

  lemma SumCancels(a: Stats, b: Stats, c: Stats)
    ensures Sum(a, c) == Sum(b, c) ==> a == b
  {
  }

  lemma NextStaysExact(f: Fetcher, e: Event)
    requires Exact(f) && Enabled(f, e)
    ensures Exact(Next(f, e))
  {
    if e.Begin? {
      BeginStaysExact(f, e);
    } else {
      assert e.id < |f.fetches| && f.fetches[e.id] in f.fetches;
      hide Share, Sum, Total, Next, Enabled;
      StepCounts(f, e);
      ChangeStaysExact(f, Next(f, e), e.id);
    }
  }

  lemma {:induction false} SharesAddUp(fetches: seq<Fetch>)
    requires forall x :: x in fetches ==> Fine(x)
    ensures Total(fetches).p2pSuccesses + Total(fetches).p2pFailures <= Total(fetches).p2pRequests
  {
    if fetches != [] {
      var rest, last := fetches[..|fetches| - 1], fetches[|fetches| - 1];
      assert forall x :: x in rest ==> x in fetches;
      assert last in fetches;
      OneOutcome(last);
      hide Share, Fine;
      SharesAddUp(rest);
    }
  }

  lemma OneOutcome(f: Fetch)
    requires Fine(f)
    ensures Share(f).p2pSuccesses + Share(f).p2pFailures <= Share(f).p2pRequests
  {
  }

  /**
   Over every run of every interleaving the counters equal what the fetches amount to, so bytes are
   counted once and for the winner only, no request is both a success and a failure, and the reported
   success rate is a share.
   */
  lemma {:induction false} EveryRunCountsExactly(f: Fetcher, run: seq<Event>)
    requires Exact(f) && IsRun(f, run)
    ensures Exact(Outcomes(f, run))
    ensures var st := Outcomes(f, run).stats; st.p2pSuccesses + st.p2pFailures <= st.p2pRequests
    ensures 0.0 <= SuccessRate(Outcomes(f, run).stats) <= 1.0
    decreases |run|
  {
    hide Share, Fine, Next, Enabled;
    if run == [] {
      SharesAddUp(f.fetches);
      RateInRange(f.stats);
    } else {
      NextStaysExact(f, run[0]);
      EveryRunCountsExactly(Next(f, run[0]), run[1..]);
    }
  }

  /** What any caller of any fetch in any run can rely on. */
  lemma EveryRunIsSafe(run: seq<Event>, i: nat)
    requires IsRun(IDLE, run) && i < |Outcomes(IDLE, run).fetches| && Outcomes(IDLE, run).fetches[i].Hedged?
    ensures var r := Outcomes(IDLE, run).fetches[i].race;
      && (r.outcome == BothFailed ==> r.peer == Refused && r.origin == Refused && AskedOrigin(Hedged(r)) && !r.aborted)
      && (P2P in r.failures && !r.aborted ==> r.hedge == Fired)
      && (r.outcome == Racing && !r.aborted && r.peer == Refused && P2P !in r.pending && r.origin == Held ==>
        CanStep(r, OriginStarts))
      && (r.outcome.Won? ==> AttemptOf(r, r.outcome.source) == Delivered(r.outcome.bytes) && !r.aborted)
  {
    EveryRunCountsExactly(IDLE, run);
    assert Outcomes(IDLE, run).fetches[i] in Outcomes(IDLE, run).fetches;
  }

  lemma RateInRange(st: Stats)
    requires st.p2pSuccesses <= st.p2pRequests
    ensures 0.0 <= SuccessRate(st) <= 1.0
  {
  }

  function SuccessRate(st: Stats): real {
    if st.p2pRequests == 0 then 1.0 else st.p2pSuccesses as real / st.p2pRequests as real
  }

  /** Before the first request the rate is 1; afterwards it is the share of the requests that succeeded. */
  lemma SuccessRateIsShare(st: Stats)
    ensures if st.p2pRequests == 0 then SuccessRate(st) == 1.0
      else SuccessRate(st) * st.p2pRequests as real == st.p2pSuccesses as real
  {
  }

  /** A step of a race counts exactly what it decides, and the request to Origin that it starts. */
  lemma CountsWhatIsDecided(st: Stats, r: Race, step: Step)
    requires Consistent(r) && CanStep(r, step)
    ensures var r1, st1 := StepRace(r, step), Counted(st, r, step);
      var won := if r.outcome == Racing then r1.outcome else Racing;
      && st1.p2pRequests == st.p2pRequests
      && st1.p2pSuccesses == st.p2pSuccesses + (if won.Won? && won.source == P2P then 1 else 0)
      && st1.bytesP2P == st.bytesP2P + (if won.Won? && won.source == P2P then won.bytes else 0)
      && st1.bytesOrigin == st.bytesOrigin + (if won.Won? && won.source == Origin then won.bytes else 0)
      && st1.p2pFailures == st.p2pFailures + (if P2P in r1.failures - r.failures then 1 else 0)
      && st1.originRequests == st.originRequests + (if step == OriginStarts then 1 else 0)
  {
  }

  /** A plain fetch keeps its results and turns to Origin exactly when the peer failed and nobody aborted. */
  lemma PlainFallsBack(f: Fetcher, e: Event)
    requires (e.PeerEnds? || e.OriginEnds?) && Enabled(f, e) && Fine(f.fetches[e.id])
    ensures var p, p1, st, st1 := f.fetches[e.id], Next(f, e).fetches[e.id], f.stats, Next(f, e).stats;
      var fallsBack := e.PeerEnds? && e.result.Refused? && !p.aborted;
      var bytes := if e.result.Delivered? then e.result.bytes else 0;
      && p1.Plain? && p1.aborted == p.aborted && p1.peer == (if e.PeerEnds? then e.result else p.peer)
      && p1.origin == (if e.OriginEnds? then e.result else if fallsBack then Trying else Held)
      && st1.originRequests == st.originRequests + One(fallsBack) && st1.p2pFailures == st.p2pFailures + One(fallsBack)
      && st1.p2pSuccesses == st.p2pSuccesses + One(e.PeerEnds? && e.result.Delivered?)
      && st1.bytesP2P == st.bytesP2P + (if e.PeerEnds? then bytes else 0)
      && st1.bytesOrigin == st.bytesOrigin + (if e.OriginEnds? then bytes else 0)
  {
  }

  // ---- Who wins a race ----

  ghost predicate IsRace(aborted: bool, steps: seq<Step>)
    decreases |steps|, 0
  {
    steps == [] ||
      (IsRace(aborted, steps[..|steps| - 1]) &&
       CanStep(RaceAfter(aborted, steps[..|steps| - 1]), steps[|steps| - 1]))
  }

  ghost function RaceAfter(aborted: bool, steps: seq<Step>): Race
    requires IsRace(aborted, steps)
    decreases |steps|, 1
  {
    if steps == [] then StartRace(aborted)
    else StepRace(RaceAfter(aborted, steps[..|steps| - 1]), steps[|steps| - 1])
  }

  predicate Settles(steps: seq<Step>, s: Source, a: Attempt) {
    if s == P2P then PeerSettles(a) in steps
    else OriginSettles(a) in steps || (a == Refused && HedgeFails in steps)
  }

  predicate IsAborted(aborted: bool, steps: seq<Step>) { aborted || Abort in steps }

  /** The state of a race is what happened in it. */
  ghost predicate Records(r: Race, aborted: bool, steps: seq<Step>) {
    && (r.aborted <==> IsAborted(aborted, steps))
    && (forall s :: s in r.pending <==> TakeUp(s) !in steps)
    && (forall s, a :: IsSettled(a) ==> (AttemptOf(r, s) == a <==> Settles(steps, s, a)))
  }

  lemma RecordsOneMore(r: Race, aborted: bool, steps: seq<Step>, step: Step)
    requires Consistent(r) && Records(r, aborted, steps) && CanStep(r, step)
    ensures Records(StepRace(r, step), aborted, steps + [step])
  {
    hide Consistent;
    var more := steps + [step];
    assert forall x :: x in more <==> x in steps || x == step;
    var r1 := StepRace(r, step);
    assert forall s :: AttemptOf(r1, s) == match step
      case PeerSettles(a) => if s == P2P then a else r.origin
      case OriginSettles(a) => if s == Origin then a else r.peer
      case OriginStarts => if s == Origin then Trying else r.peer
      case HedgeFails => if s == Origin then Refused else r.peer
      case _ => AttemptOf(r, s);
    forall s, a | IsSettled(a) ensures AttemptOf(r1, s) == a <==> Settles(more, s, a) {
      assert AttemptOf(r, s) == a <==> Settles(steps, s, a);
    }
  }

  lemma {:induction false} RaceRecords(aborted: bool, steps: seq<Step>)
    requires IsRace(aborted, steps)
    ensures Consistent(RaceAfter(aborted, steps)) && Records(RaceAfter(aborted, steps), aborted, steps)
  {
    if steps == [] {
      forall s: Source ensures s in StartRace(aborted).pending { assert s == P2P || s == Origin; }
    } else {
      var rest, step := steps[..|steps| - 1], steps[|steps| - 1];
      RaceRecords(aborted, rest);
      hide Consistent, Records, StepRace;
      RaceStaysConsistent(RaceAfter(aborted, rest), step);
      RecordsOneMore(RaceAfter(aborted, rest), aborted, rest, step);
      assert steps == rest + [step];
    }
  }

  /** At step `k` the race loop takes up an attempt that delivered, before anything was aborted. */
  predicate WinsAt(aborted: bool, steps: seq<Step>, s: Source, bytes: nat, k: nat) {
    k < |steps| && steps[k] == TakeUp(s) && Settles(steps[..k], s, Delivered(bytes)) && !IsAborted(aborted, steps[..k])
  }

  /** At step `k` it takes up the second of two attempts that failed. */
  predicate FailsAt(aborted: bool, steps: seq<Step>, k: nat) {
    && k < |steps| && steps[k] in {TakeUp(P2P), TakeUp(Origin)} && !IsAborted(aborted, steps[..k])
    && TakeUp(if steps[k].source == P2P then Origin else P2P) in steps[..k]
    && Settles(steps[..k], P2P, Refused) && Settles(steps[..k], Origin, Refused)
  }

  /** At step `k` it takes up an attempt after an abort. */
  predicate StopsAt(aborted: bool, steps: seq<Step>, k: nat) {
    k < |steps| && steps[k].TakeUp? && IsAborted(aborted, steps[..k])
  }

  predicate EndsAt(aborted: bool, steps: seq<Step>, o: Outcome, k: nat) {
    match o
    case Won(s, bytes) => WinsAt(aborted, steps, s, bytes, k)
    case BothFailed => FailsAt(aborted, steps, k)
    case Stopped => StopsAt(aborted, steps, k)
    case Racing => false
  }

  /** What one more step decides. */
  lemma DecidesNow(r: Race, aborted: bool, steps: seq<Step>, step: Step, o: Outcome)
    requires Consistent(r) && Records(r, aborted, steps) && CanStep(r, step) && r.outcome == Racing && o != Racing
    ensures StepRace(r, step).outcome == o <==> EndsAt(aborted, steps + [step], o, |steps|)
  {
    assert (steps + [step])[..|steps|] == steps;
    assert forall s, a :: IsSettled(a) ==> (AttemptOf(r, s) == a <==> Settles(steps, s, a));
  }

  /**
   Over every interleaving: a source wins exactly if its bytes are what the loop takes up before any
   abort, the fetch fails exactly if both attempts were taken up as failed, and it stops exactly if
   something is taken up after an abort; so at most one of these ever happens.
   */
  lemma {:induction false} RaceEndsIff(aborted: bool, steps: seq<Step>, o: Outcome)
    requires IsRace(aborted, steps) && o != Racing
    ensures RaceAfter(aborted, steps).outcome == o <==> exists k: nat :: EndsAt(aborted, steps, o, k)
  {
    if steps == [] { return; }
    var rest, step := steps[..|steps| - 1], steps[|steps| - 1];
    var r := RaceAfter(aborted, rest);
    RaceRecords(aborted, rest);
    RaceEndsIff(aborted, rest, o);
    assert steps == rest + [step];
    hide Consistent, Records, StepRace, EndsAt, CanStep;
    forall k: nat | k < |rest| ensures EndsAt(aborted, steps, o, k) <==> EndsAt(aborted, rest, o, k) {
      EndsAsBefore(aborted, rest, step, o, k);
    }
    if r.outcome == Racing {
      DecidesNow(r, aborted, rest, step, o);
    } else {
      StaysDecided(r, aborted, rest, step, o);
    }
  }

  lemma EndsAsBefore(aborted: bool, steps: seq<Step>, step: Step, o: Outcome, k: nat)
    requires k < |steps|
    ensures EndsAt(aborted, steps + [step], o, k) <==> EndsAt(aborted, steps, o, k)
  {
    assert (steps + [step])[..k] == steps[..k];
  }

  lemma StaysDecided(r: Race, aborted: bool, steps: seq<Step>, step: Step, o: Outcome)
    requires r.outcome != Racing && CanStep(r, step)
    ensures StepRace(r, step).outcome == r.outcome && !EndsAt(aborted, steps + [step], o, |steps|)
  {
  }
}
