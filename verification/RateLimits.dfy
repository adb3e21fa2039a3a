/**
 The repository's token buckets: segment inventory reports (tracker/src/inventory-limits.ts), REST
 requests (tracker/src/server.ts), WebSocket messages (tracker/src/websocket.ts) and upload bytes
 (peer/src/bandwidth-limiter.ts, peer/src/uploader.ts).

 Times are milliseconds on a clock that does not go back; tokens are reals.
 */
module RateLimits {
  import opened ByteStrings
  import opened Wrappers

  datatype Bucket = Bucket(tokens: real, updatedAt: real)

  /** Tokens per second, and how many the bucket holds. */
  datatype Limit = Limit(perSecond: real, burst: real)

  ghost predicate LimitOk(l: Limit) { l.perSecond > 0.0 && l.burst >= 0.0 }

  function Least(a: real, b: real): real { if a < b then a else b }

  function Earned(l: Limit, ms: real): real { ms / 1000.0 * l.perSecond }

  function Refilled(l: Limit, b: Bucket, now: real): Bucket {
    Bucket(Least(l.burst, b.tokens + Earned(l, if now > b.updatedAt then now - b.updatedAt else 0.0)), now)
  }

  datatype Attempt = Attempt(now: real, cost: real)

  predicate Admits(l: Limit, b: Bucket, a: Attempt) { a.cost <= Refilled(l, b, a.now).tokens }

  /** A refused attempt costs nothing. */
  function Charged(l: Limit, b: Bucket, a: Attempt): Bucket {
    var r := Refilled(l, b, a.now);
    if Admits(l, b, a) then r.(tokens := r.tokens - a.cost) else r
  }

  // ---- Every run stays under the rate ----

  ghost predicate InOrder(start: real, run: seq<Attempt>) {
    && (forall i :: 0 <= i < |run| ==> start <= run[i].now && run[i].cost >= 0.0)
    && (forall i, j :: 0 <= i < j < |run| ==> run[i].now <= run[j].now)
  }

  function After(l: Limit, b: Bucket, run: seq<Attempt>): Bucket {
    if run == [] then b else Charged(l, After(l, b, run[..|run| - 1]), run[|run| - 1])
  }

  /** What a run of attempts was granted in all. */
  function Granted(l: Limit, b: Bucket, run: seq<Attempt>): real {
    if run == [] then 0.0
    else
      var rest, last := run[..|run| - 1], run[|run| - 1];
      Granted(l, b, rest) + (if Admits(l, After(l, b, rest), last) then last.cost else 0.0)
  }

  lemma EarnedAdds(l: Limit, a: real, b: real)
    ensures Earned(l, a) + Earned(l, b) == Earned(l, a + b)
  {
  }

  lemma EarnedGrows(l: Limit, a: real, b: real)
    requires LimitOk(l) && a <= b
    ensures Earned(l, a) <= Earned(l, b)
  {
    assert (b - a) / 1000.0 * l.perSecond >= 0.0;
    EarnedAdds(l, a, b - a);
  }

  lemma EarnedRises(l: Limit, a: real, b: real)
    requires LimitOk(l) && a < b
    ensures Earned(l, a) < Earned(l, b)
  {
    assert (b - a) / 1000.0 * l.perSecond > 0.0;
    EarnedAdds(l, a, b - a);
  }

  lemma ChargedWasEarned(l: Limit, b: Bucket, a: Attempt)
    requires LimitOk(l) && 0.0 <= b.tokens <= l.burst && b.updatedAt <= a.now && a.cost >= 0.0
    ensures Charged(l, b, a).updatedAt == a.now && 0.0 <= Charged(l, b, a).tokens <= l.burst
    ensures var granted := if Admits(l, b, a) then a.cost else 0.0;
      granted + Charged(l, b, a).tokens <= b.tokens + Earned(l, a.now - b.updatedAt)
  {
    EarnedGrows(l, 0.0, a.now - b.updatedAt);
  }

  /** Whatever was granted was in the bucket or was earned since. */
  lemma {:induction false} GrantedWasEarned(l: Limit, b: Bucket, run: seq<Attempt>)
    requires LimitOk(l) && 0.0 <= b.tokens <= l.burst && InOrder(b.updatedAt, run)
    ensures var end := if run == [] then b.updatedAt else run[|run| - 1].now;
      && After(l, b, run).updatedAt == end && 0.0 <= After(l, b, run).tokens <= l.burst
      && Granted(l, b, run) + After(l, b, run).tokens <= b.tokens + Earned(l, end - b.updatedAt)
  {
    if run != [] {
      var rest, last := run[..|run| - 1], run[|run| - 1];
      GrantedWasEarned(l, b, rest);
      var b1 := After(l, b, rest);
      assert b1.updatedAt <= last.now && last.cost >= 0.0;
      hide Earned, Charged, Admits, InOrder;
      EarnedAdds(l, b1.updatedAt - b.updatedAt, last.now - b1.updatedAt);
      ChargedWasEarned(l, b1, last);
    }
  }

  lemma Parts(start: real, before: seq<Attempt>, run: seq<Attempt>)
    requires InOrder(start, before + run) && run != []
    ensures InOrder(start, before) && InOrder(run[0].now, run) && start <= run[0].now
    ensures before != [] ==> before[|before| - 1].now <= run[0].now
  {
    assert forall i :: 0 <= i < |before| ==> before[i] == (before + run)[i];
    assert forall i :: 0 <= i < |run| ==> run[i] == (before + run)[|before| + i];
  }

  lemma RefilledInRange(l: Limit, b: Bucket, now: real)
    requires LimitOk(l) && 0.0 <= b.tokens <= l.burst && b.updatedAt <= now
    ensures 0.0 <= Refilled(l, b, now).tokens <= l.burst && Refilled(l, b, now).updatedAt == now
  {
    EarnedGrows(l, 0.0, now - b.updatedAt);
    assert Earned(l, 0.0) == 0.0;
    hide Earned;
  }

  lemma BoundedFromNow(l: Limit, b: Bucket, run: seq<Attempt>)
    requires LimitOk(l) && 0.0 <= b.tokens <= l.burst && run != [] && b.updatedAt <= run[0].now
    requires InOrder(run[0].now, run)
    ensures Granted(l, b, run) <= l.burst + Earned(l, run[|run| - 1].now - run[0].now)
  {
    hide Earned, InOrder, After, Granted, Refilled, Admits, Charged;
    RefilledInRange(l, b, run[0].now);
    RefillFirst(l, b, run);
    GrantedWasEarned(l, Refilled(l, b, run[0].now), run);
  }

  /** Over any interval of any run, at most the burst plus the rate times its length. */
  lemma AnyIntervalIsBounded(l: Limit, b: Bucket, before: seq<Attempt>, run: seq<Attempt>)
    requires LimitOk(l) && 0.0 <= b.tokens <= l.burst && InOrder(b.updatedAt, before + run) && run != []
    ensures Granted(l, After(l, b, before), run) <= l.burst + (run[|run| - 1].now - run[0].now) / 1000.0 * l.perSecond
  {
    hide InOrder, After, Granted;
    Parts(b.updatedAt, before, run);
    GrantedWasEarned(l, b, before);
    BoundedFromNow(l, After(l, b, before), run);
  }

  /** Topping a bucket up when the first attempt arrives changes nothing. */
  lemma {:induction false} RefillFirst(l: Limit, b: Bucket, run: seq<Attempt>)
    requires run != [] && b.updatedAt <= run[0].now
    ensures After(l, b, run) == After(l, Refilled(l, b, run[0].now), run)
    ensures Granted(l, b, run) == Granted(l, Refilled(l, b, run[0].now), run)
  {
    var rest := run[..|run| - 1];
    if rest == [] {
      assert Earned(l, 0.0) == 0.0;
      assert After(l, b, rest) == b;
    } else {
      RefillFirst(l, b, rest);
    }
  }

  // ---- Forgetting idle buckets ----

  lemma IdleIsFull(l: Limit, idleMs: real, b: Bucket, now: real)
    requires LimitOk(l) && 0.0 <= idleMs <= now - b.updatedAt && 0.0 <= b.tokens && Earned(l, idleMs) >= l.burst
    ensures Refilled(l, b, now).tokens == l.burst
  {
    EarnedGrows(l, idleMs, now - b.updatedAt);
  }

  /** An attempt on a bucket that was forgotten, so on a new one, has the same outcome as on the bucket itself. */
  predicate ForgottenAlike(l: Limit, b: Bucket, a: Attempt) {
    Admits(l, b, a) == Admits(l, Bucket(l.burst, a.now), a) && Charged(l, b, a) == Charged(l, Bucket(l.burst, a.now), a)
  }

  /** Forgetting idle buckets changes no answer exactly when the idle time refills any bucket. */
  lemma ForgettingIsSafeIff(l: Limit, idleMs: real)
    requires LimitOk(l) && idleMs >= 0.0
    ensures (forall b: Bucket, a: Attempt :: 0.0 <= b.tokens <= l.burst && a.now - b.updatedAt >= idleMs ==>
      ForgottenAlike(l, b, a))
      <==> Earned(l, idleMs) >= l.burst
  {
    assert Earned(l, 0.0) == 0.0;
    if Earned(l, idleMs) >= l.burst {
      forall b: Bucket, a: Attempt | 0.0 <= b.tokens <= l.burst && a.now - b.updatedAt >= idleMs
        ensures ForgottenAlike(l, b, a)
      {
        IdleIsFull(l, idleMs, b, a.now);
      }
    } else {
      var b, a := Bucket(0.0, 0.0), Attempt(idleMs, l.burst);
      assert Admits(l, Bucket(l.burst, a.now), a) && !Admits(l, b, a);
      assert !ForgottenAlike(l, b, a);
    }
  }

  /** Which attempts of a run are granted. */
  function Answers(l: Limit, b: Bucket, run: seq<Attempt>): seq<bool> {
    if run == [] then []
    else
      var rest, last := run[..|run| - 1], run[|run| - 1];
      Answers(l, b, rest) + [Admits(l, After(l, b, rest), last)]
  }

  /** Characters and requests are counted in whole numbers. */
  ghost predicate WholeCosts(run: seq<Attempt>) {
    forall i :: 0 <= i < |run| ==> run[i].cost.Floor as real == run[i].cost
  }

  /** Whenever a bucket has been idle, forgetting it changes no answer to any later run of calls. */
  ghost predicate ForgettingChangesNoAnswer(l: Limit, idleMs: real) {
    forall b: Bucket, run: seq<Attempt> ::
      0.0 <= b.tokens <= l.burst && run != [] && InOrder(b.updatedAt + idleMs, run) && WholeCosts(run) ==>
        Answers(l, b, run) == Answers(l, Bucket(l.burst, run[0].now), run)
  }

  lemma {:induction false} SameAnswers(l: Limit, b: Bucket, c: Bucket, run: seq<Attempt>)
    requires run != [] && Refilled(l, b, run[0].now) == Refilled(l, c, run[0].now)
    ensures Answers(l, b, run) == Answers(l, c, run) && After(l, b, run) == After(l, c, run)
  {
    var rest := run[..|run| - 1];
    hide Refilled;
    if rest == [] {
      assert After(l, b, rest) == b && After(l, c, rest) == c;
      assert Answers(l, b, rest) == [] == Answers(l, c, rest);
    } else {
      SameAnswers(l, b, c, rest);
    }
  }

  /** A bucket that never holds one token grants only what costs nothing. */
  lemma {:induction false} OnlyFreeOnes(l: Limit, b: Bucket, run: seq<Attempt>)
    requires LimitOk(l) && l.burst < 1.0 && 0.0 <= b.tokens <= l.burst && InOrder(b.updatedAt, run) && WholeCosts(run)
    ensures Answers(l, b, run) == seq(|run|, i requires 0 <= i < |run| => run[i].cost == 0.0)
  {
    if run != [] {
      var rest, last := run[..|run| - 1], run[|run| - 1];
      assert InOrder(b.updatedAt, rest) && WholeCosts(rest);
      OnlyFreeOnes(l, b, rest);
      GrantedWasEarned(l, b, rest);
      var b1 := After(l, b, rest);
      assert b1.updatedAt <= last.now && last.cost >= 0.0 && last.cost.Floor as real == last.cost;
      RefilledInRange(l, b1, last.now);
      assert Admits(l, b1, last) <==> last.cost == 0.0;
    }
  }

  lemma TimeToEarn(l: Limit, tokens: real) returns (ms: real)
    requires LimitOk(l) && tokens >= 0.0
    ensures ms >= 0.0 && Earned(l, ms) == tokens
  {
    ms := tokens / l.perSecond * 1000.0;
  }

  /** A bucket empty at time 0 that has not refilled in the idle time: one or two calls tell it from a new one. */
  lemma ForgettingShows(l: Limit, idleMs: real) returns (run: seq<Attempt>)
    requires LimitOk(l) && idleMs >= 0.0 && Earned(l, idleMs) < l.burst && l.burst >= 1.0
    ensures run != [] && InOrder(idleMs, run) && WholeCosts(run)
    ensures Answers(l, Bucket(0.0, 0.0), run) != Answers(l, Bucket(l.burst, run[0].now), run)
  {
    var whole := l.burst.Floor as real;
    var first := Attempt(idleMs, whole);
    var kept, forgotten := Bucket(0.0, 0.0), Bucket(l.burst, idleMs);
    EarnedGrows(l, 0.0, idleMs);
    assert Earned(l, 0.0) == 0.0;
    assert whole.Floor as real == whole && whole >= 1.0;
    if whole > Earned(l, idleMs) {
      run := [first];
      OneAnswer(l, kept, first);
      OneAnswer(l, forgotten, first);
    } else {
      var wait := TimeToEarn(l, 1.0 - (l.burst - whole));
      var second := Attempt(idleMs + wait, 1.0);
      run := [first, second];
      assert Charged(l, kept, first) == Bucket(Earned(l, idleMs) - whole, idleMs);
      assert Charged(l, forgotten, first) == Bucket(l.burst - whole, idleMs);
      hide Earned;
      TwoAnswers(l, kept, first, second);
      TwoAnswers(l, forgotten, first, second);
    }
  }

  lemma OneAnswer(l: Limit, b: Bucket, a: Attempt)
    ensures Answers(l, b, [a]) == [Admits(l, b, a)] && After(l, b, [a]) == Charged(l, b, a)
  {
    assert [a][..0] == [];
    assert Answers(l, b, []) == [] && After(l, b, []) == b;
  }

  lemma TwoAnswers(l: Limit, b: Bucket, a: Attempt, c: Attempt)
    ensures Answers(l, b, [a, c]) == [Admits(l, b, a), Admits(l, Charged(l, b, a), c)]
  {
    OneAnswer(l, b, a);
    assert [a, c][..1] == [a];
  }

  /**
   Of calls with whole costs, none gets another answer exactly when the idle time refills any bucket, or no
   bucket ever holds one token.
   */
  lemma ForgettingChangesNoAnswerIff(l: Limit, idleMs: real)
    requires LimitOk(l) && idleMs >= 0.0
    ensures ForgettingChangesNoAnswer(l, idleMs) <==> Earned(l, idleMs) >= l.burst || l.burst < 1.0
  {
    if Earned(l, idleMs) >= l.burst || l.burst < 1.0 {
      forall b: Bucket, run: seq<Attempt>
        | 0.0 <= b.tokens <= l.burst && run != [] && InOrder(b.updatedAt + idleMs, run) && WholeCosts(run)
        ensures Answers(l, b, run) == Answers(l, Bucket(l.burst, run[0].now), run)
      {
        ForgettingHides(l, idleMs, b, run);
      }
    } else {
      var run := ForgettingShows(l, idleMs);
      assert InOrder(Bucket(0.0, 0.0).updatedAt + idleMs, run);
    }
  }

  lemma ForgettingHides(l: Limit, idleMs: real, b: Bucket, run: seq<Attempt>)
    requires LimitOk(l) && idleMs >= 0.0 && (Earned(l, idleMs) >= l.burst || l.burst < 1.0)
    requires 0.0 <= b.tokens <= l.burst && run != [] && InOrder(b.updatedAt + idleMs, run) && WholeCosts(run)
    ensures Answers(l, b, run) == Answers(l, Bucket(l.burst, run[0].now), run)
  {
    var c := Bucket(l.burst, run[0].now);
    if Earned(l, idleMs) >= l.burst {
      IdleIsFull(l, idleMs, b, run[0].now);
      assert Earned(l, 0.0) == 0.0;
      SameAnswers(l, b, c, run);
    } else {
      assert InOrder(b.updatedAt, run) && InOrder(c.updatedAt, run);
      hide Earned, InOrder, Answers;
      OnlyFreeOnes(l, b, run);
      OnlyFreeOnes(l, c, run);
    }
  }

  /** A limiter that keeps every bucket. */
  function Kept(l: Limit, all: map<string, Bucket>, key: string, now: real): Bucket {
    if key in all then all[key] else Bucket(l.burst, now)
  }

  /** The buckets left after forgetting full ones stand for all of them. */
  ghost predicate StandFor(l: Limit, buckets: map<string, Bucket>, all: map<string, Bucket>, now: real) {
    && buckets.Keys <= all.Keys
    && (forall k :: k in all ==> 0.0 <= all[k].tokens <= l.burst && all[k].updatedAt <= now)
    && (forall k :: k in all ==>
      if k in buckets then buckets[k] == all[k] else Refilled(l, all[k], now).tokens == l.burst)
  }

  lemma StandForLater(l: Limit, buckets: map<string, Bucket>, all: map<string, Bucket>, now: real, later: real)
    requires LimitOk(l) && StandFor(l, buckets, all, now) && now <= later
    ensures StandFor(l, buckets, all, later)
  {
    forall k | k in all && k !in buckets ensures Refilled(l, all[k], later).tokens == l.burst {
      EarnedGrows(l, now - all[k].updatedAt, later - all[k].updatedAt);
    }
  }

  /** Buckets that are full by now may go. */
  lemma StandForFewer(l: Limit, buckets: map<string, Bucket>, all: map<string, Bucket>, now: real, gone: set<string>)
    requires StandFor(l, buckets, all, now)
    requires forall k :: k in gone && k in buckets ==> Refilled(l, buckets[k], now).tokens == l.burst
    ensures StandFor(l, buckets - gone, all, now)
  {
  }

  lemma StandForCharged(l: Limit, buckets: map<string, Bucket>, all: map<string, Bucket>, key: string, a: Attempt)
    requires LimitOk(l) && StandFor(l, buckets, all, a.now) && a.cost >= 0.0
    ensures var b, r := Kept(l, buckets, key, a.now), Kept(l, all, key, a.now);
      && Admits(l, b, a) == Admits(l, r, a) && Charged(l, b, a) == Charged(l, r, a)
      && StandFor(l, buckets[key := Charged(l, b, a)], all[key := Charged(l, r, a)], a.now)
  {
    var r := Kept(l, all, key, a.now);
    EarnedGrows(l, 0.0, a.now - r.updatedAt);
    assert Earned(l, 0.0) == 0.0;
  }

  const INVENTORY_LIMIT := Limit(16384.0, 262144.0)
  const IDLE_BUCKET_MS := 16000.0
  const SWEEP_EVERY_CONSUMES := 1024

  /** The defaults fit together: an idle inventory bucket is full again. */
  lemma IdleRefillsInventory()
    ensures LimitOk(INVENTORY_LIMIT) && Earned(INVENTORY_LIMIT, IDLE_BUCKET_MS) >= INVENTORY_LIMIT.burst
  {
  }

  /** Whether forgetting idle buckets changes no answer under this limit. */
  predicate Refills(l: Limit) { l.perSecond > 0.0 && l.burst >= 0.0 && Earned(l, IDLE_BUCKET_MS) >= l.burst }

  datatype Call = Call(key: string, attempt: Attempt)

  datatype Limiter = Limiter(buckets: map<string, Bucket>, consumesSinceSweep: nat)

  const NO_BUCKETS := Limiter(map[], 0)

  /** Every 1024th call forgets the idle buckets first. */
  function Swept(s: Limiter, now: real): Limiter {
    if s.consumesSinceSweep + 1 < SWEEP_EVERY_CONSUMES then s.(consumesSinceSweep := s.consumesSinceSweep + 1)
    else Limiter(map k | k in s.buckets && !(now - s.buckets[k].updatedAt >= IDLE_BUCKET_MS) :: s.buckets[k], 0)
  }

  function ChargedIn(l: Limit, buckets: map<string, Bucket>, call: Call): map<string, Bucket> {
    buckets[call.key := Charged(l, Kept(l, buckets, call.key, call.attempt.now), call.attempt)]
  }

  predicate Grants(l: Limit, buckets: map<string, Bucket>, call: Call) {
    Admits(l, Kept(l, buckets, call.key, call.attempt.now), call.attempt)
  }

  function Consumed(l: Limit, s: Limiter, call: Call): Limiter {
    var s1 := Swept(s, call.attempt.now);
    s1.(buckets := ChargedIn(l, s1.buckets, call))
  }

  /** Characters that peers report as segment ids, per broadcast peer. Any limit is accepted. */
  class InventoryRateLimiter {
    const limit: Limit
    var buckets: map<string, Bucket>
    var consumesSinceSweep: nat
    /** The buckets had none ever been forgotten, and the time of the last call. */
    ghost var all: map<string, Bucket>
    ghost var last: real

    ghost function State(): Limiter
      reads this
    {
      Limiter(buckets, consumesSinceSweep)
    }

    ghost predicate Valid()
      reads this
    {
      consumesSinceSweep < SWEEP_EVERY_CONSUMES && (Refills(limit) ==> StandFor(limit, buckets, all, last))
    }

    constructor (limit: Limit)
      ensures Valid() && State() == NO_BUCKETS && all == map[] && last == 0.0 && this.limit == limit
    {
      this.limit := limit;
      buckets, consumesSinceSweep, all, last := map[], 0, map[], 0.0;
    }

    /** While idle buckets refill, the answer, and all later ones, are those of a limiter that never forgets. */
    method Consume(key: string, segments: seq<string>, now: real) returns (ok: bool)
      requires Valid() && last <= now
      modifies this
      ensures Valid() && last == now
      ensures var call := Call(key, Attempt(now, Characters(segments) as real));
        && ok == Grants(limit, Swept(old(State()), now).buckets, call) && State() == Consumed(limit, old(State()), call)
        && all == ChargedIn(limit, old(all), call) && (Refills(limit) ==> ok == Grants(limit, old(all), call))
    {
      var characters := Count(segments);
      var attempt := Attempt(now, characters as real);
      hide Earned, StandFor, Refilled, Characters, Charged, Admits;
      if Refills(limit) { SweptStandsFor(limit, State(), all, last, now); }
      Sweep(now);
      if Refills(limit) { StandForCharged(limit, buckets, all, key, attempt); }
      all, last := ChargedIn(limit, all, Call(key, attempt)), now;
      ok := Charge(key, attempt);
    }

    method Count(segments: seq<string>) returns (characters: nat)
      ensures characters == Characters(segments)
    {
      characters := 0;
      for i := 0 to |segments|
        invariant characters == Characters(segments[..i])
      {
        assert segments[..i + 1][..i] == segments[..i];
        characters := characters + |segments[i]|;
      }
      assert segments[..|segments|] == segments;
    }

    /** Tops the bucket up and takes the cost if it is there. */
    method Charge(key: string, attempt: Attempt) returns (ok: bool)
      modifies this`buckets
      ensures ok == Grants(limit, old(buckets), Call(key, attempt))
      ensures buckets == ChargedIn(limit, old(buckets), Call(key, attempt))
    {
      var bucket := Refilled(limit, Kept(limit, buckets, key, attempt.now), attempt.now);
      ok := !(attempt.cost > bucket.tokens);
      if ok { bucket := bucket.(tokens := bucket.tokens - attempt.cost); }
      buckets := buckets[key := bucket];
    }

    method Sweep(now: real)
      requires consumesSinceSweep < SWEEP_EVERY_CONSUMES
      modifies this`buckets, this`consumesSinceSweep
      ensures State() == Swept(old(State()), now) && consumesSinceSweep < SWEEP_EVERY_CONSUMES
    {
      consumesSinceSweep := consumesSinceSweep + 1;
      if consumesSinceSweep < SWEEP_EVERY_CONSUMES { return; }
      consumesSinceSweep := 0;
      var idle := set k | k in buckets && now - buckets[k].updatedAt >= IDLE_BUCKET_MS;
      buckets := buckets - idle;
    }
  }

  /** A sweep leaves buckets that stand for all of them, if the idle time refills. */
  lemma SweptStandsFor(l: Limit, s: Limiter, all: map<string, Bucket>, last: real, now: real)
    requires Refills(l) && StandFor(l, s.buckets, all, last) && last <= now
    ensures StandFor(l, Swept(s, now).buckets, all, now)
  {
    StandForLater(l, s.buckets, all, last, now);
    var idle := set k | k in s.buckets && now - s.buckets[k].updatedAt >= IDLE_BUCKET_MS;
    forall k | k in idle ensures Refilled(l, s.buckets[k], now).tokens == l.burst {
      assert s.buckets[k] == all[k] && 0.0 <= all[k].tokens <= l.burst;
      IdleIsFull(l, IDLE_BUCKET_MS, s.buckets[k], now);
    }
    StandForFewer(l, s.buckets, all, now, idle);
    assert Swept(s, now).buckets == if s.consumesSinceSweep + 1 < SWEEP_EVERY_CONSUMES then s.buckets
      else s.buckets - idle;
  }

  // ---- A limit too slow for the idle time ----

  function AfterCalls(l: Limit, s: Limiter, calls: seq<Call>): Limiter {
    if calls == [] then s else Consumed(l, AfterCalls(l, s, calls[..|calls| - 1]), calls[|calls| - 1])
  }

  function AllAfter(l: Limit, all: map<string, Bucket>, calls: seq<Call>): map<string, Bucket> {
    if calls == [] then all else ChargedIn(l, AllAfter(l, all, calls[..|calls| - 1]), calls[|calls| - 1])
  }

  /** One character a second, up to a hundred. */
  const SLOW := Limit(1.0, 100.0)

  /** "a" spends everything at once, then "b" reports nothing, again and again. */
  function SlowCalls(n: nat): seq<Call> {
    if n == 0 then [Call("a", Attempt(0.0, 100.0))] else SlowCalls(n - 1) + [Call("b", Attempt(0.0, 0.0))]
  }

  /** After `n` calls without a sweep: "a" has spent everything. */
  predicate Spent(s: Limiter, all: map<string, Bucket>, n: nat) {
    && s.consumesSinceSweep == n && s.buckets == all
    && "a" in all && all["a"] == Bucket(0.0, 0.0) && ("b" in all ==> all["b"] == Bucket(100.0, 0.0))
  }

  lemma SlowCharges()
    ensures Charged(SLOW, Bucket(100.0, 0.0), Attempt(0.0, 100.0)) == Bucket(0.0, 0.0)
    ensures Charged(SLOW, Bucket(100.0, 0.0), Attempt(0.0, 0.0)) == Bucket(100.0, 0.0)
    ensures Admits(SLOW, Bucket(100.0, IDLE_BUCKET_MS), Attempt(IDLE_BUCKET_MS, 100.0))
    ensures !Admits(SLOW, Bucket(0.0, 0.0), Attempt(IDLE_BUCKET_MS, 100.0)) && !Refills(SLOW)
  {
    assert Earned(SLOW, 0.0) == 0.0 && Earned(SLOW, IDLE_BUCKET_MS) == 16.0;
    hide Earned;
  }

  lemma SpentAtOnce()
    ensures var call := Call("a", Attempt(0.0, 100.0));
      Spent(Consumed(SLOW, NO_BUCKETS, call), ChargedIn(SLOW, map[], call), 1)
  {
    SlowCharges();
    hide Charged, Admits, Refills;
  }

  lemma StillSpent(s: Limiter, all: map<string, Bucket>, n: nat)
    requires Spent(s, all, n) && n + 1 < SWEEP_EVERY_CONSUMES
    ensures var call := Call("b", Attempt(0.0, 0.0)); Spent(Consumed(SLOW, s, call), ChargedIn(SLOW, all, call), n + 1)
  {
    SlowCharges();
    hide Charged, Admits, Refills;
  }

  lemma {:induction false} SlowBuckets(n: nat)
    requires n < SWEEP_EVERY_CONSUMES - 1
    ensures Spent(AfterCalls(SLOW, NO_BUCKETS, SlowCalls(n)), AllAfter(SLOW, map[], SlowCalls(n)), n + 1)
  {
    var calls := SlowCalls(n);
    hide Spent, Consumed, ChargedIn;
    if n == 0 {
      assert calls[..0] == [];
      SpentAtOnce();
    } else {
      assert calls[..|calls| - 1] == SlowCalls(n - 1);
      SlowBuckets(n - 1);
      StillSpent(AfterCalls(SLOW, NO_BUCKETS, SlowCalls(n - 1)), AllAfter(SLOW, map[], SlowCalls(n - 1)), n);
    }
  }

  /**
   Under such a limit the sweep changes an answer: after 16 seconds "a" has earned 16 characters and is
   refused 100, unless its bucket was forgotten, which the 1024th call does.
   */
  lemma SweepChangesAnAnswer(n: nat)
    requires n + 2 == SWEEP_EVERY_CONSUMES
    ensures var calls, last := SlowCalls(n), Call("a", Attempt(IDLE_BUCKET_MS, 100.0));
      && !Refills(SLOW)
      && Grants(SLOW, Swept(AfterCalls(SLOW, NO_BUCKETS, calls), last.attempt.now).buckets, last)
      && !Grants(SLOW, AllAfter(SLOW, map[], calls), last)
  {
    SlowCharges();
    hide SlowCalls, AfterCalls, AllAfter, Admits, Refills;
    SlowBuckets(n);
  }

  function Characters(segments: seq<string>): nat {
    if segments == [] then 0 else Characters(segments[..|segments| - 1]) + |segments[|segments| - 1]|
  }

  /** REST requests by client address; a refusal says how many seconds to wait. */
  class IpRateLimiter {
    const limit: Limit
    var buckets: map<string, Bucket>
    var operations: nat
    ghost var all: map<string, Bucket>
    ghost var last: real

    ghost predicate Valid()
      reads this
    {
      LimitOk(limit) && StandFor(limit, buckets, all, last)
    }

    constructor (limit: Limit)
      requires LimitOk(limit)
      ensures Valid() && all == map[] && last == 0.0 && this.limit == limit
    {
      this.limit := limit;
      buckets, operations, all, last := map[], 0, map[], 0.0;
    }

    method Consume(clientIp: string, now: real) returns (retryAfter: Option<int>)
      requires Valid() && last <= now
      modifies this
      ensures Valid() && last == now
      ensures var b, a := Kept(limit, old(all), clientIp, now), Attempt(now, 1.0);
        && all == old(all)[clientIp := Charged(limit, b, a)]
        && (retryAfter.None? <==> Admits(limit, b, a))
        && (retryAfter.Some? ==> retryAfter.value == RetryAfter(limit, Charged(limit, b, a)))
    {
      operations := operations + 1;
      hide Earned, StandFor, RetryAfter, Refilled, Charged, Admits;
      StandForLater(limit, buckets, all, last, now);
      if operations % 1000 == 0 { ForgetIdle(now); }
      var attempt := Attempt(now, 1.0);
      StandForCharged(limit, buckets, all, clientIp, attempt);
      all, last := all[clientIp := Charged(limit, Kept(limit, all, clientIp, now), attempt)], now;
      retryAfter := Charge(clientIp, now);
    }

    /** Takes one token if there is one, or says how long to wait for it. */
    method Charge(clientIp: string, now: real) returns (retryAfter: Option<int>)
      requires limit.perSecond > 0.0
      modifies this`buckets
      ensures var b, a := Kept(limit, old(buckets), clientIp, now), Attempt(now, 1.0);
        && buckets == old(buckets)[clientIp := Charged(limit, b, a)]
        && (retryAfter.None? <==> Admits(limit, b, a))
        && (retryAfter.Some? ==> retryAfter.value == RetryAfter(limit, Charged(limit, b, a)))
    {
      var bucket := Refilled(limit, Kept(limit, buckets, clientIp, now), now);
      if bucket.tokens >= 1.0 {
        buckets := buckets[clientIp := bucket.(tokens := bucket.tokens - 1.0)];
        return None;
      }
      buckets := buckets[clientIp := bucket];
      retryAfter := Some(RetryAfter(limit, bucket));
    }

    /** Forgets buckets idle for a minute or for twice the time a refill takes, whichever is longer. */
    method ForgetIdle(now: real)
      requires LimitOk(limit) && StandFor(limit, buckets, all, now)
      modifies this`buckets
      ensures StandFor(limit, buckets, all, now)
    {
      var refillMs := limit.burst / limit.perSecond * 2000.0;
      var idleCutoff := now - (if refillMs > 60000.0 then refillMs else 60000.0);
      var idle := set k | k in buckets && buckets[k].updatedAt < idleCutoff;
      TwiceRefills(limit);
      forall k | k in idle ensures Refilled(limit, buckets[k], now).tokens == limit.burst {
        EarnedGrows(limit, refillMs, now - buckets[k].updatedAt);
      }
      StandForFewer(limit, buckets, all, now, idle);
      buckets := buckets - idle;
    }
  }

  lemma TwiceRefills(l: Limit)
    requires LimitOk(l)
    ensures Earned(l, l.burst / l.perSecond * 2000.0) >= l.burst
  {
    var q := l.burst / l.perSecond;
    assert q * l.perSecond == l.burst;
    assert q * 2000.0 / 1000.0 == q * 2.0;
    assert Earned(l, q * 2000.0) == q * 2.0 * l.perSecond == 2.0 * (q * l.perSecond);
  }

  function Ceiling(x: real): (n: int)
    ensures x <= n as real && (n - 1) as real < x
  {
    -((-x).Floor)
  }

  function RetryAfter(l: Limit, b: Bucket): int
    requires l.perSecond > 0.0
  {
    var seconds := Ceiling((1.0 - b.tokens) / l.perSecond);
    if seconds < 1 then 1 else seconds
  }

  /** Waiting as told makes the next request succeed exactly when the bucket can hold a request at all. */
  lemma WaitingIsEnoughIff(l: Limit, b: Bucket, later: real)
    requires LimitOk(l) && 0.0 <= b.tokens <= l.burst && later >= b.updatedAt + RetryAfter(l, b) as real * 1000.0
    ensures Admits(l, b, Attempt(later, 1.0)) <==> l.burst >= 1.0
  {
    var seconds, rate := RetryAfter(l, b) as real, l.perSecond;
    var missing := (1.0 - b.tokens) / rate;
    assert missing * rate == 1.0 - b.tokens;
    assert seconds >= missing;
    assert (seconds - missing) * rate >= 0.0;
    assert seconds * rate >= 1.0 - b.tokens;
    assert Earned(l, seconds * 1000.0) == seconds * rate;
    EarnedGrows(l, seconds * 1000.0, later - b.updatedAt);
  }

  /** No shorter wait in whole seconds, of which one is the least, would do. */
  lemma WaitingLessIsNotEnough(l: Limit, b: Bucket)
    requires LimitOk(l) && 0.0 <= b.tokens <= l.burst
    ensures RetryAfter(l, b) >= 1
    ensures RetryAfter(l, b) > 1 ==>
      !Admits(l, b, Attempt(b.updatedAt + (RetryAfter(l, b) - 1) as real * 1000.0, 1.0))
  {
    if RetryAfter(l, b) > 1 {
      var less, missing := (RetryAfter(l, b) - 1) as real, (1.0 - b.tokens) / l.perSecond;
      assert missing * l.perSecond == 1.0 - b.tokens;
      assert less < missing;
      assert Earned(l, missing * 1000.0) == missing * l.perSecond by { assert missing * 1000.0 / 1000.0 == missing; }
      EarnedRises(l, less * 1000.0, missing * 1000.0);
    }
  }

  // ---- Upload bytes ----

  const MAX_CHUNK_BYTES := 65536

  /** The bucket all uploads of a peer share; it holds one second of bytes. */
  function UploadLimit(bytesPerSecond: real): Limit { Limit(bytesPerSecond, bytesPerSecond) }

  function MaximumChunkBytes(bytesPerSecond: real): (n: int)
    ensures 1 <= n <= MAX_CHUNK_BYTES
    ensures (n == 1 || n as real <= bytesPerSecond) && (n == MAX_CHUNK_BYTES || bytesPerSecond < (n + 1) as real)
  {
    var floor := bytesPerSecond.Floor;
    if floor < 1 then 1 else if floor > MAX_CHUNK_BYTES then MAX_CHUNK_BYTES else floor
  }

  /** A full-sized chunk can ever be granted exactly when the rate is at least a byte a second. */
  lemma ChunksFitIff(bytesPerSecond: real)
    requires bytesPerSecond > 0.0
    ensures MaximumChunkBytes(bytesPerSecond) as real <= UploadLimit(bytesPerSecond).burst <==> bytesPerSecond >= 1.0
  {
  }

  /** Nobody waits in vain or too long: a chunk that fits is granted exactly when what is missing was earned. */
  lemma WaitingGrantsChunk(bytesPerSecond: real, b: Bucket, bytes: real, later: real)
    requires bytesPerSecond > 0.0 && 0.0 <= b.tokens < bytes <= bytesPerSecond && later >= b.updatedAt
    ensures Admits(UploadLimit(bytesPerSecond), b, Attempt(later, bytes)) <==>
      later >= b.updatedAt + (bytes - b.tokens) / bytesPerSecond * 1000.0
  {
    var l := UploadLimit(bytesPerSecond);
    var missing := (bytes - b.tokens) / bytesPerSecond;
    assert missing * bytesPerSecond == bytes - b.tokens;
    assert missing * 1000.0 / 1000.0 == missing;
    assert Earned(l, missing * 1000.0) == bytes - b.tokens;
    var waited := later - b.updatedAt;
    if waited >= missing * 1000.0 {
      EarnedGrows(l, missing * 1000.0, waited);
    } else {
      EarnedRises(l, waited, missing * 1000.0);
    }
  }

  class BandwidthLimiter {
    const bytesPerSecond: real
    var tokens: real
    var lastRefill: real

    ghost function State(): Bucket
      reads this
    {
      Bucket(tokens, lastRefill)
    }

    constructor (bytesPerSecond: real, now: real)
      requires bytesPerSecond > 0.0
      ensures State() == Bucket(bytesPerSecond, now) && this.bytesPerSecond == bytesPerSecond
    {
      this.bytesPerSecond, tokens, lastRefill := bytesPerSecond, bytesPerSecond, now;
    }

    /** One turn of the wait loop of any upload: the bytes are granted, or the wait in milliseconds is set. */
    method TryConsume(bytes: nat, now: real) returns (waitMs: Option<real>)
      requires bytesPerSecond > 0.0
      modifies this`tokens, this`lastRefill
      ensures State() == Charged(UploadLimit(bytesPerSecond), old(State()), Attempt(now, bytes as real))
      ensures waitMs.None? <==> Admits(UploadLimit(bytesPerSecond), old(State()), Attempt(now, bytes as real))
      ensures waitMs.Some? ==> waitMs.value >= 1.0 && waitMs.value >= (bytes as real - tokens) / bytesPerSecond * 1000.0
    {
      Refill(now);
      if tokens >= bytes as real {
        tokens := tokens - bytes as real;
        return None;
      }
      var wait := (bytes as real - tokens) / bytesPerSecond * 1000.0;
      waitMs := Some(if wait < 1.0 then 1.0 else wait);
    }

    method Refill(now: real)
      modifies this`tokens, this`lastRefill
      ensures State() == Refilled(UploadLimit(bytesPerSecond), old(State()), now)
    {
      var elapsedSeconds := (if now > lastRefill then now - lastRefill else 0.0) / 1000.0;
      tokens := Least(bytesPerSecond, tokens + elapsedSeconds * bytesPerSecond);
      lastRefill := now;
    }
  }

  /** `writeLimited`: the chunks asked for tile the data, in order, and none is larger than the limiter allows. */
  method Chunks(data: Bytes, bytesPerSecond: real) returns (chunks: seq<Bytes>)
    ensures Joined(chunks) == data
    ensures forall c :: c in chunks ==> 0 < |c| <= MaximumChunkBytes(bytesPerSecond)
  {
    chunks := [];
    var chunkSize := MaximumChunkBytes(bytesPerSecond);
    var offset := 0;
    while offset < |data|
      invariant 0 <= offset && Joined(chunks) == data[..if offset < |data| then offset else |data|]
      invariant forall c :: c in chunks ==> 0 < |c| <= chunkSize
    {
      var end := if offset + chunkSize < |data| then offset + chunkSize else |data|;
      assert (chunks + [data[offset..end]])[..|chunks|] == chunks;
      chunks := chunks + [data[offset..end]];
      offset := offset + chunkSize;
    }
  }
}
