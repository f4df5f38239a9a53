/** The Redis token bucket, counted in thousandths of a token so that a refill of
    `rate` tokens per second is exactly `rate` per millisecond. */
module TokenBucket {
  import opened Domain
  import opened TimeWindows

  /** Thousandths of a token in a token, and milliseconds in a second. */
  const MILLI := 1000

  /** The hash under one bucket key. */
  datatype Bucket = Bucket(tokens: int, updatedAt: int)

  /** The policy of a tier: whole tokens, and whole tokens per second. */
  datatype Policy = Policy(capacity: int, rate: int) {
    predicate Sane() {
      capacity >= 0 && rate >= 1
    }
  }

  /** One check: the caller's clock in milliseconds and the cost in whole tokens. */
  datatype Visit = Visit(now: int, cost: int)

  datatype Decision = Decision(allowed: bool, remaining: int, retryAfterMs: int)

  function Min(a: int, b: int): int {
    if a < b then a else b
  }

  /** Tokens available to a check, before it consumes any. */
  function Refilled(b: Option<Bucket>, p: Policy, now: int): int {
    match b
    case None => p.capacity * MILLI
    case Some(k) => Min(p.capacity * MILLI, k.tokens + Max(0, now - k.updatedAt) * p.rate)
  }

  function Decide(b: Option<Bucket>, p: Policy, v: Visit): Decision
    requires p.Sane()
  {
    var tokens, cost := Refilled(b, p, v.now), v.cost * MILLI;
    if tokens >= cost then Decision(true, tokens - cost, 0)
    else Decision(false, tokens, CeilDiv(cost - tokens, p.rate))
  }

  /** The hash written back, denied or not. */
  function After(b: Option<Bucket>, p: Policy, v: Visit): Bucket
    requires p.Sane()
  {
    Bucket(Decide(b, p, v).remaining, v.now)
  }

  /** The Redis keys of the limiters. */
  class Store {
    var buckets: map<string, Bucket>

    constructor ()
      ensures buckets == map[]
    {
      buckets := map[];
    }

    function At(key: string): Option<Bucket>
      reads this
    {
      if key in buckets then Some(buckets[key]) else None
    }

    /** The script: refill, consume, store, atomically. */
    method Check(key: string, capacity: int, rate: int, now: int, cost: int)
      returns (allowed: int, remaining: int, retryAfterMs: int)
      requires Policy(capacity, rate).Sane()
      modifies this
      ensures var p, v := Policy(capacity, rate), Visit(now, cost);
              && Decide(old(At(key)), p, v) == Decision(allowed == 1, remaining, retryAfterMs)
              && (allowed == 0 || allowed == 1)
              && buckets == old(buckets)[key := After(old(At(key)), p, v)]
    {
      var tokens, updatedAt;
      if key in buckets {
        tokens, updatedAt := buckets[key].tokens, buckets[key].updatedAt;
      } else {
        tokens, updatedAt := capacity * MILLI, now;
      }
      var elapsed := Max(0, now - updatedAt);
      tokens := Min(capacity * MILLI, tokens + elapsed * rate);
      allowed, retryAfterMs := 0, 0;
      if tokens >= cost * MILLI {
        tokens := tokens - cost * MILLI;
        allowed := 1;
      } else {
        var deficit := cost * MILLI - tokens;
        retryAfterMs := CeilDiv(deficit, rate);
      }
      buckets := buckets[key := Bucket(tokens, now)];
      remaining := tokens;
    }

    /** A check that may come after Redis dropped the idle key: one step of a run
        with expiry, as `WithExpiry` below unrolls it. */
    method CheckAfterIdle(key: string, capacity: int, rate: int, a: Arrival) returns (decision: Decision)
      requires Policy(capacity, rate).Sane()
      modifies this
      ensures var p, kept := Policy(capacity, rate), if a.dropped then None else old(At(key));
              && [decision] == WithExpiry(old(At(key)), p, [a])
              && buckets == old(buckets)[key := After(kept, p, a.visit)]
    {
      if a.dropped {
        Expire(key);
      }
      var allowed, remaining, retryAfterMs := Check(key, capacity, rate, a.visit.now, a.visit.cost);
      decision := Decision(allowed == 1, remaining, retryAfterMs);
    }

    /** PEXPIRE fires. */
    method Expire(key: string)
      modifies this
      ensures buckets == old(buckets) - {key}
    {
      buckets := buckets - {key};
    }
  }

  predicate InRange(b: Option<Bucket>, p: Policy) {
    b.Some? ==> 0 <= b.value.tokens <= p.capacity * MILLI
  }

  /** After every check the stored tokens lie in [0, capacity], whatever the clock says. */
  lemma TokensStayInRange(b: Option<Bucket>, p: Policy, v: Visit)
    requires p.Sane() && v.cost >= 0 && (b.Some? ==> b.value.tokens >= 0)
    ensures InRange(Some(After(b, p, v)), p)
  {
    if b.Some? {
      assert Max(0, v.now - b.value.updatedAt) * p.rate >= 0;
    }
  }

  // ------------------------------------------------------- the admission bound

  datatype Call = Call(policy: Policy, visit: Visit)

  ghost predicate SaneCalls(calls: seq<Call>) {
    forall c :: c in calls ==> c.policy.Sane() && c.visit.cost >= 0
  }

  /** Cost admitted by a run of checks on one key, in thousandths. */
  function Admitted(b: Bucket, calls: seq<Call>): int
    requires SaneCalls(calls)
    decreases |calls|
  {
    if |calls| == 0 then 0
    else
      assert calls[0] in calls;
      (if Decide(Some(b), calls[0].policy, calls[0].visit).allowed then calls[0].visit.cost * MILLI else 0)
      + Admitted(After(Some(b), calls[0].policy, calls[0].visit), calls[1..])
  }

  function Final(b: Bucket, calls: seq<Call>): Bucket
    requires SaneCalls(calls)
    decreases |calls|
  {
    if |calls| == 0 then b
    else
      assert calls[0] in calls;
      Final(After(Some(b), calls[0].policy, calls[0].visit), calls[1..])
  }

  /** Refill granted by the positive clock advances of the run, step by step. */
  function Refill(clock: int, calls: seq<Call>): int
    decreases |calls|
  {
    if |calls| == 0 then 0
    else Max(0, calls[0].visit.now - clock) * calls[0].policy.rate + Refill(calls[0].visit.now, calls[1..])
  }

  /** Over any run without expiry, even with clocks that jump back and with limits
      that change between checks, what was admitted plus what is left is at most
      the starting tokens plus the rate times the positive clock advances. */
  lemma {:induction false} AdmissionBound(b: Bucket, calls: seq<Call>)
    requires SaneCalls(calls) && b.tokens >= 0
    ensures Admitted(b, calls) + Final(b, calls).tokens <= b.tokens + Refill(b.updatedAt, calls)
    ensures Final(b, calls).tokens >= 0
    decreases |calls|
  {
    if |calls| > 0 {
      var c := calls[0];
      assert c in calls;
      TokensStayInRange(Some(b), c.policy, c.visit);
      AdmissionBound(After(Some(b), c.policy, c.visit), calls[1..]);
    }
  }

  // -------------------------------------------------------- expiry is invisible

  /** A check that may come after Redis dropped the idle key. */
  datatype Arrival = Arrival(visit: Visit, dropped: bool)

  const IDLE_MS := 60000

  /** A key is dropped only after it has been idle for the PEXPIRE time. */
  ghost predicate Legal(b: Option<Bucket>, p: Policy, run: seq<Arrival>)
    requires p.Sane()
    decreases |run|
  {
    |run| == 0 ||
    (var kept := if run[0].dropped then None else b;
     && run[0].visit.cost >= 0
     && (run[0].dropped && b.Some? ==> run[0].visit.now - b.value.updatedAt >= IDLE_MS)
     && Legal(Some(After(kept, p, run[0].visit)), p, run[1..]))
  }

  function WithExpiry(b: Option<Bucket>, p: Policy, run: seq<Arrival>): seq<Decision>
    requires p.Sane()
    decreases |run|
  {
    if |run| == 0 then []
    else
      var kept := if run[0].dropped then None else b;
      [Decide(kept, p, run[0].visit)] + WithExpiry(Some(After(kept, p, run[0].visit)), p, run[1..])
  }

  function WithoutExpiry(b: Option<Bucket>, p: Policy, run: seq<Arrival>): seq<Decision>
    requires p.Sane()
    decreases |run|
  {
    if |run| == 0 then []
    else [Decide(b, p, run[0].visit)] + WithoutExpiry(Some(After(b, p, run[0].visit)), p, run[1..])
  }

  lemma IdleMeansFull(b: Bucket, p: Policy, now: int)
    requires p.Sane() && b.tokens >= 0 && p.capacity <= 60 * p.rate && now - b.updatedAt >= IDLE_MS
    ensures Refilled(Some(b), p, now) == Refilled(None, p, now)
  {
    assert (now - b.updatedAt) * p.rate >= IDLE_MS * p.rate;
  }

  lemma {:induction false} DropsChangeNothing(b: Option<Bucket>, p: Policy, run: seq<Arrival>)
    requires p.Sane() && p.capacity <= 60 * p.rate && InRange(b, p) && Legal(b, p, run)
    ensures WithExpiry(b, p, run) == WithoutExpiry(b, p, run)
    decreases |run|
  {
    if |run| > 0 {
      var v := run[0].visit;
      var kept := if run[0].dropped then None else b;
      if run[0].dropped && b.Some? {
        IdleMeansFull(b.value, p, v.now);
      }
      assert Decide(kept, p, v) == Decide(b, p, v);
      TokensStayInRange(kept, p, v);
      DropsChangeNothing(Some(After(kept, p, v)), p, run[1..]);
    }
  }

  ghost predicate ExpiryInvisible(p: Policy)
    requires p.Sane()
  {
    forall b, run :: InRange(b, p) && Legal(b, p, run) ==> WithExpiry(b, p, run) == WithoutExpiry(b, p, run)
  }

  /** Dropping idle keys after 60 s is invisible exactly when a full bucket never
      holds more than 60 seconds of refill, as it does at both call sites. */
  lemma ExpiryInvisibleIff(p: Policy)
    requires p.Sane()
    ensures ExpiryInvisible(p) <==> p.capacity <= 60 * p.rate
  {
    if p.capacity <= 60 * p.rate {
      forall b, run | InRange(b, p) && Legal(b, p, run)
        ensures WithExpiry(b, p, run) == WithoutExpiry(b, p, run)
      {
        DropsChangeNothing(b, p, run);
      }
    } else {
      var b, run := Some(Bucket(0, 0)), [Arrival(Visit(IDLE_MS, p.capacity), true)];
      assert Legal(Some(After(None, p, run[0].visit)), p, run[1..]);
      assert Legal(b, p, run);
      assert WithExpiry(b, p, run)[0].allowed && !WithoutExpiry(b, p, run)[0].allowed;
    }
  }

  /** The configured limiters: tier 1 refills 200/s into 400, tier 2 uses one number for both. */
  lemma CallSitesAreInvisible(rateLimitPerSec: int)
    requires rateLimitPerSec >= 1
    ensures ExpiryInvisible(Policy(400, 200)) && ExpiryInvisible(Policy(rateLimitPerSec, rateLimitPerSec))
  {
    ExpiryInvisibleIff(Policy(400, 200));
    ExpiryInvisibleIff(Policy(rateLimitPerSec, rateLimitPerSec));
  }

  // ------------------------------------------------------- denials are invisible

  function Answers(b: Bucket, p: Policy, visits: seq<Visit>): (r: seq<Decision>)
    requires p.Sane()
    ensures |r| == |visits|
    decreases |visits|
  {
    if |visits| == 0 then []
    else [Decide(Some(b), p, visits[0])] + Answers(After(Some(b), p, visits[0]), p, visits[1..])
  }

  function Select<T>(xs: seq<T>, keep: seq<bool>): seq<T>
    requires |xs| == |keep|
  {
    if |xs| == 0 then []
    else (if keep[0] then [xs[0]] else []) + Select(xs[1..], keep[1..])
  }

  /** Clocks never run back from `clock` on. */
  ghost predicate Monotone(clock: int, visits: seq<Visit>)
    decreases |visits|
  {
    |visits| == 0 || (clock <= visits[0].now && visits[0].cost >= 0 && Monotone(visits[0].now, visits[1..]))
  }

  /** `late` holds what `early` will hold when its clock reaches the clock of `late`. */
  predicate SameBudget(late: Bucket, early: Bucket, p: Policy) {
    && early.updatedAt <= late.updatedAt
    && late.tokens == Min(p.capacity * MILLI, early.tokens + (late.updatedAt - early.updatedAt) * p.rate)
  }

  lemma SameBudgetSameRefill(late: Bucket, early: Bucket, p: Policy, now: int)
    requires p.Sane() && SameBudget(late, early, p) && late.updatedAt <= now
    ensures Refilled(Some(late), p, now) == Refilled(Some(early), p, now)
  {
    var x, y := late.updatedAt - early.updatedAt, now - late.updatedAt;
    assert (x + y) * p.rate == x * p.rate + y * p.rate;
    assert y * p.rate >= 0;
  }

  lemma {:induction false} DenialsFrom(late: Bucket, early: Bucket, p: Policy, visits: seq<Visit>, keep: seq<bool>)
    requires p.Sane() && SameBudget(late, early, p) && Monotone(late.updatedAt, visits) && |visits| == |keep|
    requires late.tokens <= p.capacity * MILLI
    requires forall i :: 0 <= i < |visits| && !keep[i] ==> !Answers(late, p, visits)[i].allowed
    ensures Answers(early, p, Select(visits, keep)) == Select(Answers(late, p, visits), keep)
    decreases |visits|
  {
    if |visits| > 0 {
      var v := visits[0];
      SameBudgetSameRefill(late, early, p, v.now);
      var late' := After(Some(late), p, v);
      var rest := Answers(late', p, visits[1..]);
      assert Answers(late, p, visits) == [Decide(Some(late), p, v)] + rest;
      assert forall i :: 0 <= i < |rest| ==> rest[i] == Answers(late, p, visits)[i + 1];
      if keep[0] {
        var early' := After(Some(early), p, v);
        assert early' == late' && SameBudget(late', early', p);
        DenialsFrom(late', early', p, visits[1..], keep[1..]);
        assert Select(visits, keep)[1..] == Select(visits[1..], keep[1..]);
      } else {
        assert !Answers(late, p, visits)[0].allowed;
        assert SameBudget(late', early, p);
        DenialsFrom(late', early, p, visits[1..], keep[1..]);
        assert [] + Select(visits[1..], keep[1..]) == Select(visits[1..], keep[1..]);
        assert Select(Answers(late, p, visits), keep) == Select(rest, keep[1..]);
      }
    }
  }

  /** Under a monotone clock, removing any selection of denied checks from a run
      changes no other decision, remaining balance or hint. */
  lemma DenialsAreInvisible(b: Bucket, p: Policy, visits: seq<Visit>, keep: seq<bool>)
    requires p.Sane() && 0 <= b.tokens <= p.capacity * MILLI
    requires Monotone(b.updatedAt, visits) && |keep| == |visits|
    requires forall i :: 0 <= i < |visits| && !keep[i] ==> !Answers(b, p, visits)[i].allowed
    ensures Answers(b, p, Select(visits, keep)) == Select(Answers(b, p, visits), keep)
  {
    DenialsFrom(b, b, p, visits, keep);
  }

  /** No later check can tell `b` from `c`. */
  ghost predicate Alike(b: Bucket, c: Bucket, p: Policy)
    requires p.Sane()
  {
    forall cost :: AlikeFor(b, c, p, cost)
  }

  /** No later check of this cost can. */
  ghost predicate AlikeFor(b: Bucket, c: Bucket, p: Policy, cost: int)
    requires p.Sane()
  {
    forall now :: now >= Max(b.updatedAt, c.updatedAt) ==>
      Decide(Some(b), p, Visit(now, cost)).allowed == Decide(Some(c), p, Visit(now, cost)).allowed
  }

  lemma DenialIsInvisible(b: Bucket, p: Policy, denied: Visit)
    requires p.Sane() && b.tokens <= p.capacity * MILLI
    requires !Decide(Some(b), p, denied).allowed && denied.now >= b.updatedAt
    ensures Alike(After(Some(b), p, denied), b, p)
  {
    var b' := After(Some(b), p, denied);
    forall now, cost | now >= Max(b'.updatedAt, b.updatedAt)
      ensures Decide(Some(b'), p, Visit(now, cost)).allowed == Decide(Some(b), p, Visit(now, cost)).allowed
    {
      SameBudgetSameRefill(b', b, p, now);
    }
  }

  /** The clock has to be monotone: a denied check is invisible to all later checks
      of its own cost, which is one token at both call sites, exactly when its clock
      is not behind the stored one or no bucket can ever pay for it. */
  lemma DenialIsInvisibleIffClockIsNot(b: Bucket, p: Policy, denied: Visit)
    requires p.Sane() && b.tokens <= p.capacity * MILLI && !Decide(Some(b), p, denied).allowed
    ensures denied.now >= b.updatedAt ==> Alike(After(Some(b), p, denied), b, p)
    ensures denied.now >= b.updatedAt || denied.cost > p.capacity <==>
            AlikeFor(After(Some(b), p, denied), b, p, denied.cost)
  {
    var b' := After(Some(b), p, denied);
    if denied.now >= b.updatedAt {
      DenialIsInvisible(b, p, denied);
    } else {
      assert b' == Bucket(b.tokens, denied.now);
      if denied.cost <= p.capacity {
        EarlierStampIsRicher(b, b', p, denied.cost);
      }
    }
  }

  /** Two buckets with the same tokens, stamped at different times, are told apart
      at the last instant at which the later one cannot pay. */
  lemma EarlierStampIsRicher(b: Bucket, c: Bucket, p: Policy, cost: int)
    requires p.Sane() && b.tokens == c.tokens < cost * MILLI <= p.capacity * MILLI && c.updatedAt < b.updatedAt
    ensures !AlikeFor(c, b, p, cost)
  {
    var missing := cost * MILLI - b.tokens;
    var wait := CeilDiv(missing, p.rate) - 1;
    CeilIsLeast(missing, p.rate, wait);
    CeilIsLeast(missing, p.rate, 0);
    var now := b.updatedAt + wait;
    CeilIsLeast(missing, p.rate, now - c.updatedAt);
    assert Decide(Some(c), p, Visit(now, cost)).allowed && !Decide(Some(b), p, Visit(now, cost)).allowed;
  }

  // ------------------------------------------------------------ hints are tight

  /** The bucket after `visits`, none of which was admitted, and the last clock. */
  function Through(b: Bucket, p: Policy, visits: seq<Visit>): Bucket
    requires p.Sane()
    decreases |visits|
  {
    if |visits| == 0 then b else Through(After(Some(b), p, visits[0]), p, visits[1..])
  }

  ghost predicate NoneAdmitted(b: Bucket, p: Policy, visits: seq<Visit>)
    requires p.Sane()
  {
    Monotone(b.updatedAt, visits) && forall i :: 0 <= i < |visits| ==> !Answers(b, p, visits)[i].allowed
  }

  lemma {:induction false} DenialsKeepBudget(late: Bucket, early: Bucket, p: Policy, visits: seq<Visit>)
    requires p.Sane() && SameBudget(late, early, p) && late.tokens <= p.capacity * MILLI
    requires NoneAdmitted(late, p, visits)
    ensures SameBudget(Through(late, p, visits), early, p)
    decreases |visits|
  {
    if |visits| > 0 {
      var v := visits[0];
      SameBudgetSameRefill(late, early, p, v.now);
      var late' := After(Some(late), p, v);
      assert !Answers(late, p, visits)[0].allowed;
      forall i | 0 <= i < |visits| - 1 ensures !Answers(late', p, visits[1..])[i].allowed {
        assert Answers(late, p, visits)[i + 1] == Answers(late', p, visits[1..])[i];
      }
      DenialsKeepBudget(late', early, p, visits[1..]);
    }
  }

  /** After the denial of `v` and any denied checks `since`, a request like `v` at
      `now` is allowed. */
  predicate AllowedAt(b: Option<Bucket>, p: Policy, v: Visit, since: seq<Visit>, now: int)
    requires p.Sane()
  {
    Decide(Some(Through(After(b, p, v), p, since)), p, Visit(now, v.cost)).allowed
  }

  lemma RetrySucceedsFromHint(b: Option<Bucket>, p: Policy, v: Visit, since: seq<Visit>, now: int)
    requires p.Sane() && !Decide(b, p, v).allowed && NoneAdmitted(After(b, p, v), p, since)
    requires now >= Through(After(b, p, v), p, since).updatedAt
    ensures AllowedAt(b, p, v, since, now) <==> v.cost <= p.capacity && now - v.now >= Decide(b, p, v).retryAfterMs
  {
    var b' := After(b, p, v);
    assert b'.tokens <= p.capacity * MILLI;
    DenialsKeepBudget(b', b', p, since);
    SameBudgetSameRefill(Through(b', p, since), b', p, now);
    CeilIsLeast(v.cost * MILLI - b'.tokens, p.rate, now - v.now);
  }

  /** After a denial, whatever denied checks of whatever cost come in between, the
      same request fails before the hint and succeeds at it and after it: exactly
      when it can succeed at all. */
  lemma RetryHintIsTightIff(b: Option<Bucket>, p: Policy, v: Visit)
    requires p.Sane() && !Decide(b, p, v).allowed
    ensures v.cost <= p.capacity <==>
            forall since, now ::
              NoneAdmitted(After(b, p, v), p, since) && now >= Through(After(b, p, v), p, since).updatedAt ==>
              (AllowedAt(b, p, v, since, now) <==> now - v.now >= Decide(b, p, v).retryAfterMs)
  {
    var b', hint := After(b, p, v), Decide(b, p, v).retryAfterMs;
    forall since, now | NoneAdmitted(b', p, since) && now >= Through(b', p, since).updatedAt
      ensures AllowedAt(b, p, v, since, now) <==> v.cost <= p.capacity && now - v.now >= hint
    {
      RetrySucceedsFromHint(b, p, v, since, now);
    }
    var later := v.now + Max(0, hint);
    assert NoneAdmitted(b', p, []) && later >= Through(b', p, []).updatedAt;
    assert AllowedAt(b, p, v, [], later) <==> v.cost <= p.capacity;
  }

  lemma CeilIsLeast(n: int, d: int, k: int)
    requires d > 0
    ensures k * d >= n <==> k >= CeilDiv(n, d)
  {
    var c := CeilDiv(n, d);
    assert (c - 1) * d < n <= c * d;
    if k >= c {
      assert k * d >= c * d;
    } else {
      assert k * d <= (c - 1) * d;
    }
  }

  /** `max(1, int(retry_after_seconds) or 1)`: the hint truncated to whole seconds. */
  function RetryAfterHeader(retryAfterMs: int): int
    requires retryAfterMs >= 0
  {
    var whole := retryAfterMs / MILLI;
    Max(1, if whole == 0 then 1 else whole)
  }

  /** The header is 1 below two seconds and from there on the whole seconds within
      the hint, so it waits long enough exactly for hints of at most one second or
      of whole seconds. */
  lemma HeaderSufficesIff(retryAfterMs: int)
    requires retryAfterMs >= 0
    ensures var header := RetryAfterHeader(retryAfterMs);
            && (retryAfterMs < 2000 ==> header == 1)
            && (retryAfterMs >= 1000 ==> header * 1000 <= retryAfterMs < (header + 1) * 1000)
            && (header * 1000 >= retryAfterMs <==> retryAfterMs <= 1000 || retryAfterMs % 1000 == 0)
  {
    assert MILLI == 1000;
  }

  /** A request for one token at an integer rate of at least one never gets a hint
      above a second, so its header is 1 and enough. */
  lemma OneTokenHintIsAtMostASecond(b: Option<Bucket>, p: Policy, now: int)
    requires p.Sane() && (b.Some? ==> b.value.tokens >= 0)
    ensures var ms := Decide(b, p, Visit(now, 1)).retryAfterMs;
            0 <= ms <= 1000 && RetryAfterHeader(ms) == 1
  {
    if !Decide(b, p, Visit(now, 1)).allowed {
      var tokens := Refilled(b, p, now);
      TokensStayInRange(b, p, Visit(now, 1));
      assert MILLI * p.rate >= MILLI - tokens;
      CeilIsLeast(MILLI - tokens, p.rate, MILLI);
    }
  }
}
