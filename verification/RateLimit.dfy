/**
 A token bucket per key. Times are whole milliseconds and are passed in; tokens and rates
 are exact reals. Every 500th call also deletes buckets not seen for an hour.
 */
module RateLimit {
  import opened Numbers
  import opened Wrappers

  datatype Policy = Policy(capacity: real, refillPerSecond: real, cost: Option<real>)

  datatype Bucket = Bucket(tokens: real, lastRefill: int, lastSeen: int)

  datatype Result = Result(allowed: bool, remaining: int, retryAfterSeconds: int, limit: real)

  const HOUR_MS := 60 * 60 * 1000

  function Smaller(a: real, b: real): real { if a < b then a else b }

  function Larger(a: real, b: real): real { if a < b then b else a }

  function Cost(p: Policy): (c: real)
    ensures c > 0.0
  {
    Larger(if p.cost.None? || p.cost.value == 0.0 then 1.0 else p.cost.value, 0.001)
  }

  /** Tokens added over a span of milliseconds; a clock that went back adds none. */
  function Refill(p: Policy, ms: int): real {
    (if ms < 0 then 0 else ms) as real / 1000.0 * p.refillPerSecond
  }

  /** The tokens a request finds, with no bucket standing for a full one. */
  function Available(b: Option<Bucket>, p: Policy, now: int): real {
    if b.None? then Smaller(p.capacity, p.capacity + Refill(p, 0))
    else Smaller(p.capacity, b.value.tokens + Refill(p, now - b.value.lastRefill))
  }

  function Request(b: Option<Bucket>, p: Policy, now: int): (Bucket, Result) {
    var cost, tokens := Cost(p), Available(b, p, now);
    var allowed := tokens >= cost;
    var next := if allowed then tokens - cost else tokens;
    var deficit := Larger(0.0, cost - next);
    var retry := if allowed || p.refillPerSecond <= 0.0 then 0
                 else if Ceil(deficit / p.refillPerSecond) < 1 then 1 else Ceil(deficit / p.refillPerSecond);
    (Bucket(next, now, now), Result(allowed, if next.Floor < 0 then 0 else next.Floor, retry, p.capacity))
  }

  predicate Stale(b: Bucket, now: int) { b.lastSeen < now - HOUR_MS }

  function Sweep(b: Option<Bucket>, now: int): Option<Bucket> {
    if b.Some? && Stale(b.value, now) then None else b
  }

  /** The limiter's module state. */
  class Limiter {
    var buckets: map<string, Bucket>
    var operations: nat

    constructor ()
      ensures buckets == map[] && operations == 0
    {
      buckets, operations := map[], 0;
    }

    function BucketOf(key: string): Option<Bucket>
      reads this
    {
      if key in buckets then Some(buckets[key]) else None
    }

    /** Counts the call; on every 500th, stale buckets of all keys go. */
    method Cleanup(now: int)
      modifies this
      ensures operations == old(operations) + 1
      ensures forall key ::
        BucketOf(key) == (if operations % 500 == 0 then Sweep(old(BucketOf(key)), now) else old(BucketOf(key)))
    {
      operations := operations + 1;
      if operations % 500 != 0 { return; }
      var todo := buckets.Keys;
      while todo != {}
        invariant todo <= old(buckets).Keys && operations == old(operations) + 1
        invariant forall key ::
          BucketOf(key) == (if key in todo then old(BucketOf(key)) else Sweep(old(BucketOf(key)), now))
        decreases |todo|
      {
        var key :| key in todo;
        assert BucketOf(key) == old(BucketOf(key));
        if Stale(buckets[key], now) {
          buckets := buckets - {key};
        }
        todo := todo - {key};
      }
    }

    /** One request: the key's own bucket decides, and no other bucket changes but by the sweep. */
    method CheckRateLimit(key: string, p: Policy, now: int) returns (r: Result)
      modifies this
      ensures operations == old(operations) + 1
      ensures var swept := operations % 500 == 0;
        var before := if swept then Sweep(old(BucketOf(key)), now) else old(BucketOf(key));
        (BucketOf(key), r) == (Some(Request(before, p, now).0), Request(before, p, now).1)
      ensures forall other :: other != key ==>
        BucketOf(other) == (if operations % 500 == 0 then Sweep(old(BucketOf(other)), now) else old(BucketOf(other)))
    {
      Cleanup(now);
      var cost := Cost(p);
      var current := if key in buckets then buckets[key] else Bucket(p.capacity, now, now);
      var tokens := Smaller(p.capacity, current.tokens + Refill(p, now - current.lastRefill));
      var allowed := tokens >= cost;
      var nextTokens := if allowed then tokens - cost else tokens;
      buckets := buckets[key := Bucket(nextTokens, now, now)];
      var deficit := Larger(0.0, cost - nextTokens);
      var retryAfterSeconds := 0;
      if !allowed && p.refillPerSecond > 0.0 {
        retryAfterSeconds := Ceil(deficit / p.refillPerSecond);
        if retryAfterSeconds < 1 { retryAfterSeconds := 1; }
      }
      r := Result(allowed, if nextTokens.Floor < 0 then 0 else nextTokens.Floor, retryAfterSeconds, p.capacity);
    }
  }

  // ---------- one key under one policy ----------

  /** What happens to a key's bucket: a request on the key, or a sweep during any request. */
  datatype Event = RequestAt(now: int) | SweepAt(now: int)

  function Apply(b: Option<Bucket>, p: Policy, e: Event): Option<Bucket> {
    match e
    case RequestAt(now) => Some(Request(b, p, now).0)
    case SweepAt(now) => Sweep(b, now)
  }

  function Answers(b: Option<Bucket>, p: Policy, es: seq<Event>): seq<Result>
    decreases |es|
  {
    if es == [] then [] else
      (if es[0].RequestAt? then [Request(b, p, es[0].now).1] else []) + Answers(Apply(b, p, es[0]), p, es[1..])
  }

  function Requests(es: seq<Event>): seq<Event>
    decreases |es|
  {
    if es == [] then [] else (if es[0].RequestAt? then [es[0]] else []) + Requests(es[1..])
  }

  /** The clock does not go back, and does not start before t. */
  predicate Ordered(t: int, es: seq<Event>)
    decreases |es|
  {
    es != [] ==> t <= es[0].now && Ordered(es[0].now, es[1..])
  }

  predicate Proper(p: Policy) { p.capacity >= 0.0 && p.refillPerSecond >= 0.0 }

  /** The cost admitted by a run of requests. */
  function Admitted(b: Option<Bucket>, p: Policy, es: seq<Event>): real
    decreases |es|
  {
    if es == [] then 0.0 else
      (if es[0].RequestAt? && Request(b, p, es[0].now).1.allowed then Cost(p) else 0.0)
      + Admitted(Apply(b, p, es[0]), p, es[1..])
  }

  predicate RequestsOnly(es: seq<Event>) { forall i :: 0 <= i < |es| ==> es[i].RequestAt? }

  lemma RefillAdds(p: Policy, a: int, b: int)
    requires a >= 0 && b >= 0
    ensures Refill(p, a + b) == Refill(p, a) + Refill(p, b) && Refill(p, 0) == 0.0
    ensures p.refillPerSecond >= 0.0 ==> Refill(p, a) >= 0.0 && Refill(p, b) >= 0.0
  {
  }

  /** Admitted cost plus what is left never exceeds what was there plus what refilled. */
  lemma {:induction false} AdmittedWithinBucket(b: Bucket, p: Policy, es: seq<Event>, end: int)
    requires Proper(p) && RequestsOnly(es) && Ordered(b.lastRefill, es)
    requires b.lastRefill <= end && (es != [] ==> es[|es| - 1].now <= end)
    ensures Admitted(Some(b), p, es) <= Larger(0.0, b.tokens) + Refill(p, end - b.lastRefill)
    decreases |es|
  {
    hide Refill;
    RefillAdds(p, 0, end - b.lastRefill);
    if es != [] {
      var now := es[0].now;
      var b' := Request(Some(b), p, now).0;
      OrderedEnd(now, es[1..]);
      AdmittedWithinBucket(b', p, es[1..], end);
      RefillAdds(p, now - b.lastRefill, end - now);
    }
  }

  lemma {:induction false} OrderedEnd(t: int, es: seq<Event>)
    requires Ordered(t, es)
    ensures es != [] ==> t <= es[|es| - 1].now
    decreases |es|
  {
    if |es| > 1 {
      OrderedEnd(es[0].now, es[1..]);
    }
  }

  /**
   The bound a token bucket is for: in any window, from any bucket, the admitted cost is at
   most the capacity plus what refills between the first request and the window's end.
   */
  lemma WindowBound(b: Option<Bucket>, p: Policy, es: seq<Event>, end: int)
    requires Proper(p) && es != [] && RequestsOnly(es) && Ordered(es[0].now, es) && es[|es| - 1].now <= end
    ensures Admitted(b, p, es) <= p.capacity + Refill(p, end - es[0].now)
  {
    hide Refill;
    var b' := Request(b, p, es[0].now).0;
    OrderedEnd(es[0].now, es);
    AdmittedWithinBucket(b', p, es[1..], end);
  }

  // ---------- sweeping ----------

  /** A bucket as requests leave it, last used at or before t. */
  predicate UsedBy(b: Option<Bucket>, t: int) {
    b.Some? ==> b.value.tokens >= 0.0 && b.value.lastSeen == b.value.lastRefill <= t
  }

  /** A swept bucket stands for one that would be full again by t. */
  predicate Equivalent(swept: Option<Bucket>, kept: Option<Bucket>, p: Policy, t: int) {
    || swept == kept
    || (swept.None? && kept.Some? && kept.value.lastRefill <= t
        && kept.value.tokens + Refill(p, t - kept.value.lastRefill) >= p.capacity)
  }

  lemma EquivalentRequest(swept: Option<Bucket>, kept: Option<Bucket>, p: Policy, t: int, now: int)
    requires Proper(p) && t <= now && Equivalent(swept, kept, p, t)
    ensures Request(swept, p, now) == Request(kept, p, now)
  {
    hide Refill;
    if swept != kept {
      RefillAdds(p, t - kept.value.lastRefill, now - t);
      assert (t - kept.value.lastRefill) + (now - t) == now - kept.value.lastRefill;
    }
  }

  lemma EquivalentSweep(swept: Option<Bucket>, kept: Option<Bucket>, p: Policy, t: int, now: int)
    requires Proper(p) && t <= now && Equivalent(swept, kept, p, t) && UsedBy(kept, t)
    requires p.capacity <= Refill(p, HOUR_MS + 1)
    ensures Equivalent(Sweep(swept, now), kept, p, now)
  {
    hide Refill;
    if kept.Some? {
      var idle := now - kept.value.lastRefill;
      if swept != kept {
        RefillAdds(p, t - kept.value.lastRefill, now - t);
      } else if Stale(kept.value, now) {
        RefillAdds(p, HOUR_MS + 1, idle - HOUR_MS - 1);
      }
    }
  }

  /**
   Deleting stale buckets is unobservable under every policy that refills its capacity in an
   hour: the requests of a run are answered as if no sweep had happened.
   */
  lemma {:induction false} SweepsAreInvisible(swept: Option<Bucket>, kept: Option<Bucket>, p: Policy, t: int, es: seq<Event>)
    requires Proper(p) && Ordered(t, es) && Equivalent(swept, kept, p, t) && UsedBy(kept, t)
    requires p.capacity <= Refill(p, HOUR_MS + 1)
    ensures Answers(swept, p, es) == Answers(kept, p, Requests(es))
    ensures Admitted(swept, p, es) == Admitted(kept, p, Requests(es))
    decreases |es|
  {
    hide Refill;
    if es != [] {
      var now := es[0].now;
      if es[0].RequestAt? {
        EquivalentRequest(swept, kept, p, t, now);
        var b := Some(Request(kept, p, now).0);
        AvailableNonNegative(kept, p, t, now);
        SweepsAreInvisible(b, b, p, now, es[1..]);
        assert Requests(es)[1..] == Requests(es[1..]);
      } else {
        EquivalentSweep(swept, kept, p, t, now);
        SweepsAreInvisible(Sweep(swept, now), kept, p, now, es[1..]);
        assert Requests(es) == Requests(es[1..]);
      }
    }
  }

  lemma AvailableNonNegative(b: Option<Bucket>, p: Policy, t: int, now: int)
    requires Proper(p) && UsedBy(b, t) && t <= now
    ensures Available(b, p, now) >= 0.0
  {
    hide Refill;
    RefillAdds(p, if b.Some? then now - b.value.lastRefill else 0, 0);
  }

  lemma {:induction false} RequestsOrdered(t: int, es: seq<Event>)
    requires Ordered(t, es)
    ensures Ordered(t, Requests(es))
    decreases |es|
  {
    if es != [] {
      RequestsOrdered(es[0].now, es[1..]);
      if es[0].RequestAt? {
        assert Requests(es)[1..] == Requests(es[1..]);
      } else {
        assert Requests(es) == Requests(es[1..]);
        OrderedFrom(t, es[0].now, Requests(es));
      }
    }
  }

  lemma RequestsNext(es: seq<Event>)
    requires es != []
    ensures Requests(es) == (if es[0].RequestAt? then [es[0]] else []) + Requests(es[1..])
  {
  }

  lemma RequestsOnlyNext(e: Event, es: seq<Event>)
    requires RequestsOnly(es) && e.RequestAt?
    ensures RequestsOnly([e] + es)
  {
  }

  lemma {:induction false} RequestsEnd(t: int, es: seq<Event>)
    requires Ordered(t, es)
    ensures RequestsOnly(Requests(es))
    ensures Requests(es) != [] ==> Requests(es)[|Requests(es)| - 1].now <= es[|es| - 1].now
    decreases |es|
  {
    hide RequestsOnly, Requests;
    NoRequests();
    if es != [] {
      var rest := Requests(es[1..]);
      RequestsEnd(es[0].now, es[1..]);
      RequestsNext(es);
      OrderedEnd(es[0].now, es[1..]);
      assert |es| == 1 ==> es[1..] == [];
      assert es[|es| - 1] == if |es| == 1 then es[0] else es[1..][|es| - 2];
      if es[0].RequestAt? {
        RequestsOnlyNext(es[0], rest);
        assert ([es[0]] + rest)[|rest|] == if rest == [] then es[0] else rest[|rest| - 1];
      } else {
        assert [] + rest == rest;
      }
    }
  }

  lemma NoRequests()
    ensures Requests([]) == [] && RequestsOnly([])
  {
  }

  lemma OrderedFrom(t: int, t': int, es: seq<Event>)
    requires t <= t' && Ordered(t', es)
    ensures Ordered(t, es)
  {
  }

  /** So the window bound holds of the limiter as it runs, sweeps included. */
  lemma WindowBoundWithSweeps(b: Option<Bucket>, p: Policy, t: int, es: seq<Event>)
    requires Proper(p) && p.capacity <= Refill(p, HOUR_MS + 1)
    requires es != [] && Ordered(t, es) && UsedBy(b, t)
    ensures Admitted(b, p, es) <= p.capacity + Refill(p, es[|es| - 1].now - t)
  {
    hide Refill, Answers, Admitted, Requests;
    var rs, end := Requests(es), es[|es| - 1].now;
    SweepsAreInvisible(b, b, p, t, es);
    RequestsOrdered(t, es);
    RequestsEnd(t, es);
    OrderedEnd(t, es);
    if rs != [] {
      OrderedEnd(rs[0].now, rs);
      WindowBound(b, p, rs, end);
      RefillAdds(p, rs[0].now - t, end - rs[0].now);
      assert (rs[0].now - t) + (end - rs[0].now) == end - t;
    } else {
      NothingAdmitted(b, p);
      RefillAdds(p, end - t, 0);
    }
  }

  lemma NothingAdmitted(b: Option<Bucket>, p: Policy)
    ensures Admitted(b, p, []) == 0.0
  {
  }

  /**
   The condition is exact: when a request costs the whole capacity, the shortest idle time
   that gets a bucket swept already tells, unless that time refills it.
   */
  lemma SweepVisibleIff(p: Policy, t: int)
    requires Proper(p) && p.capacity >= 0.001 && p.cost == Some(p.capacity)
    ensures var later := t + HOUR_MS + 1;
      Answers(None, p, [RequestAt(t), SweepAt(later), RequestAt(later)])
      == Answers(None, p, [RequestAt(t), RequestAt(later)])
      <==> p.capacity <= Refill(p, HOUR_MS + 1)
  {
    hide Refill;
    var later := t + HOUR_MS + 1;
    RefillAdds(p, HOUR_MS + 1, 0);
    var b := Request(None, p, t).0;
    assert b == Bucket(0.0, t, t);
    var with, without := Request(None, p, later).1, Request(Some(b), p, later).1;
    assert with.allowed && (without.allowed <==> Refill(p, HOUR_MS + 1) >= p.capacity);
    AnswersOfThree(p, t, later);
    if Refill(p, HOUR_MS + 1) >= p.capacity {
      assert Available(Some(b), p, later) == Available(None, p, later);
    }
  }

  lemma AnswersOfThree(p: Policy, t: int, later: int)
    ensures var b := Some(Request(None, p, t).0);
      && Answers(None, p, [RequestAt(t), SweepAt(later), RequestAt(later)])
         == [Request(None, p, t).1, Request(Sweep(b, later), p, later).1]
      && Answers(None, p, [RequestAt(t), RequestAt(later)])
         == [Request(None, p, t).1, Request(b, p, later).1]
  {
    hide Answers, Request, Sweep;
    var b := Some(Request(None, p, t).0);
    AnswersCons(None, p, RequestAt(t), [SweepAt(later), RequestAt(later)]);
    AnswersCons(None, p, RequestAt(t), [RequestAt(later)]);
    AnswersCons(b, p, SweepAt(later), [RequestAt(later)]);
    AnswersCons(b, p, RequestAt(later), []);
    AnswersCons(Sweep(b, later), p, RequestAt(later), []);
    assert [RequestAt(t)] + [SweepAt(later), RequestAt(later)] == [RequestAt(t), SweepAt(later), RequestAt(later)];
    assert [RequestAt(t)] + [RequestAt(later)] == [RequestAt(t), RequestAt(later)];
    assert [SweepAt(later)] + [RequestAt(later)] == [SweepAt(later), RequestAt(later)];
    assert [RequestAt(later)] + [] == [RequestAt(later)];
    var x, y, z := Request(None, p, t).1, Request(Sweep(b, later), p, later).1, Request(b, p, later).1;
    assert Answers(b, p, [RequestAt(later)]) == [z];
    assert Answers(Sweep(b, later), p, [RequestAt(later)]) == [y];
    assert Answers(b, p, [SweepAt(later), RequestAt(later)]) == [y];
    assert [x] + [y] == [x, y] && [x] + [z] == [x, z];
  }

  lemma AnswersCons(b: Option<Bucket>, p: Policy, e: Event, rest: seq<Event>)
    ensures Answers(b, p, [e] + rest)
            == (if e.RequestAt? then [Request(b, p, e.now).1] else []) + Answers(Apply(b, p, e), p, rest)
    ensures Answers(Apply(b, p, e), p, []) == []
  {
    assert ([e] + rest)[1..] == rest;
  }

  const READ := Policy(180.0, 3.0, None)
  const WRITE := Policy(60.0, 1.0, None)
  const MODEL := Policy(20.0, 0.25, None)
  const EXPENSIVE := Policy(8.0, 0.05, None)
  const STREAM := Policy(12.0, 0.1, None)

  /** Every policy of the rate-limit table refills within the hour, so none of them can observe a sweep. */
  lemma TableRefillsWithinHour(p: Policy)
    requires p == READ || p == WRITE || p == MODEL || p == EXPENSIVE || p == STREAM
    ensures Proper(p) && p.capacity <= Refill(p, HOUR_MS) <= Refill(p, HOUR_MS + 1)
  {
  }

  // ---------- what a request takes ----------

  /** One request: the bucket is full when the key is new and refills by the clock since its last use,
      up to the capacity; the request is admitted exactly when the tokens cover its cost, which it then
      takes, and is told the whole tokens left. */
  lemma RequestExact(b: Option<Bucket>, p: Policy, now: int)
    ensures var (b', r) := Request(b, p, now);
      var cost := if p.cost == None || p.cost == Some(0.0) then 1.0 else Larger(p.cost.value, 0.001);
      var tokens := if b.None? then p.capacity
                    else if now <= b.value.lastRefill then Smaller(p.capacity, b.value.tokens)
                    else Smaller(p.capacity,
                                 b.value.tokens + (now - b.value.lastRefill) as real / 1000.0 * p.refillPerSecond);
      && (r.allowed <==> tokens >= cost)
      && b' == Bucket(if tokens >= cost then tokens - cost else tokens, now, now)
      && r.remaining == Max(0, b'.tokens.Floor) && r.limit == p.capacity
      && (r.allowed || p.refillPerSecond <= 0.0 ==> r.retryAfterSeconds == 0)
  {
  }

  /** As many requests, all at one moment. */
  function Burst(now: int, n: nat): seq<Event> { seq(n, _ => RequestAt(now)) }

  function Times(k: nat, cost: real): real { k as real * cost }

  lemma OneMore(tokens: real, k: nat, cost: real)
    requires cost > 0.0
    ensures Times(1, cost) == cost && Times(k + 1, cost) >= cost
    ensures tokens >= Times(k + 2, cost) <==> tokens - cost >= Times(k + 1, cost)
  {
    assert (k as real + 2.0) * cost == (k as real + 1.0) * cost + cost;
    assert k as real * cost >= 0.0;
  }

  lemma NextInBurst(b: Option<Bucket>, p: Policy, now: int)
    ensures var (b', r) := Request(b, p, now);
      var tokens := Available(b, p, now);
      && (r.allowed <==> tokens >= Cost(p))
      && Available(Some(b'), p, now) == if r.allowed then tokens - Cost(p) else tokens
  {
  }

  /** Requests at one moment are admitted as long as the tokens last, each taking its cost: the first n
      of them exactly when the tokens cover n times the cost. */
  lemma {:induction false} BurstAdmits(b: Option<Bucket>, p: Policy, now: int, n: nat, k: nat)
    requires k < n
    ensures |Answers(b, p, Burst(now, n))| == n
    ensures Answers(b, p, Burst(now, n))[k].allowed <==> Available(b, p, now) >= Times(k + 1, Cost(p))
    decreases n
  {
    hide Request, Available, Cost, Times;
    var (b', r) := Request(b, p, now);
    var tokens := Available(b, p, now);
    NextInBurst(b, p, now);
    OneMore(tokens, k, Cost(p));
    assert Burst(now, n)[1..] == Burst(now, n - 1);
    if n == 1 {
      assert Answers(Some(b'), p, Burst(now, 0)) == [];
    } else {
      BurstAdmits(Some(b'), p, now, n - 1, if k == 0 then 0 else k - 1);
      if k > 0 {
        OneMore(tokens, k - 1, Cost(p));
      }
    }
  }

  /** A sweep takes exactly the buckets not seen for more than an hour. */
  lemma SweepExact(b: Bucket, now: int)
    ensures Sweep(Some(b), now) == if now - b.lastSeen > 3_600_000 then None else Some(b)
  {
  }

  // ---------- retrying ----------

  lemma CeilBounds(x: real)
    ensures x <= Ceil(x) as real < x + 1.0
  {
  }

  /** A whole number of seconds refills a deficit exactly when it is at least the rounded-up quotient. */
  lemma RefillsDeficit(deficit: real, rate: real, seconds: int)
    requires rate > 0.0
    ensures seconds as real * rate >= deficit <==> seconds >= Ceil(deficit / rate)
  {
    var q := deficit / rate;
    assert q * rate == deficit;
    CeilBounds(q);
    if seconds as real >= q {
      assert (seconds as real - q) * rate >= 0.0;
    } else {
      assert (q - seconds as real) * rate > 0.0;
    }
  }

  lemma RefillSeconds(p: Policy, seconds: int)
    requires seconds >= 0
    ensures Refill(p, 1000 * seconds) == seconds as real * p.refillPerSecond
  {
  }

  /**
   A denied request that waits the advised time and is then retried alone is admitted
   exactly when it could ever be: when its cost is within the capacity. No shorter whole
   number of seconds is enough.
   */
  lemma RetryAfterAdmits(b: Option<Bucket>, p: Policy, now: int)
    requires p.refillPerSecond > 0.0 && !Request(b, p, now).1.allowed
    ensures var (b', r) := Request(b, p, now);
      && (Request(Some(b'), p, now + 1000 * r.retryAfterSeconds).1.allowed <==> Cost(p) <= p.capacity)
      && forall s :: 0 <= s < r.retryAfterSeconds ==> !Request(Some(b'), p, now + 1000 * s).1.allowed
  {
    hide Request, Refill;
    var (b', r) := Request(b, p, now);
    DeniedAnswer(b, p, now);
    RefillCovers(p, b'.tokens, 0);
    assert Refill(p, 0) == 0.0 by { RefillSeconds(p, 0); }
    RefillCovers(p, b'.tokens, r.retryAfterSeconds);
    AllowedAfter(b', p, now, r.retryAfterSeconds);
    forall s | 0 <= s < r.retryAfterSeconds ensures !Request(Some(b'), p, now + 1000 * s).1.allowed {
      RefillCovers(p, b'.tokens, s);
      AllowedAfter(b', p, now, s);
    }
  }

  /** What a denied request leaves, and what it advises. */
  lemma DeniedAnswer(b: Option<Bucket>, p: Policy, now: int)
    requires p.refillPerSecond > 0.0 && !Request(b, p, now).1.allowed
    ensures var (b', r) := Request(b, p, now);
      && b'.lastRefill == now && b'.tokens < Cost(p)
      && var wait := Ceil((Cost(p) - b'.tokens) / p.refillPerSecond); r.retryAfterSeconds == if wait < 1 then 1 else wait
  {
    hide Available, Ceil;
  }

  lemma AllowedAfter(b: Bucket, p: Policy, now: int, seconds: int)
    requires b.lastRefill == now && seconds >= 0
    ensures Request(Some(b), p, now + 1000 * seconds).1.allowed <==>
            Cost(p) <= p.capacity && b.tokens + Refill(p, 1000 * seconds) >= Cost(p)
  {
    hide Refill;
  }

  lemma RefillCovers(p: Policy, tokens: real, seconds: int)
    requires p.refillPerSecond > 0.0 && seconds >= 0
    ensures tokens + Refill(p, 1000 * seconds) >= Cost(p) <==>
            seconds >= Ceil((Cost(p) - tokens) / p.refillPerSecond)
  {
    hide Refill, Ceil, Cost;
    RefillSeconds(p, seconds);
    RefillsDeficit(Cost(p) - tokens, p.refillPerSecond, seconds);
  }
}
