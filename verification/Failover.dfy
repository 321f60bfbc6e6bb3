/** The endpoint limiter that falls back from Redis to a local bucket request by
    request (rate_limiter_redis.py, `EndpointRateLimiter.check` and `_fallback_check`). */
module Failover {
  import B = TokenBuckets
  import L = WindowLimits
  import R = RealWindows
  import W = SlidingWindow

  /** Where a request ended up: answered by Redis; counted by Redis but answered by the
      fallback, its reply lost; answered by the fallback alone; or another process's. */
  datatype Route = ByRedis | ReplyLost | ByFallback | Foreign

  datatype Request = Request(now: real, expire: bool, route: Route)

  datatype Config = Config(limit: nat, window: real)

  function Limits(c: Config): W.Limits
    requires c.window >= 0.0
  {
    W.Limits(c.limit, (c.window * 1000.0).Floor, if L.Ceiling(c.window) < 1 then 1 else L.Ceiling(c.window))
  }

  /** `limit / window if window else 1.0` */
  function Rate(c: Config): real {
    if c.window == 0.0 then 1.0 else c.limit as real / c.window
  }

  predicate HitsRedis(r: Request) { !r.route.ByFallback? }

  predicate HitsBucket(r: Request) { r.route.ByFallback? || r.route.ReplyLost? }

  // --- the limiter object ----------------------------------------------------------

  class EndpointRateLimiter {
    const config: Config
    var buckets: map<string, B.Bucket>

    constructor (config: Config)
      ensures this.config == config && buckets == map[]
    {
      this.config := config;
      buckets := map[];
    }

    /** `_fallback_check`: the client's bucket, created full on first use, pays one
        token or refuses; no other client's bucket changes. */
    method FallbackCheck(ip: string, now: real) returns (allowed: bool)
      modifies this
      ensures buckets.Keys == old(buckets).Keys + {ip}
      ensures var before := if ip in old(buckets) then old(buckets)[ip] else B.Bucket(config.limit as real, now);
              (buckets[ip], allowed) == B.Consume(config.limit, Rate(config), before, now, 1)
      ensures forall other :: other in old(buckets) && other != ip ==> buckets[other] == old(buckets)[other]
    {
      if ip !in buckets {
        buckets := buckets[ip := B.Bucket(config.limit as real, now)];
      }
      var (after, ok) := B.Consume(config.limit, Rate(config), buckets[ip], now, 1);
      buckets := buckets[ip := after];
      allowed := ok;
    }

    /** `check` for one client: Redis answers, or the fallback does. */
    method Check(key: W.RedisKey<L.Member>, ip: string, r: Request) returns (allowed: bool)
      requires config.window >= 0.0 && !r.route.Foreign?
      modifies this, key
      ensures r.route.ByRedis? || r.route.ReplyLost? ==>
        key.State() == W.Script(Limits(config), old(key.State()), ToScript(ip, r)).0
      ensures r.route.ByFallback? ==> key.State() == old(key.State())
      ensures r.route.ByRedis? ==>
        buckets == old(buckets) && allowed == W.Script(Limits(config), old(key.State()), ToScript(ip, r)).1
      ensures r.route.ByFallback? || r.route.ReplyLost? ==>
        var before := if ip in old(buckets) then old(buckets)[ip] else B.Bucket(config.limit as real, r.now);
        ip in buckets && (buckets[ip], allowed) == B.Consume(config.limit, Rate(config), before, r.now, 1)
    {
      allowed := false;
      if HitsRedis(r) {
        var answered, _ := key.Eval(Limits(config), ToScript(ip, r));
        allowed := answered;
      }
      if HitsBucket(r) {
        allowed := FallbackCheck(ip, r.now);
      }
    }
  }

  function ToArrival(r: Request): L.Arrival { L.Arrival(r.now, r.expire) }

  function ToScript(ip: string, r: Request): L.Call { L.Scripted(ip, ToArrival(r)) }

  // --- one client's trace -------------------------------------------------------------

  function RedisArrivals(trace: seq<Request>): seq<L.Arrival> {
    if trace == [] then []
    else
      var last := trace[|trace| - 1];
      RedisArrivals(trace[..|trace| - 1]) + if HitsRedis(last) then [ToArrival(last)] else []
  }

  function BucketTimes(trace: seq<Request>): seq<real> {
    if trace == [] then []
    else
      var last := trace[|trace| - 1];
      BucketTimes(trace[..|trace| - 1]) + if HitsBucket(last) then [last.now] else []
  }

  predicate RedisAdmits(c: Config, ip: string, arrivals: seq<L.Arrival>)
    requires c.window >= 0.0
  {
    arrivals != [] && W.Admits(Limits(c), L.Calls(ip, arrivals))
  }

  predicate BucketAdmits(c: Config, times: seq<real>) {
    times != [] && B.Admits(c.limit, Rate(c), times)
  }

  /** Whether the process lets the last request of the trace through. */
  predicate Allowed(c: Config, ip: string, trace: seq<Request>)
    requires trace != [] && c.window >= 0.0
  {
    var last := trace[|trace| - 1];
    if last.route.ByRedis? then RedisAdmits(c, ip, RedisArrivals(trace))
    else HitsBucket(last) && BucketAdmits(c, BucketTimes(trace))
  }

  /** Requests this process lets through in the real interval `[lo, hi)`. */
  function Passed(c: Config, ip: string, trace: seq<Request>, lo: real, hi: real): nat
    requires c.window >= 0.0
  {
    if trace == [] then 0
    else
      Passed(c, ip, trace[..|trace| - 1], lo, hi)
      + if Allowed(c, ip, trace) && lo <= trace[|trace| - 1].now < hi then 1 else 0
  }

  lemma RedisGrows(c: Config, ip: string, trace: seq<Request>, lo: real, hi: real)
    requires c.window >= 0.0 && trace != []
    ensures var last := trace[|trace| - 1];
            L.RealAdmissions(Limits(c), ip, RedisArrivals(trace), lo, hi) ==
            L.RealAdmissions(Limits(c), ip, RedisArrivals(trace[..|trace| - 1]), lo, hi)
            + if HitsRedis(last) && RedisAdmits(c, ip, RedisArrivals(trace)) && lo <= last.now < hi then 1 else 0
  {
    hide W.Admits, Limits, L.Calls;
    var front := trace[..|trace| - 1];
    if HitsRedis(trace[|trace| - 1]) {
      assert RedisArrivals(trace)[..|RedisArrivals(trace)| - 1] == RedisArrivals(front);
    } else {
      assert RedisArrivals(trace) == RedisArrivals(front);
    }
  }

  lemma BucketGrows(c: Config, trace: seq<Request>, lo: real, hi: real)
    requires trace != []
    ensures var last := trace[|trace| - 1];
            B.Admissions(c.limit, Rate(c), BucketTimes(trace), lo, hi) ==
            B.Admissions(c.limit, Rate(c), BucketTimes(trace[..|trace| - 1]), lo, hi)
            + if HitsBucket(last) && BucketAdmits(c, BucketTimes(trace)) && lo <= last.now < hi then 1 else 0
  {
    hide B.Admits, Rate;
    var front := trace[..|trace| - 1];
    if HitsBucket(trace[|trace| - 1]) {
      assert BucketTimes(trace)[..|BucketTimes(trace)| - 1] == BucketTimes(front);
    } else {
      assert BucketTimes(trace) == BucketTimes(front);
    }
  }

  /** What passes is admitted by Redis or by the bucket. */
  lemma {:induction false} PassedSplits(c: Config, ip: string, trace: seq<Request>, lo: real, hi: real)
    requires c.window >= 0.0
    ensures Passed(c, ip, trace, lo, hi) <=
            L.RealAdmissions(Limits(c), ip, RedisArrivals(trace), lo, hi)
            + B.Admissions(c.limit, Rate(c), BucketTimes(trace), lo, hi)
  {
    hide RedisAdmits, BucketAdmits, Limits, Rate, RedisArrivals, BucketTimes;
    if trace != [] {
      PassedSplits(c, ip, trace[..|trace| - 1], lo, hi);
      RedisGrows(c, ip, trace, lo, hi);
      BucketGrows(c, trace, lo, hi);
    } else {
      hide *;
    }
  }

  /** No two requests that reach Redis share an instant, and they come in order; what
      only the fallback sees may come in any order. */
  ghost predicate RedisIncreasing(trace: seq<Request>) {
    forall i, j :: 0 <= i < j < |trace| && HitsRedis(trace[i]) && HitsRedis(trace[j]) ==>
      trace[i].now < trace[j].now
  }

  lemma {:induction false} ArrivalFrom(trace: seq<Request>, k: nat)
    requires k < |RedisArrivals(trace)|
    ensures exists i :: 0 <= i < |trace| && HitsRedis(trace[i]) && trace[i].now == RedisArrivals(trace)[k].now
  {
    var front := trace[..|trace| - 1];
    if k < |RedisArrivals(front)| {
      ArrivalFrom(front, k);
      var i :| 0 <= i < |front| && HitsRedis(front[i]) && front[i].now == RedisArrivals(front)[k].now;
      assert HitsRedis(trace[i]) && trace[i].now == RedisArrivals(trace)[k].now;
    } else {
      assert HitsRedis(trace[|trace| - 1]);
    }
  }

  lemma {:induction false} ArrivalsIncreasing(trace: seq<Request>)
    requires RedisIncreasing(trace)
    ensures L.Increasing(RedisArrivals(trace))
  {
    hide HitsRedis;
    if trace != [] {
      var front := trace[..|trace| - 1];
      ArrivalsIncreasing(front);
      var last := trace[|trace| - 1];
      if HitsRedis(last) {
        forall k | 0 <= k < |RedisArrivals(front)| ensures RedisArrivals(front)[k].now < last.now {
          ArrivalFrom(front, k);
          var i :| 0 <= i < |front| && HitsRedis(front[i]) && front[i].now == RedisArrivals(front)[k].now;
          assert trace[i] == front[i];
        }
      }
    }
  }

  /** A window of no length, or a limit of none, lets nothing through. */
  function Most(c: Config): nat { if c.limit == 0 || c.window == 0.0 then 0 else 3 * c.limit - 1 }

  /** What passes of requests in any real interval: `k` limits from Redis, where it
      touches no more milliseconds than `k` windows, and what the bucket admits. */
  lemma PassedBound(c: Config, ip: string, trace: seq<Request>, lo: real, hi: real, k: nat)
    requires c.window >= 0.0 && RedisIncreasing(trace)
    requires lo < hi && L.Cells(lo, hi) <= k * Limits(c).window
    ensures Passed(c, ip, trace, lo, hi)
            <= k * c.limit + B.Admissions(c.limit, Rate(c), BucketTimes(trace), lo, hi)
  {
    hide Passed, RedisArrivals, BucketTimes, L.RealAdmissions, B.Admissions, Rate, Limits, L.Cells, L.Increasing;
    PassedSplits(c, ip, trace, lo, hi);
    ArrivalsIncreasing(trace);
    LimitsCover(c);
    R.RealBound(Limits(c), ip, RedisArrivals(trace), lo, hi, k);
  }

  /** However requests are routed between Redis and the fallback, and whatever other
      processes send to Redis, one process lets through fewer than three times the limit
      in any interval that touches no more milliseconds than the window has. */
  lemma FailoverBound(c: Config, ip: string, trace: seq<Request>, lo: real, hi: real)
    requires c.window >= 0.0 && RedisIncreasing(trace)
    requires lo < hi && L.Cells(lo, hi) <= Limits(c).window
    ensures Passed(c, ip, trace, lo, hi) <= Most(c)
  {
    hide Passed, BucketTimes, B.Admissions, Rate, Limits, L.Cells, RedisIncreasing;
    assert 1 * Limits(c).window == Limits(c).window;
    PassedBound(c, ip, trace, lo, hi, 1);
    RateTimesWindow(c, lo, hi);
    B.TokenBucketBound(c.limit, Rate(c), BucketTimes(trace), lo, hi);
  }

  /** In any real window, wherever it lies on the milliseconds: fewer than four times the
      limit, where the script's window is two milliseconds or more or is not cut. */
  lemma FailoverRealWindow(c: Config, ip: string, trace: seq<Request>, lo: real, hi: real)
    requires c.window > 0.0 && Limits(c).window >= 1 && RedisIncreasing(trace)
    requires lo < hi && hi - lo <= c.window
    ensures var most := (R.Covering(c.window, Limits(c).window) + 2) * c.limit;
            Passed(c, ip, trace, lo, hi) <= if c.limit == 0 then 0 else most - 1
  {
    hide Passed, BucketTimes, B.Admissions, B.Gain, Rate, L.Cells, RedisIncreasing;
    var k := R.Covering(c.window, Limits(c).window);
    assert 1000.0 * c.window == c.window * 1000.0;
    R.WindowCells(c.window, Limits(c).window, lo, hi);
    PassedBound(c, ip, trace, lo, hi, k);
    PositiveRate(c);
    B.GainFacts(Rate(c), hi - lo, c.window);
    B.TokenBucketBound(c.limit, Rate(c), BucketTimes(trace), lo, hi);
    assert (k + 2) * c.limit == k * c.limit + 2 * c.limit;
  }

  lemma LimitsCover(c: Config)
    requires c.window >= 0.0
    ensures 1000 * Limits(c).ttl >= Limits(c).window && Limits(c).limit == c.limit
  {
    W.TtlCovers(c.window, Limits(c));
  }

  /** What refills in such an interval is at most the limit; no such interval is left by an empty window. */
  lemma RateTimesWindow(c: Config, lo: real, hi: real)
    requires c.window >= 0.0 && lo < hi && L.Cells(lo, hi) <= Limits(c).window
    ensures c.window > 0.0 && Rate(c) >= 0.0 && (c.limit > 0 ==> Rate(c) > 0.0)
    ensures B.Gain(Rate(c), hi - lo) <= c.limit as real
  {
    assert 1000.0 * hi <= L.Ceiling(1000.0 * hi) as real && L.Millis(lo) as real <= 1000.0 * lo;
    assert hi - lo <= c.window;
    PositiveRate(c);
    B.GainFacts(Rate(c), hi - lo, c.window);
  }

  /** Without a window the fallback regains one token a second. */
  lemma NoWindowRate(c: Config, seconds: real)
    requires c.window == 0.0
    ensures B.Gain(Rate(c), seconds) == seconds
  {
  }

  lemma PositiveRate(c: Config)
    requires c.window > 0.0
    ensures Rate(c) >= 0.0 && (c.limit > 0 ==> Rate(c) > 0.0)
    ensures B.Gain(Rate(c), c.window) == c.limit as real
  {
  }

  // --- a trace that reaches the bound -----------------------------------------------------

  function Locally(now: real): Request { Request(now, false, ByFallback) }

  function Remotely(now: real): Request { Request(now, false, ByRedis) }

  /** The time in which the bucket regains one token, taken `k` times. */
  function Tick(c: Config, k: nat): real
    requires c.limit > 0
  {
    k as real * (c.window / c.limit as real)
  }

  /** `limit` requests to the fallback at once and one to Redis, then one to each at every tick. */
  function Sharp(c: Config, k: nat): seq<Request>
    requires c.limit > 0
  {
    if k == 0 then seq(c.limit, _ => Locally(0.0)) + [Remotely(0.0)]
    else Sharp(c, k - 1) + [Locally(Tick(c, k)), Remotely(Tick(c, k))]
  }

  function SharpTimes(c: Config, k: nat): seq<real>
    requires c.limit > 0
  {
    if k == 0 then B.Burst(0.0, c.limit) else SharpTimes(c, k - 1) + [Tick(c, k)]
  }

  lemma TickFacts(c: Config, k: nat)
    requires c.limit > 0 && c.window > 0.0
    ensures Tick(c, k) >= 0.0 && (k < c.limit ==> Tick(c, k) < c.window)
    ensures k > 0 ==> Tick(c, k - 1) < Tick(c, k) && B.Gain(Rate(c), Tick(c, k) - Tick(c, k - 1)) == 1.0
  {
    var step := c.window / c.limit as real;
    L.PositiveQuotient(c.window, c.limit);
    if k < c.limit { L.TimesBelow(k, c.limit, step, c.window); }
    assert k as real * step >= 0.0;
    if k > 0 {
      assert Tick(c, k) - Tick(c, k - 1) == step;
      OneToken(c.limit, c.window);
    }
  }

  lemma OneToken(limit: nat, window: real)
    requires limit > 0 && window > 0.0
    ensures (window / limit as real) * (limit as real / window) == 1.0
  {
  }

  /** The bucket is empty after each tick's request, and admitted it. */
  lemma {:induction false} SharpBucket(c: Config, k: nat)
    requires c.limit > 0 && c.window > 0.0
    ensures SharpTimes(c, k) != []
    ensures B.Run(c.limit, Rate(c), SharpTimes(c, k)) == B.Bucket(0.0, Tick(c, k))
    ensures BucketAdmits(c, SharpTimes(c, k))
  {
    hide Tick, B.Gain, Rate;
    PositiveRate(c);
    TickFacts(c, k);
    if k == 0 {
      B.BurstLeft(c.limit, Rate(c), 0.0, c.limit);
      assert Tick(c, 0) == 0.0 by { TickZero(c); }
    } else {
      SharpBucket(c, k - 1);
      var times := SharpTimes(c, k);
      assert times[..|times| - 1] == SharpTimes(c, k - 1);
      assert c.limit as real >= 1.0;
    }
  }

  lemma TickZero(c: Config)
    requires c.limit > 0
    ensures Tick(c, 0) == 0.0
  {
  }

  lemma {:induction false} LocalBurst(c: Config, ip: string, n: nat, hi: real)
    requires c.limit > 0 && c.window > 0.0 && n <= c.limit && 0.0 < hi
    ensures var trace := seq(n, _ => Locally(0.0));
            && RedisArrivals(trace) == [] && BucketTimes(trace) == B.Burst(0.0, n)
            && Passed(c, ip, trace, 0.0, hi) == n
  {
    hide B.Admits, B.Gain, Rate, RedisAdmits;
    if n > 0 {
      LocalBurst(c, ip, n - 1, hi);
      var trace := seq(n, _ => Locally(0.0));
      assert trace[..n - 1] == seq(n - 1, _ => Locally(0.0));
      B.BurstFront(0.0, n);
      assert BucketTimes(trace) == B.Burst(0.0, n);
      PositiveRate(c);
      B.BurstLeft(c.limit, Rate(c), 0.0, n);
    }
  }

  /** One more request to Redis, within the limit, passes. */
  lemma RemotePasses(c: Config, ip: string, trace: seq<Request>, now: real, hi: real)
    requires c.window > 0.0 && 0.0 <= now < hi && |RedisArrivals(trace)| < c.limit
    ensures var t := trace + [Remotely(now)];
            && Passed(c, ip, t, 0.0, hi) == Passed(c, ip, trace, 0.0, hi) + 1
            && |RedisArrivals(t)| == |RedisArrivals(trace)| + 1 && BucketTimes(t) == BucketTimes(trace)
  {
    hide W.Admits, BucketAdmits;
    var t := trace + [Remotely(now)];
    assert t[..|t| - 1] == trace;
    L.AdmittedBelowLimit(Limits(c), L.Calls(ip, RedisArrivals(t)));
  }

  /** One more request to the fallback passes if the bucket admits it. */
  lemma LocalPasses(c: Config, ip: string, trace: seq<Request>, now: real, hi: real)
    requires c.window > 0.0 && 0.0 <= now < hi && BucketAdmits(c, BucketTimes(trace) + [now])
    ensures var t := trace + [Locally(now)];
            && Passed(c, ip, t, 0.0, hi) == Passed(c, ip, trace, 0.0, hi) + 1
            && RedisArrivals(t) == RedisArrivals(trace) && BucketTimes(t) == BucketTimes(trace) + [now]
  {
    hide RedisAdmits, BucketAdmits;
    var t := trace + [Locally(now)];
    assert t[..|t| - 1] == trace;
  }

  lemma {:induction false} SharpPasses(c: Config, ip: string, k: nat)
    requires c.limit > k && c.window > 0.0
    ensures Passed(c, ip, Sharp(c, k), 0.0, c.window) == c.limit + 1 + 2 * k
    ensures |RedisArrivals(Sharp(c, k))| == k + 1 && BucketTimes(Sharp(c, k)) == SharpTimes(c, k)
  {
    hide Passed, RedisArrivals, BucketTimes, BucketAdmits, Tick;
    if k == 0 {
      LocalBurst(c, ip, c.limit, c.window);
      RemotePasses(c, ip, seq(c.limit, _ => Locally(0.0)), 0.0, c.window);
    } else {
      SharpPasses(c, ip, k - 1);
      SharpBucket(c, k);
      TickFacts(c, k);
      var trace := Sharp(c, k - 1);
      LocalPasses(c, ip, trace, Tick(c, k), c.window);
      RemotePasses(c, ip, trace + [Locally(Tick(c, k))], Tick(c, k), c.window);
      assert trace + [Locally(Tick(c, k))] + [Remotely(Tick(c, k))] == Sharp(c, k);
    }
  }

  lemma {:induction false} SharpOrder(c: Config, k: nat)
    requires c.limit > 0 && c.window > 0.0
    ensures RedisIncreasing(Sharp(c, k))
    ensures forall i :: 0 <= i < |Sharp(c, k)| ==> Sharp(c, k)[i].now <= Tick(c, k)
  {
    hide Tick;
    TickZero(c);
    if k > 0 {
      SharpOrder(c, k - 1);
      TickFacts(c, k);
    }
  }

  /** For every positive limit and every window of whole milliseconds, the bound is
      reached: `3 * limit - 1` requests pass within one window. */
  lemma FailoverBoundIsSharp(c: Config, ip: string)
    requires c.limit > 0 && c.window > 0.0 && Limits(c).window as real == c.window * 1000.0
    ensures var trace := Sharp(c, c.limit - 1);
            && RedisIncreasing(trace) && L.Cells(0.0, c.window) == Limits(c).window
            && Passed(c, ip, trace, 0.0, c.window) == Most(c)
  {
    hide Passed, Sharp, RedisIncreasing;
    SharpOrder(c, c.limit - 1);
    SharpPasses(c, ip, c.limit - 1);
    var whole: int := Limits(c).window;
    assert (-(1000.0 * c.window)).Floor == -whole;
  }
}
