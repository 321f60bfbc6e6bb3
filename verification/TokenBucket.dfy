/** The in-memory token bucket (rate_limiter.py, `TokenBucket`), over exact reals. */
module TokenBuckets {

  datatype Bucket = Bucket(tokens: real, lastRefill: real)

  function Least(a: real, b: real): real { if a < b then a else b }

  /** Tokens gained over a time. */
  function Gain(rate: real, elapsed: real): real { elapsed * rate }

  /** `_refill` */
  function Refilled(capacity: nat, rate: real, b: Bucket, now: real): Bucket {
    Bucket(Least(capacity as real, b.tokens + Gain(rate, now - b.lastRefill)), now)
  }

  /** `consume` */
  function Consume(capacity: nat, rate: real, b: Bucket, now: real, amount: nat): (Bucket, bool) {
    var r := Refilled(capacity, rate, b, now);
    if r.tokens >= amount as real then (r.(tokens := r.tokens - amount as real), true) else (r, false)
  }

  class TokenBucket {
    const capacity: nat
    const refillRate: real
    var tokens: real
    var lastRefill: real

    function State(): Bucket
      reads this
    {
      Bucket(tokens, lastRefill)
    }

    constructor (capacity: nat, refillRate: real, now: real)
      ensures this.capacity == capacity && this.refillRate == refillRate
      ensures State() == Bucket(capacity as real, now)
    {
      this.capacity, this.refillRate := capacity, refillRate;
      tokens, lastRefill := capacity as real, now;
    }

    method Refill(now: real)
      modifies this
      ensures State() == Refilled(capacity, refillRate, old(State()), now)
    {
      var elapsed := now - lastRefill;
      var added := Gain(refillRate, elapsed);
      tokens := if capacity as real < tokens + added then capacity as real else tokens + added;
      lastRefill := now;
    }

    method TryConsume(now: real, amount: nat) returns (ok: bool)
      modifies this
      ensures (State(), ok) == Consume(capacity, refillRate, old(State()), now, amount)
    {
      Refill(now);
      if tokens >= amount as real {
        tokens := tokens - amount as real;
        return true;
      }
      return false;
    }
  }

  lemma GainFacts(rate: real, a: real, b: real)
    requires rate >= 0.0
    ensures a <= b ==> Gain(rate, a) <= Gain(rate, b)
    ensures Gain(rate, 0.0) == 0.0
    ensures Gain(rate, a) + Gain(rate, b) == Gain(rate, a + b)
  {
    if a <= b { NonNegative(b - a, rate); }
  }

  lemma NonNegative(x: real, y: real)
    requires x >= 0.0 && y >= 0.0
    ensures x * y >= 0.0
  {
  }

  /** Tokens stay between zero and the capacity while time does not run backwards. */
  ghost predicate Sound(capacity: nat, b: Bucket) {
    0.0 <= b.tokens <= capacity as real
  }

  lemma RefillKeeps(capacity: nat, rate: real, b: Bucket, now: real)
    requires Sound(capacity, b) && rate >= 0.0 && now >= b.lastRefill
    ensures Sound(capacity, Refilled(capacity, rate, b, now))
    ensures Refilled(capacity, rate, b, now).tokens <= b.tokens + Gain(rate, now - b.lastRefill)
  {
    assert capacity as real >= 0.0;
    GainFacts(rate, 0.0, now - b.lastRefill);
  }

  // --- traces -------------------------------------------------------------------------

  ghost predicate Ordered(times: seq<real>) {
    forall i, j :: 0 <= i < j < |times| ==> times[i] <= times[j]
  }

  /** The bucket after single-token requests at the given times; it is created full by the first. */
  function Run(capacity: nat, rate: real, times: seq<real>): Bucket
    decreases |times|, 0
  {
    if times == [] then Bucket(capacity as real, 0.0)
    else Consume(capacity, rate, Before(capacity, rate, times), times[|times| - 1], 1).0
  }

  /** The bucket the last request meets. */
  function Before(capacity: nat, rate: real, times: seq<real>): Bucket
    requires times != []
    decreases |times|, -1
  {
    if |times| == 1 then Bucket(capacity as real, times[0]) else Run(capacity, rate, times[..|times| - 1])
  }

  predicate Admits(capacity: nat, rate: real, times: seq<real>)
    requires times != []
  {
    Consume(capacity, rate, Before(capacity, rate, times), times[|times| - 1], 1).1
  }

  /** Admissions at times in `[lo, hi)`. */
  function Admissions(capacity: nat, rate: real, times: seq<real>, lo: real, hi: real): nat {
    if times == [] then 0
    else
      Admissions(capacity, rate, times[..|times| - 1], lo, hi)
      + if Admits(capacity, rate, times) && lo <= times[|times| - 1] < hi then 1 else 0
  }

  /** Admissions so far and tokens left, paid for by the capacity and by what time has
      refilled since the interval began; the clock may have moved either way. */
  ghost predicate Accounted(capacity: nat, rate: real, b: Bucket, count: nat, lo: real, hi: real) {
    && b.tokens <= capacity as real
    && (count > 0 ==>
          && count as real + b.tokens <= capacity as real + Gain(rate, b.lastRefill - lo)
          && count as real <= capacity as real + Gain(rate, hi - lo))
    && (count > 0 && rate > 0.0 ==> count as real < capacity as real + Gain(rate, hi - lo))
  }

  lemma GainStrict(rate: real, a: real, b: real)
    requires rate > 0.0 && a < b
    ensures Gain(rate, a) < Gain(rate, b)
  {
    assert (b - a) * rate > 0.0;
  }

  /** One request keeps the account, wherever the clock went. */
  lemma AccountStep(capacity: nat, rate: real, b: Bucket, count: nat, lo: real, hi: real, now: real)
    requires rate >= 0.0 && lo < hi && Accounted(capacity, rate, b, count, lo, hi)
    ensures var (b', ok) := Consume(capacity, rate, b, now, 1);
            Accounted(capacity, rate, b', count + if ok && lo <= now < hi then 1 else 0, lo, hi)
  {
    hide Gain;
    GainFacts(rate, b.lastRefill - lo, now - b.lastRefill);
    assert b.lastRefill - lo + (now - b.lastRefill) == now - lo;
    GainFacts(rate, 0.0, now - lo);
    if lo <= now < hi {
      GainFacts(rate, now - lo, hi - lo);
      if rate > 0.0 { GainStrict(rate, now - lo, hi - lo); }
    }
  }

  lemma {:induction false} Account(capacity: nat, rate: real, times: seq<real>, lo: real, hi: real)
    requires rate >= 0.0 && lo < hi && times != []
    ensures Accounted(capacity, rate, Run(capacity, rate, times), Admissions(capacity, rate, times, lo, hi), lo, hi)
    ensures Run(capacity, rate, times).lastRefill == times[|times| - 1]
  {
    hide Gain, Accounted;
    var now := times[|times| - 1];
    var front := times[..|times| - 1];
    if |times| == 1 {
      assert front == [];
      FullAccount(capacity, rate, now, lo, hi);
      AccountStep(capacity, rate, Bucket(capacity as real, now), 0, lo, hi, now);
    } else {
      Account(capacity, rate, front, lo, hi);
      AccountStep(capacity, rate, Run(capacity, rate, front), Admissions(capacity, rate, front, lo, hi), lo, hi, now);
    }
  }

  lemma FullAccount(capacity: nat, rate: real, now: real, lo: real, hi: real)
    ensures Accounted(capacity, rate, Bucket(capacity as real, now), 0, lo, hi)
  {
  }

  /** However the clock moves, tokens never exceed the capacity, and in any half-open
      interval at most the capacity plus rate times length is admitted: fewer than that
      if the bucket refills at all. */
  lemma TokenBucketBound(capacity: nat, rate: real, times: seq<real>, lo: real, hi: real)
    requires rate >= 0.0 && lo <= hi
    ensures Admissions(capacity, rate, times, lo, hi) as real <= capacity as real + Gain(rate, hi - lo)
    ensures rate > 0.0 && lo < hi && Admissions(capacity, rate, times, lo, hi) > 0 ==>
              Admissions(capacity, rate, times, lo, hi) as real < capacity as real + Gain(rate, hi - lo)
    ensures times != [] ==> Run(capacity, rate, times).tokens <= capacity as real
  {
    hide Gain, Run;
    GainFacts(rate, 0.0, hi - lo);
    if times != [] {
      Account(capacity, rate, times, if lo < hi then lo else hi - 1.0, hi);
    }
    if lo == hi || times == [] { NoAdmissions(capacity, rate, times, lo, hi); }
  }

  lemma {:induction false} NoAdmissions(capacity: nat, rate: real, times: seq<real>, lo: real, hi: real)
    requires lo == hi || times == []
    ensures Admissions(capacity, rate, times, lo, hi) == 0
  {
    if times != [] {
      NoAdmissions(capacity, rate, times[..|times| - 1], lo, hi);
    }
  }

  // --- debt -------------------------------------------------------------------------------

  /** The request at position `k` came with the clock stepped back further than the
      tokens then left would pay for. */
  ghost predicate Overdraws(capacity: nat, rate: real, times: seq<real>, k: nat) {
    && 0 < k < |times| && times[k] < times[k - 1]
    && Gain(rate, times[k - 1] - times[k]) > Run(capacity, rate, times[..k]).tokens
  }

  ghost predicate InDebt(capacity: nat, rate: real, times: seq<real>, k: nat) {
    0 < k <= |times| && Run(capacity, rate, times[..k]).tokens < 0.0
  }

  /** One request from a bucket out of debt: it ends in debt exactly if the clock
      stepped back and the step is worth more than the tokens. */
  lemma DebtStep(capacity: nat, rate: real, b: Bucket, now: real)
    requires rate >= 0.0 && 0.0 <= b.tokens <= capacity as real
    ensures Consume(capacity, rate, b, now, 1).0.tokens < 0.0
            <==> now < b.lastRefill && Gain(rate, b.lastRefill - now) > b.tokens
  {
    hide Gain;
    GainFacts(rate, b.lastRefill - now, now - b.lastRefill);
    GainFacts(rate, 0.0, now - b.lastRefill);
    assert b.lastRefill - now + (now - b.lastRefill) == 0.0;
  }

  lemma RunStep(capacity: nat, rate: real, times: seq<real>, k: nat)
    requires 0 < k < |times|
    ensures Run(capacity, rate, times[..k + 1])
            == Consume(capacity, rate, Run(capacity, rate, times[..k]), times[k], 1).0
  {
    hide Consume;
    assert times[..k + 1][..k] == times[..k];
  }

  /** Along any trace the bucket is ever in debt exactly if, from a bucket out of debt,
      some step back of the clock was worth more than the tokens left. */
  lemma DebtExactly(capacity: nat, rate: real, times: seq<real>)
    requires rate >= 0.0
    ensures (exists k: nat :: InDebt(capacity, rate, times, k))
            <==> exists k: nat :: !InDebt(capacity, rate, times, k) && Overdraws(capacity, rate, times, k)
  {
    hide Gain, Run, Consume;
    if k: nat :| !InDebt(capacity, rate, times, k) && Overdraws(capacity, rate, times, k) {
      DebtFrom(capacity, rate, times, k);
      assert InDebt(capacity, rate, times, k + 1);
    }
    if k: nat :| InDebt(capacity, rate, times, k) {
      FirstDebt(capacity, rate, times, k);
    }
  }

  lemma DebtFrom(capacity: nat, rate: real, times: seq<real>, k: nat)
    requires rate >= 0.0 && 0 < k < |times| && !InDebt(capacity, rate, times, k)
    ensures InDebt(capacity, rate, times, k + 1) <==> Overdraws(capacity, rate, times, k)
  {
    hide Gain, Run, Consume;
    RunStep(capacity, rate, times, k);
    assert times[..k] != [] && times[..k][k - 1] == times[k - 1];
    Account(capacity, rate, times[..k], 0.0, 1.0);
    assert Accounted(capacity, rate, Run(capacity, rate, times[..k]),
                     Admissions(capacity, rate, times[..k], 0.0, 1.0), 0.0, 1.0);
    DebtStep(capacity, rate, Run(capacity, rate, times[..k]), times[k]);
  }

  lemma FirstAdmitted(capacity: nat, rate: real, times: seq<real>)
    requires rate >= 0.0 && times != []
    ensures !InDebt(capacity, rate, times, 1)
  {
    hide Gain;
    GainFacts(rate, 0.0, 0.0);
    assert capacity as real >= 0.0;
    var b := Bucket(capacity as real, times[0]);
    assert times[0] - times[0] == 0.0;
    assert Run(capacity, rate, times[..1]) == Consume(capacity, rate, b, times[0], 1).0;
  }

  lemma {:induction false} FirstDebt(capacity: nat, rate: real, times: seq<real>, k: nat)
    requires rate >= 0.0 && InDebt(capacity, rate, times, k)
    ensures exists j: nat :: !InDebt(capacity, rate, times, j) && Overdraws(capacity, rate, times, j)
  {
    hide Gain, Run, Overdraws;
    FirstAdmitted(capacity, rate, times);
    if InDebt(capacity, rate, times, k - 1) {
      FirstDebt(capacity, rate, times, k - 1);
    } else {
      DebtFrom(capacity, rate, times, k - 1);
    }
  }

  /** Such a trace: a bucket of one token a second, emptied, then asked two seconds earlier. */
  lemma DebtExample()
    ensures Overdraws(1, 1.0, [10.0, 8.0], 1) && Run(1, 1.0, [10.0, 8.0]) == Bucket(-2.0, 8.0)
    ensures Admissions(1, 1.0, [10.0, 8.0], 8.0, 11.0) == 1
  {
    var times := [10.0, 8.0];
    assert times[..1] == [10.0] && [10.0][..0] == [];
    assert Run(1, 1.0, [10.0]) == Bucket(0.0, 10.0);
  }

  /** While the clock does not step back there is no debt. */
  lemma NoDebt(capacity: nat, rate: real, times: seq<real>)
    requires rate >= 0.0 && times != [] && Ordered(times)
    ensures Sound(capacity, Run(capacity, rate, times))
  {
    hide Gain, Run, Consume;
    Account(capacity, rate, times, 0.0, 1.0);
    assert times[..|times|] == times;
    if InDebt(capacity, rate, times, |times|) {
      DebtExactly(capacity, rate, times);
    }
  }

  // --- what the bucket must let through ------------------------------------------------

  function Burst(now: real, n: nat): seq<real> { seq(n, _ => now) }

  lemma BurstFront(now: real, n: nat)
    requires n > 0
    ensures Burst(now, n)[..n - 1] == Burst(now, n - 1) && Burst(now, n)[n - 1] == now
  {
  }

  /** The bucket after a burst at one instant. */
  lemma {:induction false} BurstLeft(capacity: nat, rate: real, now: real, n: nat)
    requires rate >= 0.0 && n > 0
    ensures Run(capacity, rate, Burst(now, n))
            == Bucket(if n < capacity then capacity as real - n as real else 0.0, now)
    ensures Admits(capacity, rate, Burst(now, n)) <==> n <= capacity
  {
    hide Gain;
    GainFacts(rate, 0.0, 0.0);
    BurstFront(now, n);
    assert capacity as real >= 0.0;
    if n > 1 {
      BurstLeft(capacity, rate, now, n - 1);
    }
  }

  /** Of `n` requests at one instant a new bucket admits exactly its capacity, or all. */
  lemma {:induction false} BurstExact(capacity: nat, rate: real, now: real, n: nat, hi: real)
    requires rate >= 0.0 && now < hi
    ensures Admissions(capacity, rate, Burst(now, n), now, hi) == if n < capacity then n else capacity
  {
    hide Run, Admits;
    if n > 0 {
      BurstFront(now, n);
      BurstLeft(capacity, rate, now, n);
      BurstExact(capacity, rate, now, n - 1, hi);
    }
  }

  /** Requests far enough apart to refill one token each. */
  ghost predicate Spaced(rate: real, times: seq<real>) {
    forall i :: 0 < i < |times| ==> times[i - 1] <= times[i] && Gain(rate, times[i] - times[i - 1]) >= 1.0
  }

  /** A steady client is never refused. */
  lemma {:induction false} SteadyAdmitted(capacity: nat, rate: real, times: seq<real>)
    requires rate >= 0.0 && capacity >= 1 && times != [] && Spaced(rate, times)
    ensures Admits(capacity, rate, times)
    ensures var b := Run(capacity, rate, times);
            Sound(capacity, b) && b.lastRefill == times[|times| - 1]
  {
    hide Gain;
    var front := times[..|times| - 1];
    var now := times[|times| - 1];
    GainFacts(rate, 0.0, 0.0);
    assert capacity as real >= 1.0;
    if |times| > 1 {
      SteadyAdmitted(capacity, rate, front);
      RefillKeeps(capacity, rate, Run(capacity, rate, front), now);
    }
  }
}
