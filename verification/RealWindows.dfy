/** The sliding window on real intervals (rate_limiter_redis.py): how many windows an
    interval spans is a matter of the milliseconds it touches. */
module RealWindows {
  import opened SlidingWindow
  import opened WindowLimits
  import opened Division

  // --- the bound ---------------------------------------------------------------------------

  lemma {:induction false} SplitInterval(c: Limits, ip: string, arrivals: seq<Arrival>, lo: real, mid: real, hi: real)
    requires lo <= mid <= hi
    ensures RealAdmissions(c, ip, arrivals, lo, hi)
            == RealAdmissions(c, ip, arrivals, lo, mid) + RealAdmissions(c, ip, arrivals, mid, hi)
  {
    hide Admits, Calls;
    if arrivals != [] {
      SplitInterval(c, ip, arrivals[..|arrivals| - 1], lo, mid, hi);
    }
  }

  /** Where the first window of an interval that touches more ends. */
  function WindowEnd(lo: real, window: nat): real { (Millis(lo) + window) as real / 1000.0 }

  lemma FirstWindow(lo: real, hi: real, window: nat)
    requires window >= 1 && Cells(lo, hi) > window
    ensures var mid := WindowEnd(lo, window);
            lo < mid < hi && Cells(lo, mid) == window && Cells(mid, hi) == Cells(lo, hi) - window
  {
    var whole := Millis(lo) + window;
    var mid := WindowEnd(lo, window);
    assert mid * 1000.0 == whole as real && 1000.0 * mid == whole as real;
    assert (-(1000.0 * mid)).Floor == -whole;
  }

  lemma SomeCell(lo: real, hi: real)
    requires lo < hi
    ensures Cells(lo, hi) >= 1
  {
  }

  lemma Factors(a: nat, b: nat)
    requires a * b >= 1
    ensures a >= 1 && b >= 1
  {
  }

  lemma OneWindow(c: Limits, ip: string, arrivals: seq<Arrival>, lo: real, hi: real)
    requires Increasing(arrivals) && 1000 * c.ttl >= c.window && Cells(lo, hi) <= c.window
    ensures RealAdmissions(c, ip, arrivals, lo, hi) <= c.limit
  {
    hide Cells, RealAdmissions, Admissions, Millis, Increasing;
    RealOnGrid(c, ip, arrivals, lo, hi);
    IncreasingInOrder(arrivals);
    CallsOrdered(ip, arrivals);
    CallsDistinct(ip, arrivals);
    SlidingWindowBound(c, Calls(ip, arrivals), Millis(lo));
  }

  /** An interval that touches no more milliseconds than `k` windows have admits at most
      `k` times the limit. */
  lemma {:induction false} RealBound(c: Limits, ip: string, arrivals: seq<Arrival>, lo: real, hi: real, k: nat)
    requires Increasing(arrivals) && 1000 * c.ttl >= c.window && lo < hi && Cells(lo, hi) <= k * c.window
    ensures RealAdmissions(c, ip, arrivals, lo, hi) <= k * c.limit
    decreases k
  {
    hide RealAdmissions, Cells, WindowEnd;
    SomeCell(lo, hi);
    Factors(k, c.window);
    if Cells(lo, hi) <= c.window {
      OneWindow(c, ip, arrivals, lo, hi);
      MulGrows(k, c.limit);
    } else {
      var mid := WindowEnd(lo, c.window);
      FirstWindow(lo, hi, c.window);
      assert (k - 1) * c.window == k * c.window - c.window && (k - 1) * c.limit == k * c.limit - c.limit;
      SplitInterval(c, ip, arrivals, lo, mid, hi);
      OneWindow(c, ip, arrivals, lo, mid);
      RealBound(c, ip, arrivals, mid, hi, k - 1);
    }
  }

  // --- arrivals that pass it -------------------------------------------------------------

  /** Where layer `j` begins: at `lo`, then at each whole window of milliseconds after its own. */
  function LayerStart(lo: real, window: nat, j: nat): real {
    if j == 0 then lo else (Millis(lo) + j * window) as real / 1000.0
  }

  lemma LayerStartCell(lo: real, window: nat, j: nat)
    ensures Millis(LayerStart(lo, window, j)) == Millis(lo) + j * window
  {
    if j > 0 {
      var whole := Millis(lo) + j * window;
      assert whole as real / 1000.0 * 1000.0 == whole as real;
    } else {
      assert 0 * window == 0;
    }
  }

  function LastInstant(hi: real): real { (Ceiling(1000.0 * hi) - 1) as real / 1000.0 }

  lemma LastInstantCell(hi: real)
    ensures LastInstant(hi) < hi && Millis(LastInstant(hi)) == Ceiling(1000.0 * hi) - 1
  {
    var k := Ceiling(1000.0 * hi) - 1;
    assert k as real / 1000.0 * 1000.0 == k as real;
    assert k as real < 1000.0 * hi;
  }

  function Instant(c: Limits, lo: real, hi: real, k: nat, i: nat): real
    requires c.limit > 0
  {
    var (j, step) := DivMod(i, c.limit);
    if j >= k then LastInstant(hi)
    else StepsFrom(LayerStart(lo, c.window, j), CrowdStep(LayerStart(lo, c.window, j), c.limit), step)
  }

  /** The counterexample: `limit` arrivals in one millisecond of each of `k` windows, and one in the last. */
  function Layers(c: Limits, lo: real, hi: real, k: nat): seq<Arrival>
    requires c.limit > 0
  {
    seq(k * c.limit + 1, i requires 0 <= i => Arrival(Instant(c, lo, hi, k, i), false))
  }

  lemma InstantCell(c: Limits, lo: real, hi: real, k: nat, i: nat)
    requires c.limit > 0 && Cells(lo, hi) > k * c.window && i <= k * c.limit
    ensures var j := DivMod(i, c.limit).0;
            && (j < k ==> Millis(Instant(c, lo, hi, k, i)) == Millis(lo) + j * c.window)
            && (j >= k ==> i == k * c.limit && Millis(Instant(c, lo, hi, k, i)) >= Millis(lo) + k * c.window)
            && j <= k
  {
    hide Millis, Ceiling, StepsFrom, CrowdStep, LastInstant, LayerStart, DivMod;
    var (j, step) := DivMod(i, c.limit);
    QuotientBound(j, step, c.limit, k);
    if j < k {
      CrowdInCell(LayerStart(lo, c.window, j), c.limit, step);
      LayerStartCell(lo, c.window, j);
    } else {
      DivModUnique(k, 0, c.limit);
      LastInstantCell(hi);
    }
  }

  lemma InstantGrows(c: Limits, lo: real, hi: real, k: nat, i: nat, n: nat)
    requires c.limit > 0 && c.window >= 1 && Cells(lo, hi) > k * c.window && i < n <= k * c.limit
    ensures Instant(c, lo, hi, k, i) < Instant(c, lo, hi, k, n)
  {
    hide Millis, Cells, StepsFrom, CrowdStep, LastInstant, LayerStart, DivMod, Instant;
    InstantCell(c, lo, hi, k, i);
    InstantCell(c, lo, hi, k, n);
    var (j, x) := DivMod(i, c.limit);
    var (m, y) := DivMod(n, c.limit);
    LayersInOrder(j, x, m, y, c.limit);
    if j == m {
      SameLayer(c, lo, hi, k, i, n);
    } else {
      assert (m - j) * c.window == m * c.window - j * c.window;
      MulGrows(m - j, c.window);
      if Instant(c, lo, hi, k, n) <= Instant(c, lo, hi, k, i) {
        MillisMonotone(Instant(c, lo, hi, k, n), Instant(c, lo, hi, k, i));
      }
    }
  }

  lemma LayersInOrder(j: nat, x: nat, m: nat, y: nat, d: nat)
    requires x < d && y < d && j * d + x < m * d + y
    ensures j < m || (j == m && x < y)
  {
    if m < j {
      assert (j - m) * d == j * d - m * d;
      MulGrows(j - m, d);
    }
  }

  lemma SameLayer(c: Limits, lo: real, hi: real, k: nat, i: nat, n: nat)
    requires c.limit > 0 && i < n <= k * c.limit && DivMod(i, c.limit).0 == DivMod(n, c.limit).0
    ensures Instant(c, lo, hi, k, i) < Instant(c, lo, hi, k, n)
  {
    hide StepsFrom, CrowdStep, LastInstant, LayerStart, DivMod;
    var (j, x) := DivMod(i, c.limit);
    var y := DivMod(n, c.limit).1;
    LayersInOrder(j, x, j, y, c.limit);
    QuotientBound(j, x, c.limit, k);
    var start := LayerStart(lo, c.window, j);
    CrowdInCell(start, c.limit, x);
    StepsGrow(start, CrowdStep(start, c.limit), x, y);
  }

  lemma LayersIncreasing(c: Limits, lo: real, hi: real, k: nat)
    requires c.limit > 0 && c.window >= 1 && Cells(lo, hi) > k * c.window
    ensures Increasing(Layers(c, lo, hi, k))
  {
    hide Instant, Cells;
    forall i, n | 0 <= i < n < |Layers(c, lo, hi, k)|
      ensures Layers(c, lo, hi, k)[i].now < Layers(c, lo, hi, k)[n].now
    {
      InstantGrows(c, lo, hi, k, i, n);
    }
  }

  /** All but the first `m` requests come late enough: at most the rest are in the window. */
  lemma {:induction false} LateMembers(c: Limits, trace: seq<Call>, m: nat, start: int)
    requires Ordered(trace) && m <= |trace| && forall i :: 0 <= i < m ==> trace[i].now < start
    ensures |Members(c, trace, start)| <= |trace| - m
  {
    hide Admits, Ordered;
    if m == |trace| {
      NotYet(c, trace, start);
    } else {
      FrontOrdered(trace);
      LateMembers(c, trace[..|trace| - 1], m, start);
    }
  }

  /** The last of at most `limit` requests that come a window after all others is admitted. */
  lemma AdmittedInLayer(c: Limits, trace: seq<Call>, m: nat)
    requires Ordered(trace) && 1000 * c.ttl >= c.window && m < |trace| <= m + c.limit
    requires forall i :: 0 <= i < m ==> trace[i].now + c.window <= trace[|trace| - 1].now
    ensures Admits(c, trace)
  {
    hide Admits, Ordered, Members;
    FrontOrdered(trace);
    AdmittedExactly(c, trace);
    LateMembers(c, trace[..|trace| - 1], m, trace[|trace| - 1].now - c.window + 1);
  }

  lemma LayerAdmitted(c: Limits, ip: string, lo: real, hi: real, k: nat, n: nat)
    requires c.limit > 0 && c.window >= 1 && 1000 * c.ttl >= c.window && Cells(lo, hi) > k * c.window
    requires n <= k * c.limit
    ensures Admits(c, Calls(ip, Layers(c, lo, hi, k)[..n + 1]))
  {
    hide Instant, Cells, DivMod, Scripted, Admits, Millis, Increasing, InOrder, Ordered;
    var arrivals := Layers(c, lo, hi, k)[..n + 1];
    LayersIncreasing(c, lo, hi, k);
    PrefixIncreasing(Layers(c, lo, hi, k), n + 1);
    IncreasingInOrder(arrivals);
    CallsOrdered(ip, arrivals);
    var j := DivMod(n, c.limit).0;
    var trace := Calls(ip, arrivals);
    forall i | 0 <= i < j * c.limit ensures trace[i].now + c.window <= trace[n].now {
      EarlierLayer(c, lo, hi, k, i, n);
      ScriptedNow(ip, arrivals[i]);
      ScriptedNow(ip, arrivals[n]);
    }
    AdmittedInLayer(c, trace, j * c.limit);
  }

  /** What came before the layer of `n` came a window before. */
  lemma EarlierLayer(c: Limits, lo: real, hi: real, k: nat, i: nat, n: nat)
    requires c.limit > 0 && c.window >= 1 && Cells(lo, hi) > k * c.window && n <= k * c.limit
    requires i < DivMod(n, c.limit).0 * c.limit
    ensures i < n && Millis(Instant(c, lo, hi, k, i)) + c.window <= Millis(Instant(c, lo, hi, k, n))
  {
    hide Instant, Cells, DivMod, Millis;
    InstantCell(c, lo, hi, k, n);
    InstantCell(c, lo, hi, k, i);
    var (j, x) := DivMod(i, c.limit);
    var m := DivMod(n, c.limit).0;
    QuotientBound(j, x, c.limit, m);
    assert (m - j) * c.window == m * c.window - j * c.window;
    MulGrows(m - j, c.window);
  }

  lemma PrefixIncreasing(arrivals: seq<Arrival>, n: nat)
    requires Increasing(arrivals) && n <= |arrivals|
    ensures Increasing(arrivals[..n])
  {
  }

  ghost predicate AdmittedAt(c: Limits, ip: string, arrivals: seq<Arrival>, i: nat)
    requires i < |arrivals|
  {
    Admits(c, Calls(ip, arrivals[..i + 1]))
  }

  lemma {:induction false} AllAdmitted(c: Limits, ip: string, arrivals: seq<Arrival>, n: nat, lo: real, hi: real)
    requires n <= |arrivals| && forall i :: 0 <= i < n ==> lo <= arrivals[i].now < hi
    requires forall i: nat :: i < n ==> AdmittedAt(c, ip, arrivals, i)
    ensures RealAdmissions(c, ip, arrivals[..n], lo, hi) == n
  {
    hide Admits, Calls;
    if n > 0 {
      AllAdmitted(c, ip, arrivals, n - 1, lo, hi);
      assert arrivals[..n][..n - 1] == arrivals[..n - 1];
      assert AdmittedAt(c, ip, arrivals, n - 1);
    }
  }

  lemma LayersWithin(c: Limits, lo: real, hi: real, k: nat, i: nat)
    requires k >= 1 && c.limit > 0 && c.window >= 1 && Cells(lo, hi) > k * c.window && i <= k * c.limit
    ensures lo <= Instant(c, lo, hi, k, i) < hi
  {
    hide Instant, Cells, DivMod, Millis, LastInstant;
    FirstAndLast(c, lo, hi, k);
    LastInstantCell(hi);
    if i > 0 { InstantGrows(c, lo, hi, k, 0, i); }
    if i < k * c.limit { InstantGrows(c, lo, hi, k, i, k * c.limit); }
  }

  lemma FirstAndLast(c: Limits, lo: real, hi: real, k: nat)
    requires k >= 1 && c.limit > 0
    ensures Instant(c, lo, hi, k, 0) == lo && Instant(c, lo, hi, k, k * c.limit) == LastInstant(hi)
  {
    hide DivMod, CrowdStep, LastInstant;
    DivModUnique(0, 0, c.limit);
    DivModUnique(k, 0, c.limit);
    assert 0 * c.limit + 0 == 0;
  }

  lemma LayersExceed(c: Limits, ip: string, lo: real, hi: real, k: nat)
    requires k >= 1 && c.limit > 0 && c.window >= 1 && 1000 * c.ttl >= c.window && Cells(lo, hi) > k * c.window
    ensures RealAdmissions(c, ip, Layers(c, lo, hi, k), lo, hi) == k * c.limit + 1
  {
    hide Instant, Cells, Admits, Calls;
    var arrivals := Layers(c, lo, hi, k);
    forall i: nat | i < |arrivals| ensures lo <= arrivals[i].now < hi && AdmittedAt(c, ip, arrivals, i) {
      LayersWithin(c, lo, hi, k, i);
      LayerAdmitted(c, ip, lo, hi, k, i);
    }
    AllAdmitted(c, ip, arrivals, |arrivals|, lo, hi);
    assert arrivals[..|arrivals|] == arrivals;
  }

  /** The bound on a real interval, exactly: clients whose arrivals never share an
      instant get at most `k` times the limit in `[lo, hi)`, whatever they send, if and
      only if the interval touches no more milliseconds than `k` windows have. */
  lemma OffGridExactly(c: Limits, ip: string, lo: real, hi: real, k: nat)
    requires c.limit >= 1 && c.window >= 1 && 1000 * c.ttl >= c.window && lo < hi && k >= 1
    ensures (forall arrivals :: Increasing(arrivals) ==> RealAdmissions(c, ip, arrivals, lo, hi) <= k * c.limit)
            <==> Cells(lo, hi) <= k * c.window
  {
    hide Cells, RealAdmissions, Increasing, Layers;
    if Cells(lo, hi) <= k * c.window {
      forall arrivals | Increasing(arrivals) ensures RealAdmissions(c, ip, arrivals, lo, hi) <= k * c.limit {
        RealBound(c, ip, arrivals, lo, hi, k);
      }
    } else {
      LayersIncreasing(c, lo, hi, k);
      LayersExceed(c, ip, lo, hi, k);
    }
  }

  /** A real interval as long as the configured window touches at most two milliseconds
      more than the script's window has, one more where that is whole. */
  lemma WindowCells(seconds: real, window: nat, lo: real, hi: real)
    requires window == (1000.0 * seconds).Floor && hi - lo <= seconds
    ensures Cells(lo, hi) <= window + 2
    ensures 1000.0 * seconds == window as real ==> Cells(lo, hi) <= window + 1
  {
    assert 1000.0 * hi - 1000.0 * lo <= 1000.0 * seconds;
  }

  /** Such an interval need not be covered: less than a second long, it touches 1001 milliseconds. */
  lemma OffGridExample()
    ensures 1.0002 - 0.0005 < 1.0 && Cells(0.0005, 1.0002) == 1001
  {
    assert (0.0005 * 1000.0).Floor == 0 && (-(1000.0 * 1.0002)).Floor == -1001;
  }

  /** How many windows of the script cover a real one: two, or three where the script's
      is a single millisecond cut from a longer one. */
  function Covering(seconds: real, window: nat): nat {
    if window >= 2 || 1000.0 * seconds == window as real then 2 else 3
  }

  /** So every real window admits at most twice the limit. */
  lemma RealWindowBound(c: Limits, ip: string, arrivals: seq<Arrival>, seconds: real, lo: real, hi: real)
    requires Increasing(arrivals) && 1000 * c.ttl >= c.window && c.window >= 1 && c.window == (1000.0 * seconds).Floor
    requires lo < hi && hi - lo <= seconds
    ensures RealAdmissions(c, ip, arrivals, lo, hi) <= Covering(seconds, c.window) * c.limit
  {
    hide Cells, RealAdmissions, Increasing;
    WindowCells(seconds, c.window, lo, hi);
    RealBound(c, ip, arrivals, lo, hi, Covering(seconds, c.window));
  }
}
