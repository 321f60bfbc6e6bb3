/** The script as clients call it (rate_limiter_redis.py, `_redis_sliding_window`): a
    member holds its instant and the score its whole milliseconds. Where instants repeat
    or come out of order, the window bound holds on an exact condition. */
module WindowLimits {
  import opened SlidingWindow

  // --- instants ------------------------------------------------------------------------

  /** What `f"{now}-{client_ip}"` is made of; `MemberText.TextIsEnough` goes back to the text. */
  datatype Member = Member(now: real, ip: string)

  type Call = Request<Member>

  /** `int(now * 1000)` */
  function Millis(now: real): int { (now * 1000.0).Floor }

  function Ceiling(x: real): int { -((-x).Floor) }

  /** A request of the client as it arrives. */
  datatype Arrival = Arrival(now: real, expire: bool)

  function Scripted(ip: string, a: Arrival): Call { Request(Millis(a.now), Member(a.now, ip), a.expire) }

  function Calls(ip: string, arrivals: seq<Arrival>): (trace: seq<Call>)
    ensures |trace| == |arrivals|
  {
    seq(|arrivals|, i requires 0 <= i < |arrivals| => Scripted(ip, arrivals[i]))
  }

  lemma CallsSnoc(ip: string, arrivals: seq<Arrival>)
    requires arrivals != []
    ensures Calls(ip, arrivals)[..|arrivals| - 1] == Calls(ip, arrivals[..|arrivals| - 1])
    ensures Calls(ip, arrivals)[|arrivals| - 1] == Scripted(ip, arrivals[|arrivals| - 1])
  {
  }

  ghost predicate InOrder(arrivals: seq<Arrival>) {
    forall i, j :: 0 <= i < j < |arrivals| ==> arrivals[i].now <= arrivals[j].now
  }

  /** In order and no two at one instant. */
  ghost predicate Increasing(arrivals: seq<Arrival>) {
    forall i, j :: 0 <= i < j < |arrivals| ==> arrivals[i].now < arrivals[j].now
  }

  lemma CallsOrdered(ip: string, arrivals: seq<Arrival>)
    requires InOrder(arrivals)
    ensures Ordered(Calls(ip, arrivals))
  {
    forall i, j | 0 <= i < j < |arrivals| ensures Calls(ip, arrivals)[i].now <= Calls(ip, arrivals)[j].now {
      MillisMonotone(arrivals[i].now, arrivals[j].now);
    }
  }

  lemma MillisMonotone(a: real, b: real)
    requires a <= b
    ensures Millis(a) <= Millis(b)
  {
  }

  lemma CallsDistinct(ip: string, arrivals: seq<Arrival>)
    requires Increasing(arrivals)
    ensures DistinctMembers(Calls(ip, arrivals))
  {
  }

  // --- off the grid -----------------------------------------------------------------------

  /** Admissions at instants in the real interval `[lo, hi)`. */
  function RealAdmissions(c: Limits, ip: string, arrivals: seq<Arrival>, lo: real, hi: real): nat {
    if arrivals == [] then 0
    else
      RealAdmissions(c, ip, arrivals[..|arrivals| - 1], lo, hi)
      + if Admits(c, Calls(ip, arrivals)) && lo <= arrivals[|arrivals| - 1].now < hi then 1 else 0
  }

  /** The milliseconds an interval touches. */
  function Cells(lo: real, hi: real): int { Ceiling(1000.0 * hi) - Millis(lo) }

  lemma CellWithin(c: Limits, lo: real, hi: real, now: real)
    requires Cells(lo, hi) <= c.window && lo <= now < hi
    ensures Within(c, Millis(lo), Millis(now))
  {
  }

  lemma {:induction false} RealOnGrid(c: Limits, ip: string, arrivals: seq<Arrival>, lo: real, hi: real)
    requires Cells(lo, hi) <= c.window
    ensures RealAdmissions(c, ip, arrivals, lo, hi) <= Admissions(c, Calls(ip, arrivals), Millis(lo))
  {
    hide Admits, Within, Scripted, Millis, Cells;
    if arrivals != [] {
      RealOnGrid(c, ip, arrivals[..|arrivals| - 1], lo, hi);
      CallsSnoc(ip, arrivals);
      var now := arrivals[|arrivals| - 1].now;
      if lo <= now < hi { CellWithin(c, lo, hi, now); }
      assert Scripted(ip, arrivals[|arrivals| - 1]).now == Millis(now) by { ScriptedNow(ip, arrivals[|arrivals| - 1]); }
    }
  }

  lemma ScriptedNow(ip: string, a: Arrival)
    ensures Scripted(ip, a).now == Millis(a.now) && Scripted(ip, a).expire == a.expire
  {
  }

  function StepsFrom(lo: real, step: real, i: nat): real { lo + i as real * step }

  /** `n` arrivals a small step apart. */
  function Crowd(lo: real, step: real, n: nat): seq<Arrival> {
    seq(n, i requires 0 <= i < n => Arrival(StepsFrom(lo, step, i), false))
  }

  /** The step that keeps `n` arrivals from `lo` within its millisecond. */
  function CrowdStep(lo: real, n: nat): real
    requires n > 0
  {
    ((Millis(lo) + 1) as real / 1000.0 - lo) / n as real
  }

  lemma TimesBelow(i: nat, n: nat, step: real, whole: real)
    requires i < n && step > 0.0 && n as real * step == whole
    ensures 0.0 <= i as real * step < whole
  {
    assert (n - i) as real * step > 0.0;
    assert n as real * step == i as real * step + (n - i) as real * step;
  }

  lemma CrowdInCell(lo: real, n: nat, i: nat)
    requires i < n
    ensures CrowdStep(lo, n) > 0.0
    ensures lo <= StepsFrom(lo, CrowdStep(lo, n), i) < (Millis(lo) + 1) as real / 1000.0
    ensures Millis(StepsFrom(lo, CrowdStep(lo, n), i)) == Millis(lo)
  {
    var gap := (Millis(lo) + 1) as real / 1000.0 - lo;
    assert gap > 0.0;
    var step := CrowdStep(lo, n);
    PositiveQuotient(gap, n);
    TimesBelow(i, n, step, gap);
    SameCell(lo, StepsFrom(lo, step, i));
  }

  lemma PositiveQuotient(gap: real, n: nat)
    requires gap > 0.0 && n > 0
    ensures gap / n as real > 0.0 && n as real * (gap / n as real) == gap
  {
  }

  lemma SameCell(lo: real, now: real)
    requires lo <= now < (Millis(lo) + 1) as real / 1000.0
    ensures Millis(now) == Millis(lo)
  {
  }

  lemma CrowdIncreasing(lo: real, step: real, n: nat)
    requires step > 0.0
    ensures Increasing(Crowd(lo, step, n))
  {
    hide StepsFrom;
    forall i, j | 0 <= i < j < n ensures Crowd(lo, step, n)[i].now < Crowd(lo, step, n)[j].now {
      StepsGrow(lo, step, i, j);
    }
  }

  lemma StepsGrow(lo: real, step: real, i: nat, j: nat)
    requires step > 0.0 && i < j
    ensures StepsFrom(lo, step, i) < StepsFrom(lo, step, j)
  {
    var more: real := (j - i) as real;
    assert more * step > 0.0;
    assert j as real == i as real + more;
    assert j as real * step == i as real * step + more * step;
  }

  /** A log holds no more entries than it was asked for. */
  lemma {:induction false} EntriesAtMost(c: Limits, trace: seq<Call>)
    ensures |Run(c, trace).entries| <= |trace|
  {
    if trace != [] {
      var front := trace[..|trace| - 1];
      var r := trace[|trace| - 1];
      EntriesAtMost(c, front);
      var existing := Existing(Run(c, front), r);
      assert |existing| <= |Run(c, front).entries| by {
        if existing == map[] { assert |existing| == 0; }
      }
      PruneSubset(existing, r.now, c.window);
      var kept := Prune(existing, r.now, c.window);
      assert kept[r.member := r.now].Keys == kept.Keys + {r.member};
    }
  }

  /** Fewer requests than the limit are all admitted. */
  lemma AdmittedBelowLimit(c: Limits, trace: seq<Call>)
    requires trace != [] && |trace| <= c.limit
    ensures Admits(c, trace)
  {
    var front := trace[..|trace| - 1];
    var r := trace[|trace| - 1];
    EntriesAtMost(c, front);
    PruneSubset(Existing(Run(c, front), r), r.now, c.window);
  }

  /** A request a whole window after everything before it is admitted, and alone in the log. */
  lemma AdmittedAfterWindow(c: Limits, trace: seq<Call>, last: int)
    requires trace != [] && Ordered(trace) && c.limit >= 1
    requires forall i :: 0 <= i < |trace| - 1 ==> trace[i].now <= last
    requires last + c.window <= trace[|trace| - 1].now
    ensures Admits(c, trace)
    ensures Run(c, trace).entries == map[trace[|trace| - 1].member := trace[|trace| - 1].now]
  {
    var front := trace[..|trace| - 1];
    var r := trace[|trace| - 1];
    FrontOrdered(trace);
    LogBounded(c, front);
    var existing := Existing(Run(c, front), r);
    assert forall m :: m in existing ==> existing[m] <= last by {
      if front != [] { assert front[|front| - 1].now <= last; }
    }
    assert Prune(existing, r.now, c.window) == map[];
  }

  lemma IncreasingInOrder(arrivals: seq<Arrival>)
    requires Increasing(arrivals)
    ensures InOrder(arrivals)
  {
  }

  // --- repeated instants --------------------------------------------------------------------

  function Burst(r: Call, n: nat): seq<Call> { seq(n, _ => r) }

  /** How many of `n` equal requests pass on a log with `k` live entries. */
  function BurstPasses(limit: nat, k: nat, n: nat): nat {
    if k >= limit || n == 0 then 0 else if k + 1 == limit then 1 else n
  }

  lemma BurstSnoc(front: seq<Call>, r: Call, n: nat)
    requires n > 0
    ensures (front + Burst(r, n))[..|front| + n - 1] == front + Burst(r, n - 1)
    ensures (front + Burst(r, n))[|front| + n - 1] == r
  {
  }

  lemma BurstOrdered(front: seq<Call>, r: Call, n: nat)
    requires Ordered(front + [r])
    ensures Ordered(front + Burst(r, n))
  {
    var t := front + Burst(r, n);
    forall i, j | 0 <= i < j < |t| ensures t[i].now <= t[j].now {
      if i < |front| {
        assert (front + [r])[i] == front[i];
        assert j >= |front| ==> (front + [r])[i].now <= (front + [r])[|front|].now;
        assert j < |front| ==> (front + [r])[j] == front[j];
      }
    }
  }

  /** What `n` equal requests on a log with `k` live entries leave behind. */
  ghost predicate BurstLeaves(c: Limits, front: seq<Call>, r: Call, n: nat) {
    var start := r.now - c.window + 1;
    var live := Members(c, front, start);
    && Admissions(c, front + Burst(r, n), start) == Admissions(c, front, start) + BurstPasses(c.limit, |live|, n)
    && Members(c, front + Burst(r, n), start) == live + if |live| < c.limit && n > 0 then {r.member} else {}
  }

  lemma BurstStep(c: Limits, front: seq<Call>, r: Call, n: nat)
    requires n > 0 && c.window >= 1 && BurstLeaves(c, front, r, n - 1)
    requires r.member !in Members(c, front, r.now - c.window + 1)
    requires Admits(c, front + Burst(r, n))
             <==> |Members(c, front + Burst(r, n - 1), r.now - c.window + 1)| < c.limit
    ensures BurstLeaves(c, front, r, n)
  {
    hide Admits, Burst, BurstPasses;
    var start := r.now - c.window + 1;
    var t := front + Burst(r, n);
    BurstSnoc(front, r, n);
    assert |t| == |front| + n by { BurstLength(r, n); }
    BurstCount(c.limit, Members(c, front, start), r.member, n);
  }

  lemma BurstLength(r: Call, n: nat)
    ensures |Burst(r, n)| == n
  {
  }

  /** Equal requests on a log with `k` live entries: all pass if `k + 1` is below the
      limit, one if it meets the limit, none on a full log. */
  lemma {:induction false} BurstExactly(c: Limits, front: seq<Call>, r: Call, n: nat)
    requires Ordered(front + [r]) && c.window >= 1 && 1000 * c.ttl >= c.window
    requires r.member !in Members(c, front, r.now - c.window + 1)
    ensures BurstLeaves(c, front, r, n)
  {
    hide Admits, Members, Admissions, Ordered, BurstPasses;
    if n == 0 {
      assert front + Burst(r, 0) == front;
      NonePass(c, front, r);
    } else {
      BurstExactly(c, front, r, n - 1);
      BurstSnoc(front, r, n);
      BurstLength(r, n);
      BurstOrdered(front, r, n);
      AdmittedExactly(c, front + Burst(r, n));
      BurstStep(c, front, r, n);
    }
  }

  lemma NonePass(c: Limits, front: seq<Call>, r: Call)
    requires front + Burst(r, 0) == front
    ensures BurstLeaves(c, front, r, 0)
  {
    hide Members, Admissions;
  }

  lemma BurstCount(limit: nat, live: set<Member>, m: Member, n: nat)
    requires n > 0 && m !in live
    ensures var k := |live|;
            var now := live + if k < limit && n - 1 > 0 then {m} else {};
            && BurstPasses(limit, k, n) == BurstPasses(limit, k, n - 1) + (if |now| < limit then 1 else 0)
            && (|now| < limit ==> now + {m} == live + {m} && k < limit)
            && (|now| >= limit ==> now == live + if k < limit then {m} else {})
  {
    assert |live + {m}| == |live| + 1;
    assert live + {} == live;
  }

  /** When a new member is sent `n` times after distinct ones, `k` of them admitted in
      the window that ends there: the window exceeds the limit exactly if
      `k + 1 < limit < k + n`. */
  lemma BurstExceeds(c: Limits, front: seq<Call>, r: Call, n: nat)
    requires Ordered(front + [r]) && DistinctMembers(front + [r]) && c.window >= 1 && 1000 * c.ttl >= c.window
    ensures var start := r.now - c.window + 1;
            var k := Admissions(c, front, start);
            Admissions(c, front + Burst(r, n), start) > c.limit <==> k + 1 < c.limit < k + n
  {
    hide Admissions, Members, Ordered, DistinctMembers, Burst;
    var start := r.now - c.window + 1;
    FrontInOrder(front, r);
    FrontDistinct(front, r);
    AdmissionsAreMembers(c, front, start);
    NewMember(c, front, r, start);
    WindowBound(c, front, start);
    BurstExactly(c, front, r, n);
  }

  lemma FrontInOrder(front: seq<Call>, r: Call)
    requires Ordered(front + [r])
    ensures Ordered(front)
  {
    assert (front + [r])[..|front|] == front;
    FrontOrdered(front + [r]);
  }

  lemma CallsAppend(ip: string, arrivals: seq<Arrival>, a: Arrival)
    ensures Calls(ip, arrivals + [a]) == Calls(ip, arrivals) + [Scripted(ip, a)]
  {
    hide Scripted;
  }

  /** The same of a client's instants: `n` requests at one instant after arrivals at
      earlier, different ones. */
  lemma RepeatsExactly(c: Limits, ip: string, arrivals: seq<Arrival>, a: Arrival, n: nat)
    requires Increasing(arrivals + [a]) && c.window >= 1 && 1000 * c.ttl >= c.window
    ensures var start := Millis(a.now) - c.window + 1;
            var k := Admissions(c, Calls(ip, arrivals), start);
            Admissions(c, Calls(ip, arrivals) + Burst(Scripted(ip, a), n), start) > c.limit
            <==> k + 1 < c.limit < k + n
  {
    hide Admissions, Millis, Increasing, InOrder, Ordered, DistinctMembers, Burst, Calls, Scripted;
    ScriptedNow(ip, a);
    CallsAppend(ip, arrivals, a);
    IncreasingInOrder(arrivals + [a]);
    CallsOrdered(ip, arrivals + [a]);
    CallsDistinct(ip, arrivals + [a]);
    BurstExceeds(c, Calls(ip, arrivals), Scripted(ip, a), n);
  }

  lemma FrontDistinct(front: seq<Call>, r: Call)
    requires DistinctMembers(front + [r])
    ensures DistinctMembers(front)
    ensures forall i :: 0 <= i < |front| ==> front[i].member != r.member
  {
    assert forall i :: 0 <= i < |front| ==> (front + [r])[i] == front[i];
    assert (front + [r])[|front|] == r;
  }

  lemma NewMember(c: Limits, front: seq<Call>, r: Call, start: int)
    requires forall i :: 0 <= i < |front| ==> front[i].member != r.member
    ensures r.member !in Members(c, front, start)
  {
    if r.member in Members(c, front, start) {
      MembersFromTrace(c, front, start, r.member);
    }
  }

  /** Below two slots no window holds a member twice. */
  lemma {:induction false} OneSlotNoRepeats(c: Limits, trace: seq<Call>, start: int)
    requires c.limit <= 1 && Ordered(trace) && 1000 * c.ttl >= c.window
    ensures Admissions(c, trace, start) == |Members(c, trace, start)|
  {
    if trace != [] {
      hide Admits, Ordered;
      var front := trace[..|trace| - 1];
      FrontOrdered(trace);
      OneSlotNoRepeats(c, front, start);
      if Admits(c, trace) && Within(c, start, trace[|trace| - 1].now) {
        OneSlotNewMember(c, trace, start);
      }
    }
  }

  /** With one slot an admitted request's member is not in the window yet. */
  lemma OneSlotNewMember(c: Limits, trace: seq<Call>, start: int)
    requires c.limit <= 1 && Ordered(trace) && 1000 * c.ttl >= c.window
    requires trace != [] && Admits(c, trace) && Within(c, start, trace[|trace| - 1].now)
    ensures trace[|trace| - 1].member !in Members(c, trace[..|trace| - 1], start)
  {
    hide Admits, Ordered, Members;
    var front := trace[..|trace| - 1];
    var r := trace[|trace| - 1];
    FrontOrdered(trace);
    AdmittedExactly(c, trace);
    var live := Members(c, front, r.now - c.window + 1);
    assert live == {};
    if r.member in Members(c, front, start) {
      MembersNarrow(c, front, start, r.now - c.window + 1, r.member, r.now);
    }
  }

  /** A member of a window that `now` has not left is a member of the window ending at `now`. */
  lemma {:induction false} MembersNarrow(c: Limits, trace: seq<Call>, start: int, later: int, m: Member, now: int)
    requires m in Members(c, trace, start) && Ordered(trace) && (trace != [] ==> trace[|trace| - 1].now <= now)
    requires later == now - c.window + 1 && start <= now < start + c.window
    ensures m in Members(c, trace, later)
  {
    hide Run, Script;
    var front := trace[..|trace| - 1];
    if m in Members(c, front, start) {
      FrontOrdered(trace);
      MembersNarrow(c, front, start, later, m, now);
    }
  }

  /** Instants may repeat: then the window bound holds for everything a client can send,
      in time order, if and only if the limit is at most one. */
  lemma RepeatsAllowedExactly(c: Limits, ip: string)
    requires c.window >= 1 && 1000 * c.ttl >= c.window
    ensures (forall arrivals, start :: InOrder(arrivals) ==> Admissions(c, Calls(ip, arrivals), start) <= c.limit)
            <==> c.limit <= 1
  {
    hide Admissions, Members, Calls;
    if c.limit <= 1 {
      forall arrivals, start | InOrder(arrivals) ensures Admissions(c, Calls(ip, arrivals), start) <= c.limit {
        CallsOrdered(ip, arrivals);
        OneSlotNoRepeats(c, Calls(ip, arrivals), start);
        WindowBound(c, Calls(ip, arrivals), start);
      }
    } else {
      var a := Arrival(0.0, false);
      var n := c.limit + 1;
      var arrivals := seq(n, _ => a);
      var start := Millis(a.now) - c.window + 1;
      RepeatsExactly(c, ip, [], a, n);
      EmptyCalls(c, ip, a, n, start);
      assert Admissions(c, Calls(ip, arrivals), start) > c.limit;
    }
  }

  lemma EmptyCalls(c: Limits, ip: string, a: Arrival, n: nat, start: int)
    ensures Admissions(c, Calls(ip, []), start) == 0
    ensures Calls(ip, seq(n, _ => a)) == Calls(ip, []) + Burst(Scripted(ip, a), n)
    ensures InOrder(seq(n, _ => a)) && Increasing([] + [a])
  {
  }

  // --- instants in any order ------------------------------------------------------------------

  /** No two arrivals at one instant; in whatever order the clocks of the callers put them. */
  ghost predicate Different(arrivals: seq<Arrival>) {
    forall i, j :: 0 <= i < j < |arrivals| ==> arrivals[i].now != arrivals[j].now
  }

  /** With one slot the log holds the latest admission, and it bars every window it is in. */
  ghost predicate OneSlot(c: Limits, trace: seq<Call>, start: int) {
    var log := Run(c, trace);
    && |log.entries| <= 1
    && (forall m :: m in log.entries ==> log.entries[m] + c.window <= log.expiresAt)
    && Admissions(c, trace, start) <= c.limit
    && (Admissions(c, trace, start) > 0 ==> exists m :: m in log.entries && log.entries[m] >= start)
  }

  lemma {:induction false} OneSlotAnyOrder(c: Limits, trace: seq<Call>, start: int)
    requires c.limit <= 1 && 1000 * c.ttl >= c.window
    ensures OneSlot(c, trace, start)
  {
    if trace != [] {
      OneSlotAnyOrder(c, trace[..|trace| - 1], start);
      OneSlotStep(c, trace, start);
    }
  }

  lemma OneSlotStep(c: Limits, trace: seq<Call>, start: int)
    requires c.limit <= 1 && 1000 * c.ttl >= c.window
    requires trace != [] && OneSlot(c, trace[..|trace| - 1], start)
    ensures OneSlot(c, trace, start)
  {
    var r := trace[|trace| - 1];
    var log := Run(c, trace[..|trace| - 1]);
    var kept := Prune(Existing(log, r), r.now, c.window);
    PruneSubset(Existing(log, r), r.now, c.window);
    if kept == map[] {
      assert kept[r.member := r.now] == map[r.member := r.now];
      if Admissions(c, trace[..|trace| - 1], start) > 0 {
        var m :| m in log.entries && log.entries[m] >= start;
        assert m !in kept;
        assert r.now >= start + c.window;
      }
      if c.limit == 1 { assert Run(c, trace).entries == map[r.member := r.now]; }
    } else {
      var m :| m in kept;
      assert |kept| > 0;
      OnlyOne(log.entries, m);
    }
  }

  lemma OnlyOne(entries: map<Member, int>, m: Member)
    requires |entries| <= 1 && m in entries
    ensures forall k :: k in entries ==> k == m
  {
    forall k | k in entries ensures k == m {
      if k != m {
        assert {k, m} <= entries.Keys;
        SubsetSize({k, m}, entries.Keys);
      }
    }
  }

  /** The counterexample: all slots but one in the first millisecond are taken, a clock
      ahead by a window empties the log, and one behind it takes another. */
  function Behind(c: Limits): seq<Arrival>
    requires c.limit > 0
  {
    var n := c.limit + 1;
    Crowd(0.0, CrowdStep(0.0, n), c.limit) + [Arrival(c.window as real / 1000.0, false)]
    + [Arrival(StepsFrom(0.0, CrowdStep(0.0, n), c.limit), false)]
  }

  lemma {:induction false} CrowdOnGrid(c: Limits, ip: string, step: real, n: nat)
    requires n <= c.limit && c.window >= 1 && forall i: nat :: i < n ==> Millis(StepsFrom(0.0, step, i)) == 0
    ensures Admissions(c, Calls(ip, Crowd(0.0, step, n)), 0) == n
  {
    hide Admits, Scripted, StepsFrom, Millis;
    if n > 0 {
      var arrivals := Crowd(0.0, step, n);
      assert arrivals[..n - 1] == Crowd(0.0, step, n - 1);
      CrowdOnGrid(c, ip, step, n - 1);
      CallsSnoc(ip, arrivals);
      ScriptedNow(ip, arrivals[n - 1]);
      AdmittedBelowLimit(c, Calls(ip, arrivals));
    }
  }

  /** Room for one more whatever its instant, if the log holds one entry and two fit. */
  lemma OneEntryAdmits(c: Limits, trace: seq<Call>)
    requires trace != [] && c.limit > 1 && |Run(c, trace[..|trace| - 1]).entries| <= 1
    ensures Admits(c, trace)
  {
    var existing := Existing(Run(c, trace[..|trace| - 1]), trace[|trace| - 1]);
    PruneSubset(existing, trace[|trace| - 1].now, c.window);
  }

  lemma BehindExceeds(c: Limits, ip: string)
    requires c.limit > 1 && c.window >= 1
    ensures Different(Behind(c)) && Admissions(c, Calls(ip, Behind(c)), 0) > c.limit
  {
    hide Admits, Scripted, StepsFrom, Millis, Run, CrowdStep;
    var n := c.limit + 1;
    var step := CrowdStep(0.0, n);
    var crowd := Crowd(0.0, step, c.limit);
    var ahead := Arrival(c.window as real / 1000.0, false);
    var late := Arrival(StepsFrom(0.0, step, c.limit), false);
    assert Millis(0.0) == 0 && Millis(ahead.now) == c.window by { WholeMillis(c.window); }
    forall i: nat | i < n ensures Millis(StepsFrom(0.0, step, i)) == 0 && StepsFrom(0.0, step, i) < ahead.now {
      CrowdInCell(0.0, n, i);
      if StepsFrom(0.0, step, i) >= ahead.now { MillisMonotone(ahead.now, StepsFrom(0.0, step, i)); }
    }
    CrowdInCell(0.0, n, 0);
    CrowdOnGrid(c, ip, step, c.limit);
    CrowdIncreasing(0.0, step, n);
    BehindDifferent(crowd, ahead, late, Crowd(0.0, step, n));
    AheadAdmitted(c, ip, crowd, ahead);
    LateAdmitted(c, ip, crowd, ahead, late);
  }

  lemma WholeMillis(k: nat)
    ensures Millis(0.0) == 0 && Millis(k as real / 1000.0) == k
  {
    assert k as real / 1000.0 * 1000.0 == k as real;
  }

  lemma AheadAdmitted(c: Limits, ip: string, crowd: seq<Arrival>, ahead: Arrival)
    requires c.limit > 0 && InOrder(crowd + [ahead]) && Millis(ahead.now) == c.window
    requires forall i :: 0 <= i < |crowd| ==> Millis(crowd[i].now) == 0
    ensures |Run(c, Calls(ip, crowd + [ahead])).entries| == 1
  {
    hide Admits, Scripted, Millis, Run;
    var trace := Calls(ip, crowd + [ahead]);
    CallsOrdered(ip, crowd + [ahead]);
    forall i | 0 <= i < |crowd| ensures trace[i].now <= 0 { ScriptedNow(ip, (crowd + [ahead])[i]); }
    ScriptedNow(ip, ahead);
    AdmittedAfterWindow(c, trace, 0);
  }

  lemma LateAdmitted(c: Limits, ip: string, crowd: seq<Arrival>, ahead: Arrival, late: Arrival)
    requires c.limit > 1 && c.window >= 1 && |Run(c, Calls(ip, crowd + [ahead])).entries| == 1
    requires Admissions(c, Calls(ip, crowd), 0) == c.limit && Millis(late.now) == 0
    ensures Admissions(c, Calls(ip, crowd + [ahead] + [late]), 0) > c.limit
  {
    hide Admits, Scripted, Millis, Run, Calls;
    CallsAppend(ip, crowd, ahead);
    CallsAppend(ip, crowd + [ahead], late);
    ScriptedNow(ip, late);
    var trace := Calls(ip, crowd + [ahead] + [late]);
    assert trace[..|trace| - 1] == Calls(ip, crowd + [ahead]);
    assert Calls(ip, crowd + [ahead])[..|crowd|] == Calls(ip, crowd);
    OneEntryAdmits(c, trace);
  }

  lemma BehindDifferent(crowd: seq<Arrival>, ahead: Arrival, late: Arrival, whole: seq<Arrival>)
    requires Increasing(whole) && whole == crowd + [late] && forall i :: 0 <= i < |whole| ==> whole[i].now < ahead.now
    ensures Different(crowd + [ahead] + [late]) && InOrder(crowd + [ahead])
  {
    var s := crowd + [ahead] + [late];
    assert forall i :: 0 <= i < |crowd| ==> s[i] == whole[i];
    assert whole[|crowd|] == late;
    assert forall i :: 0 <= i < |crowd| ==> (crowd + [ahead])[i] == whole[i];
  }

  /** Clocks may step back or differ between callers: then the window bound holds for
      everything a client can send at different instants, if and only if the limit is
      at most one. */
  lemma AnyOrderExactly(c: Limits, ip: string)
    requires c.window >= 1 && 1000 * c.ttl >= c.window
    ensures (forall arrivals, start :: Different(arrivals) ==> Admissions(c, Calls(ip, arrivals), start) <= c.limit)
            <==> c.limit <= 1
  {
    hide Admissions, Calls, Behind, Run;
    if c.limit <= 1 {
      forall arrivals, start | Different(arrivals) ensures Admissions(c, Calls(ip, arrivals), start) <= c.limit {
        OneSlotAnyOrder(c, Calls(ip, arrivals), start);
      }
    } else {
      BehindExceeds(c, ip);
    }
  }
}
