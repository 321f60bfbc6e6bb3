/** The Redis sliding-window log (rate_limiter_redis.py, `_SLIDING_WINDOW_LUA`). */
module SlidingWindow {

  /** The sorted set under one key, and when the key expires (milliseconds). */
  datatype Log<M(==)> = Log(entries: map<M, int>, expiresAt: int)

  function Empty<M(==)>(): Log<M> { Log(map[], 0) }

  datatype Limits = Limits(limit: nat, window: nat, ttl: nat)

  /** A request as the script sees it; `expire` says whether the server has dropped
      an expired key by then, which it may do at any time from the expiry on. */
  datatype Request<M(==)> = Request(now: int, member: M, expire: bool)

  function Existing<M(==)>(log: Log<M>, r: Request<M>): map<M, int> {
    if r.expire && log.expiresAt <= r.now then map[] else log.entries
  }

  /** `ZREMRANGEBYSCORE key -inf now - window` */
  function Prune<M(==)>(entries: map<M, int>, now: int, window: nat): map<M, int> {
    map m | m in entries && entries[m] > now - window :: entries[m]
  }

  /** One run of the script. */
  function Script<M(==)>(c: Limits, log: Log<M>, r: Request<M>): (Log<M>, bool) {
    var kept := Prune(Existing(log, r), r.now, c.window);
    if |kept| < c.limit then (Log(kept[r.member := r.now], r.now + 1000 * c.ttl), true)
    else (Log(kept, log.expiresAt), false)
  }

  class RedisKey<M(==)> {
    var entries: map<M, int>
    var expiresAt: int

    function State(): Log<M>
      reads this
    {
      Log(entries, expiresAt)
    }

    constructor ()
      ensures State() == Empty()
    {
      entries, expiresAt := map[], 0;
    }

    /** The script, command by command; returns {allowed, remaining}. */
    method Eval(c: Limits, r: Request<M>) returns (allowed: bool, remaining: nat)
      modifies this
      ensures (State(), allowed) == Script(c, old(State()), r)
      ensures remaining == if allowed then c.limit - 1 - |Prune(Existing(old(State()), r), r.now, c.window)| else 0
      ensures r.member !in old(State()).entries ==> remaining + |entries| == if allowed then c.limit else |entries|
    {
      if r.expire && expiresAt <= r.now {
        entries := map[];
      }
      entries := map m | m in entries && entries[m] > r.now - c.window :: entries[m];
      var count := |entries|;
      if count < c.limit {
        entries := entries[r.member := r.now];
        expiresAt := r.now + 1000 * c.ttl;
        return true, c.limit - count - 1;
      }
      return false, 0;
    }
  }

  // --- traces ------------------------------------------------------------------------

  function Run<M(==)>(c: Limits, trace: seq<Request<M>>): Log<M> {
    if trace == [] then Empty() else Script(c, Run(c, trace[..|trace| - 1]), trace[|trace| - 1]).0
  }

  /** The last request of the trace is admitted. */
  predicate Admits<M(==)>(c: Limits, trace: seq<Request<M>>)
    requires trace != []
  {
    Script(c, Run(c, trace[..|trace| - 1]), trace[|trace| - 1]).1
  }

  predicate Within(c: Limits, start: int, now: int) {
    start <= now < start + c.window
  }

  /** Admissions in the half-open window from `start`. */
  function Admissions<M(==)>(c: Limits, trace: seq<Request<M>>, start: int): nat {
    if trace == [] then 0
    else
      Admissions(c, trace[..|trace| - 1], start)
      + if Admits(c, trace) && Within(c, start, trace[|trace| - 1].now) then 1 else 0
  }

  /** The distinct members admitted in that window. */
  function Members<M(==)>(c: Limits, trace: seq<Request<M>>, start: int): set<M> {
    if trace == [] then {}
    else
      Members(c, trace[..|trace| - 1], start)
      + if Admits(c, trace) && Within(c, start, trace[|trace| - 1].now) then {trace[|trace| - 1].member} else {}
  }

  ghost predicate Ordered<M>(trace: seq<Request<M>>) {
    forall i, j :: 0 <= i < j < |trace| ==> trace[i].now <= trace[j].now
  }

  ghost predicate DistinctMembers<M>(trace: seq<Request<M>>) {
    forall i, j :: 0 <= i < j < |trace| ==> trace[i].member != trace[j].member
  }

  lemma PruneSubset<M>(entries: map<M, int>, now: int, window: nat)
    ensures |Prune(entries, now, window)| <= |entries|
  {
    var kept := Prune(entries, now, window);
    assert kept.Keys <= entries.Keys;
    SubsetSize(kept.Keys, entries.Keys);
  }

  lemma {:induction false} SubsetSize<M>(a: set<M>, b: set<M>)
    requires a <= b
    ensures |a| <= |b|
  {
    if a != {} {
      var x :| x in a;
      SubsetSize(a - {x}, b - {x});
    }
  }

  /** What the log remembers: at most `limit` entries, none newer than the last
      request nor than the key's expiry allows. */
  ghost predicate Remembers<M>(c: Limits, trace: seq<Request<M>>) {
    var log := Run(c, trace);
    && |log.entries| <= c.limit
    && (forall m :: m in log.entries ==> log.entries[m] + 1000 * c.ttl <= log.expiresAt)
    && (trace != [] ==> forall m :: m in log.entries ==> log.entries[m] <= trace[|trace| - 1].now)
  }

  lemma {:induction false} LogBounded<M>(c: Limits, trace: seq<Request<M>>)
    requires Ordered(trace)
    ensures Remembers(c, trace)
  {
    if trace != [] {
      var front := trace[..|trace| - 1];
      var r := trace[|trace| - 1];
      LogBounded(c, front);
      var log := Run(c, front);
      PruneSubset(Existing(log, r), r.now, c.window);
      var kept := Prune(Existing(log, r), r.now, c.window);
      if front != [] {
        assert front[|front| - 1].now <= r.now;
      }
      assert |kept[r.member := r.now]| <= |kept| + 1 by {
        assert kept[r.member := r.now].Keys == kept.Keys + {r.member};
      }
    }
  }

  /** Dropping an expired key drops nothing the window would still count. */
  lemma ExpiryHarmless<M>(c: Limits, trace: seq<Request<M>>, r: Request<M>)
    requires Ordered(trace + [r]) && 1000 * c.ttl >= c.window
    ensures Prune(Existing(Run(c, trace), r), r.now, c.window) == Prune(Run(c, trace).entries, r.now, c.window)
    ensures Script(c, Run(c, trace), r) == Script(c, Run(c, trace), r.(expire := false))
  {
    assert forall i :: 0 <= i < |trace| ==> trace[i] == (trace + [r])[i];
    LogBounded(c, trace);
  }

  /** And an idle key goes: `ttl` seconds after the last request nothing is left of it. */
  lemma {:induction false} IdleKeyGoes<M>(c: Limits, trace: seq<Request<M>>, r: Request<M>)
    requires r.expire && r.now >= 0 && forall i :: 0 <= i < |trace| ==> trace[i].now + 1000 * c.ttl <= r.now
    ensures Run(c, trace).expiresAt <= r.now && Existing(Run(c, trace), r) == map[]
  {
    if trace != [] {
      IdleKeyGoes(c, trace[..|trace| - 1], r);
    }
  }

  /** `max(1, ceil(window))` seconds cover the window of `int(window * 1000)` milliseconds. */
  lemma TtlCovers(windowSeconds: real, c: Limits)
    requires windowSeconds >= 0.0
    requires c.window == (windowSeconds * 1000.0).Floor
    requires c.ttl == if -((-windowSeconds).Floor) < 1 then 1 else -((-windowSeconds).Floor)
    ensures 1000 * c.ttl >= c.window
  {
    var ceiling := -((-windowSeconds).Floor);
    assert ceiling as real >= windowSeconds;
    assert c.ttl >= ceiling;
    assert c.window as real <= windowSeconds * 1000.0 <= 1000.0 * (c.ttl as real);
  }

  /** An entry newer than the window's reach survives the script; an admitted request is entered. */
  lemma ScriptKeeps<M>(c: Limits, log: Log<M>, r: Request<M>, start: int)
    requires !r.expire && start <= r.now < start + c.window
    ensures var (log', admitted) := Script(c, log, r);
            && (forall m :: m in log.entries && log.entries[m] >= start ==>
                m in log'.entries && log'.entries[m] >= start)
            && (admitted ==> r.member in log'.entries && log'.entries[r.member] >= start)
  {
  }

  ghost predicate AllLogged<M>(log: Log<M>, members: set<M>, start: int) {
    forall m :: m in members ==> m in log.entries && log.entries[m] >= start
  }

  lemma FrontOrdered<M>(trace: seq<Request<M>>)
    requires Ordered(trace) && trace != []
    ensures Ordered(trace[..|trace| - 1])
    ensures |trace| > 1 ==> trace[..|trace| - 1][|trace| - 2].now <= trace[|trace| - 1].now
  {
  }

  /** Members admitted in a window that the last request has not left are all still logged. */
  lemma {:induction false} WindowLogged<M>(c: Limits, trace: seq<Request<M>>, start: int)
    requires Ordered(trace) && 1000 * c.ttl >= c.window
    requires trace != [] ==> trace[|trace| - 1].now < start + c.window
    ensures AllLogged(Run(c, trace), Members(c, trace, start), start)
  {
    if trace != [] {
      hide Script, Ordered;
      var front := trace[..|trace| - 1];
      var r := trace[|trace| - 1];
      assert front + [r] == trace;
      FrontOrdered(trace);
      ExpiryHarmless(c, front, r);
      WindowLogged(c, front, start);
      if start <= r.now {
        ScriptKeeps(c, Run(c, front), r.(expire := false), start);
      } else {
        NotYet(c, trace, start);
      }
    }
  }

  /** Before the window begins it has no members. */
  lemma {:induction false} NotYet<M>(c: Limits, trace: seq<Request<M>>, start: int)
    requires Ordered(trace) && (trace != [] ==> trace[|trace| - 1].now < start)
    ensures Members(c, trace, start) == {}
  {
    hide Script;
    if trace != [] {
      var front := trace[..|trace| - 1];
      if front != [] { assert front[|front| - 1].now <= trace[|trace| - 1].now; }
      NotYet(c, front, start);
    }
  }

  /** For every trace in time order, whatever its members: at most `limit` distinct
      members are admitted in any half-open interval of one window length. */
  lemma {:induction false} WindowBound<M>(c: Limits, trace: seq<Request<M>>, start: int)
    requires Ordered(trace) && 1000 * c.ttl >= c.window
    ensures |Members(c, trace, start)| <= c.limit
  {
    if trace != [] {
      if trace[|trace| - 1].now < start + c.window {
        WindowLogged(c, trace, start);
        LogBounded(c, trace);
        SubsetSize(Members(c, trace, start), Run(c, trace).entries.Keys);
      } else {
        WindowBound(c, trace[..|trace| - 1], start);
      }
    }
  }

  lemma {:induction false} MembersFromTrace<M>(c: Limits, trace: seq<Request<M>>, start: int, m: M)
    requires m in Members(c, trace, start)
    ensures exists i :: 0 <= i < |trace| && trace[i].member == m
  {
    var front := trace[..|trace| - 1];
    if m in Members(c, front, start) {
      MembersFromTrace(c, front, start, m);
      var i :| 0 <= i < |front| && front[i].member == m;
      assert trace[i].member == m;
    }
  }

  /** Admissions equal distinct members when no member repeats. */
  lemma {:induction false} AdmissionsAreMembers<M>(c: Limits, trace: seq<Request<M>>, start: int)
    requires DistinctMembers(trace)
    ensures Admissions(c, trace, start) == |Members(c, trace, start)|
  {
    if trace != [] {
      var front := trace[..|trace| - 1];
      AdmissionsAreMembers(c, front, start);
      var m := trace[|trace| - 1].member;
      assert forall i :: 0 <= i < |front| ==> trace[i] == front[i];
      if m in Members(c, front, start) {
        MembersFromTrace(c, front, start, m);
      }
    }
  }

  /** With distinct members, every window admits at most `limit` requests. */
  lemma SlidingWindowBound<M>(c: Limits, trace: seq<Request<M>>, start: int)
    requires Ordered(trace) && DistinctMembers(trace) && 1000 * c.ttl >= c.window
    ensures Admissions(c, trace, start) <= c.limit
  {
    AdmissionsAreMembers(c, trace, start);
    WindowBound(c, trace, start);
  }

  /** Every logged entry is an admission at its score. */
  lemma {:induction false} EntriesAdmitted<M>(c: Limits, trace: seq<Request<M>>, start: int, m: M)
    requires m in Run(c, trace).entries && Within(c, start, Run(c, trace).entries[m])
    ensures m in Members(c, trace, start)
  {
    if trace != [] {
      var front := trace[..|trace| - 1];
      var r := trace[|trace| - 1];
      if !(Admits(c, trace) && m == r.member) {
        EntriesAdmitted(c, front, start, m);
      }
    }
  }

  /** What pruning keeps are the members admitted in the window that ends now. */
  lemma KeptAreMembers<M>(c: Limits, trace: seq<Request<M>>, now: int)
    requires Ordered(trace) && 1000 * c.ttl >= c.window && (trace != [] ==> trace[|trace| - 1].now <= now)
    ensures Prune(Run(c, trace).entries, now, c.window).Keys == Members(c, trace, now - c.window + 1)
  {
    hide Run, Members, Ordered;
    var start := now - c.window + 1;
    WindowLogged(c, trace, start);
    LogBounded(c, trace);
    var log := Run(c, trace);
    assert forall m :: m in log.entries ==> log.entries[m] <= now by {
      if trace == [] { assert log == Empty() by { EmptyRun<M>(c); } }
    }
    var kept := Prune(log.entries, now, c.window);
    forall m | m in kept ensures m in Members(c, trace, start) {
      EntriesAdmitted(c, trace, start, m);
    }
  }

  lemma EmptyRun<M>(c: Limits)
    ensures Run<M>(c, []) == Empty<M>()
  {
  }

  /** A request is admitted exactly if fewer than `limit` distinct members were admitted
      in the window that ends with it; key expiry and pruning never change that. */
  lemma AdmittedExactly<M>(c: Limits, trace: seq<Request<M>>)
    requires trace != [] && Ordered(trace) && 1000 * c.ttl >= c.window
    ensures Admits(c, trace)
            <==> |Members(c, trace[..|trace| - 1], trace[|trace| - 1].now - c.window + 1)| < c.limit
  {
    hide Run, Members, Ordered;
    var front := trace[..|trace| - 1];
    var r := trace[|trace| - 1];
    assert front + [r] == trace;
    FrontOrdered(trace);
    ExpiryHarmless(c, front, r);
    KeptAreMembers(c, front, r.now);
    var kept := Prune(Run(c, front).entries, r.now, c.window);
    assert |kept| == |kept.Keys|;
  }
}
