/** Members of the sliding window as the text they are (rate_limiter_redis.py,
    `_redis_sliding_window`): only their equality matters, so what holds of the values
    printed holds of any text that tells one client's arrivals apart. */
module MemberText {
  import opened SlidingWindow
  import opened WindowLimits

  /** The trace with its members printed. */
  function Printed<M, N(==)>(trace: seq<Request<M>>, text: M -> N): (printed: seq<Request<N>>)
    ensures |printed| == |trace|
  {
    seq(|trace|, i requires 0 <= i < |trace| => Request(trace[i].now, text(trace[i].member), trace[i].expire))
  }

  ghost predicate TellsApart<M, N>(members: set<M>, text: M -> N) {
    forall m, k :: m in members && k in members && text(m) == text(k) ==> m == k
  }

  /** The distinct members a trace sends. */
  function Sent<M(==)>(trace: seq<Request<M>>): set<M> {
    set i | 0 <= i < |trace| :: trace[i].member
  }

  ghost predicate Image<M, N>(a: set<M>, b: set<N>, text: M -> N) {
    && (forall m :: m in a ==> text(m) in b)
    && (forall n :: n in b ==> HasSource(a, n, text))
  }

  ghost predicate HasSource<M, N>(a: set<M>, n: N, text: M -> N) { exists m :: m in a && text(m) == n }

  lemma {:induction false} ImageSize<M, N>(a: set<M>, b: set<N>, text: M -> N)
    requires Image(a, b, text) && TellsApart(a, text)
    ensures |a| == |b|
  {
    if m :| m in a {
      forall n | n in b - {text(m)} ensures HasSource(a - {m}, n, text) {
        assert HasSource(a, n, text);
      }
      ImageSize(a - {m}, b - {text(m)}, text);
    } else {
      assert forall n :: n in b ==> HasSource(a, n, text);
      assert b == {};
    }
  }

  ghost predicate SameEntries<M, N>(a: map<M, int>, b: map<N, int>, text: M -> N) {
    && Image(a.Keys, b.Keys, text)
    && (forall m :: m in a ==> b[text(m)] == a[m])
  }

  lemma SamePruned<M, N>(a: map<M, int>, b: map<N, int>, now: int, window: nat, text: M -> N)
    requires SameEntries(a, b, text)
    ensures SameEntries(Prune(a, now, window), Prune(b, now, window), text)
  {
    var kept := Prune(a, now, window);
    forall n | n in Prune(b, now, window).Keys ensures HasSource(kept.Keys, n, text) {
      assert HasSource(a.Keys, n, text);
      var m :| m in a.Keys && text(m) == n;
      assert m in kept.Keys;
    }
  }

  lemma SameEntered<M, N>(a: map<M, int>, b: map<N, int>, member: M, now: int, text: M -> N)
    requires SameEntries(a, b, text) && TellsApart(a.Keys + {member}, text)
    ensures SameEntries(a[member := now], b[text(member) := now], text)
  {
    var entered := a[member := now];
    forall n | n in b[text(member) := now].Keys ensures HasSource(entered.Keys, n, text) {
      if n == text(member) {
        assert member in entered.Keys;
      } else {
        assert HasSource(a.Keys, n, text);
        var m :| m in a.Keys && text(m) == n;
        assert m in entered.Keys;
      }
    }
  }

  lemma NoEntries<M, N>(text: M -> N)
    ensures SameEntries<M, N>(map[], map[], text)
  {
  }

  /** One run of the script on members and on their texts. */
  lemma SameScript<M, N>(c: Limits, a: Log<M>, b: Log<N>, r: Request<M>, text: M -> N)
    requires a.expiresAt == b.expiresAt && SameEntries(a.entries, b.entries, text)
    requires TellsApart(a.entries.Keys + {r.member}, text)
    ensures var (a', x) := Script(c, a, r);
            var (b', y) := Script(c, b, Request(r.now, text(r.member), r.expire));
            x == y && a'.expiresAt == b'.expiresAt && SameEntries(a'.entries, b'.entries, text)
  {
    hide SameEntries, TellsApart, Prune;
    var existing, printed := Existing(a, r), Existing(b, Request(r.now, text(r.member), r.expire));
    assert SameEntries(existing, printed, text) by { NoEntries(text); }
    var kept := Prune(existing, r.now, c.window);
    SamePruned(existing, printed, r.now, c.window, text);
    KeptApart(existing, r, c.window, text);
    SameSize(kept, Prune(printed, r.now, c.window), text);
    SameEntered(kept, Prune(printed, r.now, c.window), r.member, r.now, text);
  }

  lemma KeptApart<M, N>(entries: map<M, int>, r: Request<M>, window: nat, text: M -> N)
    requires TellsApart(entries.Keys + {r.member}, text)
    ensures var kept := Prune(entries, r.now, window);
            TellsApart(kept.Keys + {r.member}, text) && TellsApart(kept.Keys, text)
  {
  }

  lemma SameSize<M, N>(a: map<M, int>, b: map<N, int>, text: M -> N)
    requires SameEntries(a, b, text) && TellsApart(a.Keys, text)
    ensures |a| == |b|
  {
    hide Image, TellsApart;
    ImageSize(a.Keys, b.Keys, text);
    assert |a| == |a.Keys| && |b| == |b.Keys|;
  }

  /** A log holds members that were sent. */
  lemma {:induction false} EntriesSent<M>(c: Limits, trace: seq<Request<M>>)
    ensures Run(c, trace).entries.Keys <= Sent(trace)
  {
    if trace != [] {
      var front := trace[..|trace| - 1];
      EntriesSent(c, front);
      SentSnoc(trace);
    }
  }

  lemma SentSnoc<M>(trace: seq<Request<M>>)
    requires trace != []
    ensures Sent(trace) == Sent(trace[..|trace| - 1]) + {trace[|trace| - 1].member}
  {
    var front := trace[..|trace| - 1];
    forall m | m in Sent(trace) ensures m in Sent(front) + {trace[|trace| - 1].member} {
      var i :| 0 <= i < |trace| && trace[i].member == m;
      assert i < |front| ==> front[i].member == m;
    }
    forall m | m in Sent(front) ensures m in Sent(trace) {
      var i :| 0 <= i < |front| && front[i].member == m;
      assert trace[i].member == m;
    }
  }

  /** Members only count by being equal or not: on texts that tell the members of the
      trace apart, every answer of the script is the same. */
  lemma {:induction false} SameAnswers<M, N>(c: Limits, trace: seq<Request<M>>, text: M -> N)
    requires TellsApart(Sent(trace), text)
    ensures Run(c, trace).expiresAt == Run(c, Printed(trace, text)).expiresAt
    ensures SameEntries(Run(c, trace).entries, Run(c, Printed(trace, text)).entries, text)
    ensures trace != [] ==> (Admits(c, trace) <==> Admits(c, Printed(trace, text)))
  {
    hide Script, SameEntries, Sent;
    if trace != [] {
      var front := trace[..|trace| - 1];
      SentSnoc(trace);
      EntriesSent(c, front);
      SameAnswers(c, front, text);
      assert Printed(trace, text)[..|trace| - 1] == Printed(front, text);
      SameScript(c, Run(c, front), Run(c, Printed(front, text)), trace[|trace| - 1], text);
    } else {
      NoEntries(text);
    }
  }

  /** `f"{now}-{client_ip}"`, with `text` printing instants. */
  function Line(text: real -> string): Member -> string {
    (m: Member) => text(m.now) + "-" + m.ip
  }

  ghost predicate TellsInstants(arrivals: seq<Arrival>, text: real -> string) {
    forall i, j :: 0 <= i < |arrivals| && 0 <= j < |arrivals| && text(arrivals[i].now) == text(arrivals[j].now) ==>
      arrivals[i].now == arrivals[j].now
  }

  /** `k` dots for the `k`-th instant: some text tells any arrivals apart. */
  function Dots(arrivals: seq<Arrival>, now: real): (s: string)
    ensures |s| < |arrivals| ==> arrivals[|s|].now == now
    ensures |s| <= |arrivals| && forall i :: 0 <= i < |arrivals| && arrivals[i].now == now ==> |s| <= i
  {
    if arrivals == [] || arrivals[0].now == now then ""
    else
      var rest := Dots(arrivals[1..], now);
      assert forall i :: 0 < i < |arrivals| ==> arrivals[i] == arrivals[1..][i - 1];
      "." + rest
  }

  lemma SomeTextTells(arrivals: seq<Arrival>)
    ensures exists text :: TellsInstants(arrivals, text)
  {
    var text := now => Dots(arrivals, now);
    forall i, j | 0 <= i < |arrivals| && 0 <= j < |arrivals| && text(arrivals[i].now) == text(arrivals[j].now)
      ensures arrivals[i].now == arrivals[j].now
    {
      assert |text(arrivals[i].now)| == |text(arrivals[j].now)| <= i;
    }
    assert TellsInstants(arrivals, text);
  }

  lemma SameTail(a: string, b: string, tail: string)
    requires a + tail == b + tail
    ensures a == b
  {
    assert |a| == |b|;
    assert a == (a + tail)[..|a|] && b == (b + tail)[..|b|];
  }

  lemma LinesTell(ip: string, arrivals: seq<Arrival>, text: real -> string)
    requires TellsInstants(arrivals, text)
    ensures TellsApart(Sent(Calls(ip, arrivals)), Line(text))
  {
    var trace := Calls(ip, arrivals);
    forall m, k | m in Sent(trace) && k in Sent(trace) && Line(text)(m) == Line(text)(k) ensures m == k {
      var i :| 0 <= i < |trace| && trace[i].member == m;
      var j :| 0 <= j < |trace| && trace[j].member == k;
      assert m == Member(arrivals[i].now, ip) && k == Member(arrivals[j].now, ip);
      assert text(m.now) + ("-" + ip) == Line(text)(m) && text(k.now) + ("-" + ip) == Line(text)(k);
      SameTail(text(m.now), text(k.now), "-" + ip);
    }
  }

  /** Whatever prints the instants: if it tells this client's arrivals apart, the script
      on the printed members answers each of them as on the values. */
  lemma TextIsEnough(c: Limits, ip: string, arrivals: seq<Arrival>, text: real -> string)
    requires arrivals != [] && TellsInstants(arrivals, text)
    ensures Admits(c, Printed(Calls(ip, arrivals), Line(text))) <==> Admits(c, Calls(ip, arrivals))
  {
    hide Admits, Sent, Line;
    LinesTell(ip, arrivals, text);
    SameAnswers(c, Calls(ip, arrivals), Line(text));
  }

  lemma {:induction false} SameAdmissions<M, N>(c: Limits, trace: seq<Request<M>>, text: M -> N, start: int)
    requires TellsApart(Sent(trace), text)
    ensures Admissions(c, Printed(trace, text), start) == Admissions(c, trace, start)
  {
    hide Admits, Sent;
    if trace != [] {
      SentSnoc(trace);
      SameAdmissions(c, trace[..|trace| - 1], text, start);
      assert Printed(trace, text)[..|trace| - 1] == Printed(trace[..|trace| - 1], text);
      SameAnswers(c, trace, text);
    }
  }

  /** So every count of admissions stated of the values holds of the text. */
  lemma TextAdmissions(c: Limits, ip: string, arrivals: seq<Arrival>, text: real -> string, start: int)
    requires TellsInstants(arrivals, text)
    ensures Admissions(c, Printed(Calls(ip, arrivals), Line(text)), start) == Admissions(c, Calls(ip, arrivals), start)
  {
    hide Admissions, Sent, Line;
    LinesTell(ip, arrivals, text);
    SameAdmissions(c, Calls(ip, arrivals), Line(text), start);
  }
}
