/** Handoff tickets (ticket_repository.py): atomic statements over one table, and
    the create-or-reuse loop that other actors may interleave with. */
module Tickets {
  import opened Wrappers

  const PRIORITY_HIGH: int := 1

  datatype Json = Text(text: string) | Object(fields: map<string, Json>)

  /** The summary column: a JSON object, or any other text. */
  datatype Summary = Dict(fields: map<string, Json>) | Raw(text: string)

  datatype Status = Open | Claimed | Resolved

  datatype Ticket = Ticket(
    session: int, user: int, reason: string, summary: Summary, status: Status, priority: int,
    createdAt: int, assignedTo: Option<int>, claimedAt: Option<int>)

  /** A handoff request; `at` is its `requested_at` text. */
  datatype Request = Request(session: int, user: int, reason: string, priority: int, context: map<string, Json>,
                             at: string)

  /** One atomic statement of some actor. A ticket's id is its row number. */
  datatype Act =
    | Insert(request: Request, now: int)
    | Merge(request: Request)
    | Claim(id: nat, agent: int, now: int)
    | Resolve(id: nat, agent: int)

  predicate Active(t: Ticket) { t.status != Resolved }

  function RequestJson(r: Request): Json {
    Object(map["reason" := Text(r.reason), "context" := Object(r.context), "requested_at" := Text(r.at)])
  }

  const ESCALATIONS := "escalation_contexts"
  const LATEST := "latest_handoff_request"
  const ORIGINAL := "original_summary"

  // --- statements --------------------------------------------------------------------

  /** The session's active ticket; the partial unique index allows one. */
  function ActiveRow(rows: seq<Ticket>, session: int): Option<nat> {
    if rows == [] then None
    else
      var k := |rows| - 1;
      if rows[k].session == session && Active(rows[k]) then Some(k) else ActiveRow(rows[..k], session)
  }

  function InitialSummary(r: Request): Summary {
    Dict(if r.priority == PRIORITY_HIGH then r.context[ESCALATIONS := Object(map[r.reason := RequestJson(r)])]
         else r.context)
  }

  /** INSERT ... ON CONFLICT DO NOTHING. */
  function InsertRow(rows: seq<Ticket>, r: Request, now: int): seq<Ticket> {
    if ActiveRow(rows, r.session).Some? then rows
    else rows + [Ticket(r.session, r.user, r.reason, InitialSummary(r), Open, r.priority, now, None, None)]
  }

  function SavedContext(s: Summary): map<string, Json> {
    match s
    case Dict(fields) => fields
    case Raw(text) => map[ORIGINAL := Text(text)]
  }

  function Escalations(fields: map<string, Json>): map<string, Json> {
    if ESCALATIONS in fields && fields[ESCALATIONS].Object? then fields[ESCALATIONS].fields else map[]
  }

  function MergedSummary(s: Summary, r: Request): Summary {
    var saved := SavedContext(s)[LATEST := RequestJson(r)];
    Dict(if r.priority == PRIORITY_HIGH
         then saved[ESCALATIONS := Object(Escalations(saved)[r.reason := RequestJson(r)])]
         else saved)
  }

  /** The merge into the locked active row. */
  function MergedTicket(t: Ticket, r: Request): Ticket {
    var risen := if r.priority < t.priority then t.(priority := r.priority, reason := r.reason) else t;
    risen.(summary := MergedSummary(t.summary, r))
  }

  function MergeRow(rows: seq<Ticket>, r: Request): seq<Ticket> {
    match ActiveRow(rows, r.session)
    case None => rows
    case Some(id) => if id < |rows| then rows[id := MergedTicket(rows[id], r)] else rows
  }

  /** UPDATE ... WHERE id = ? AND status = 'open'. */
  function ClaimRow(rows: seq<Ticket>, id: nat, agent: int, now: int): seq<Ticket> {
    if id < |rows| && rows[id].status == Open
    then rows[id := rows[id].(status := Claimed, assignedTo := Some(agent), claimedAt := Some(now))] else rows
  }

  /** UPDATE ... WHERE status IN ('open', 'claimed'), keeping an assignee already set. */
  function ResolveRow(rows: seq<Ticket>, id: nat, agent: int): seq<Ticket> {
    if id < |rows| && Active(rows[id])
    then rows[id := rows[id].(status := Resolved,
                              assignedTo := if rows[id].assignedTo.Some? then rows[id].assignedTo else Some(agent))]
    else rows
  }

  function Do(rows: seq<Ticket>, a: Act): seq<Ticket> {
    match a
    case Insert(r, now) => InsertRow(rows, r, now)
    case Merge(r) => MergeRow(rows, r)
    case Claim(id, agent, now) => ClaimRow(rows, id, agent, now)
    case Resolve(id, agent) => ResolveRow(rows, id, agent)
  }

  function DoAll(rows: seq<Ticket>, acts: seq<Act>): seq<Ticket> {
    if acts == [] then rows else Do(DoAll(rows, acts[..|acts| - 1]), acts[|acts| - 1])
  }

  lemma {:induction false} ActiveRowFinds(rows: seq<Ticket>, session: int)
    ensures match ActiveRow(rows, session)
            case Some(id) => id < |rows| && rows[id].session == session && Active(rows[id])
            case None => forall i :: 0 <= i < |rows| ==> rows[i].session != session || !Active(rows[i])
  {
    if rows != [] {
      ActiveRowFinds(rows[..|rows| - 1], session);
    }
  }

  // --- what every statement keeps -------------------------------------------------------

  /** The partial unique index: at most one active ticket a session. */
  ghost predicate OneActive(rows: seq<Ticket>) {
    forall i, j :: 0 <= i < j < |rows| && Active(rows[i]) && Active(rows[j]) ==> rows[i].session != rows[j].session
  }

  /** Assignment fields match the status. */
  ghost predicate Stamped(t: Ticket) {
    && (t.status == Open ==> t.assignedTo.None? && t.claimedAt.None?)
    && (t.status == Claimed ==> t.assignedTo.Some? && t.claimedAt.Some?)
    && (t.status == Resolved ==> t.assignedTo.Some?)
  }

  function Stage(s: Status): nat { match s case Open => 0 case Claimed => 1 case Resolved => 2 }

  /** How one ticket may change over time. */
  ghost predicate Evolves(a: Ticket, b: Ticket) {
    && b.session == a.session && b.user == a.user && b.createdAt == a.createdAt
    && Stage(a.status) <= Stage(b.status)
    && (a.assignedTo.Some? ==> b.assignedTo == a.assignedTo)
    && (a.claimedAt.Some? ==> b.claimedAt == a.claimedAt)
    && (a.status != Open ==> b.claimedAt == a.claimedAt)
    && b.priority <= a.priority
    && (b.reason != a.reason ==> b.priority < a.priority)
  }

  ghost predicate TableOk(rows: seq<Ticket>) {
    OneActive(rows) && forall i :: 0 <= i < |rows| ==> Stamped(rows[i])
  }

  ghost predicate Grows(a: seq<Ticket>, b: seq<Ticket>) {
    |a| <= |b| && forall i :: 0 <= i < |a| ==> Evolves(a[i], b[i])
  }

  lemma DoKeeps(rows: seq<Ticket>, a: Act)
    requires TableOk(rows)
    ensures TableOk(Do(rows, a)) && Grows(rows, Do(rows, a))
  {
    hide InitialSummary, MergedSummary, RequestJson;
    if a.Insert? || a.Merge? {
      ActiveRowFinds(rows, a.request.session);
    }
  }

  lemma {:induction false} DoAllKeeps(rows: seq<Ticket>, acts: seq<Act>)
    requires TableOk(rows)
    ensures TableOk(DoAll(rows, acts)) && Grows(rows, DoAll(rows, acts))
  {
    hide Do, TableOk;
    if acts != [] {
      var mid := DoAll(rows, acts[..|acts| - 1]);
      DoAllKeeps(rows, acts[..|acts| - 1]);
      DoKeeps(mid, acts[|acts| - 1]);
      assert forall i :: 0 <= i < |rows| ==> Evolves(rows[i], mid[i]) && Evolves(mid[i], DoAll(rows, acts)[i]);
    }
  }

  /** Under any interleaving: at most one active ticket a session; a resolved ticket
      stays resolved; a set assignee or claim time never changes; priority only
      rises, and the reason changes only with it. */
  lemma TicketSafety(rows: seq<Ticket>, acts: seq<Act>)
    requires TableOk(rows)
    ensures var after := DoAll(rows, acts);
            && OneActive(after)
            && |rows| <= |after|
            && (forall i :: 0 <= i < |rows| ==> Evolves(rows[i], after[i]))
            && (forall i :: 0 <= i < |rows| && rows[i].status == Resolved ==> after[i].status == Resolved)
  {
    DoAllKeeps(rows, acts);
  }

  // --- claims ------------------------------------------------------------------------------

  /** Claims of one ticket that win along a run. */
  function WonClaims(rows: seq<Ticket>, acts: seq<Act>, id: nat): nat {
    if acts == [] then 0
    else
      var before := DoAll(rows, acts[..|acts| - 1]);
      var a := acts[|acts| - 1];
      WonClaims(rows, acts[..|acts| - 1], id)
      + if a.Claim? && a.id == id && id < |before| && before[id].status == Open then 1 else 0
  }

  /** Each ticket is claimed at most once, and not at all once it has left the open state. */
  lemma {:induction false} ClaimedAtMostOnce(rows: seq<Ticket>, acts: seq<Act>, id: nat)
    requires TableOk(rows)
    ensures WonClaims(rows, acts, id) <= 1
    ensures id < |rows| && rows[id].status != Open ==> WonClaims(rows, acts, id) == 0
    ensures id < |DoAll(rows, acts)| && DoAll(rows, acts)[id].status == Open ==> WonClaims(rows, acts, id) == 0
    ensures id >= |DoAll(rows, acts)| ==> WonClaims(rows, acts, id) == 0
  {
    if acts != [] {
      var front := acts[..|acts| - 1];
      ClaimedAtMostOnce(rows, front, id);
      DoAllKeeps(rows, front);
      DoKeeps(DoAll(rows, front), acts[|acts| - 1]);
      if id < |rows| { assert Evolves(rows[id], DoAll(rows, front)[id]); }
      if id < |DoAll(rows, front)| { assert Evolves(DoAll(rows, front)[id], DoAll(rows, acts)[id]); }
    }
  }

  // --- escalation memory ---------------------------------------------------------------------

  /** The requests a ticket served along a run: the one it was opened for, then those merged. */
  function Served(rows: seq<Ticket>, acts: seq<Act>, id: nat): seq<Request> {
    if acts == [] then []
    else
      var before := DoAll(rows, acts[..|acts| - 1]);
      var served := Served(rows, acts[..|acts| - 1], id);
      match acts[|acts| - 1]
      case Insert(r, _) => if ActiveRow(before, r.session).None? && id == |before| then served + [r] else served
      case Merge(r) => if ActiveRow(before, r.session) == Some(id) then served + [r] else served
      case _ => served
  }

  /** The latest request of priority 1, the highest, with a reason. */
  function LatestHigh(served: seq<Request>, reason: string): Option<Request> {
    if served == [] then None
    else
      var last := served[|served| - 1];
      if last.priority == 1 && last.reason == reason then Some(last)
      else LatestHigh(served[..|served| - 1], reason)
  }

  /** The ticket's escalation map holds the latest request of every urgent reason. */
  ghost predicate Remembers(t: Ticket, served: seq<Request>) {
    forall reason :: LatestHigh(served, reason).Some? ==>
      && t.summary.Dict?
      && reason in Escalations(t.summary.fields)
      && Escalations(t.summary.fields)[reason] == RequestJson(LatestHigh(served, reason).value)
  }

  lemma OpenedRemembers(t: Ticket, r: Request)
    requires t.summary == InitialSummary(r)
    ensures Remembers(t, [r])
  {
    hide RequestJson;
    assert [r][..0] == [];
    forall reason | LatestHigh([r], reason).Some?
      ensures t.summary.Dict? && reason in Escalations(t.summary.fields)
      ensures Escalations(t.summary.fields)[reason] == RequestJson(LatestHigh([r], reason).value)
    {
      assert LatestHigh([], reason).None?;
      assert r.priority == PRIORITY_HIGH && r.reason == reason;
      assert t.summary.fields[ESCALATIONS] == Object(map[r.reason := RequestJson(r)]);
    }
  }

  lemma MergedRemembers(t: Ticket, served: seq<Request>, r: Request)
    requires Remembers(t, served)
    ensures Remembers(MergedTicket(t, r), served + [r])
  {
    hide RequestJson;
    assert (served + [r])[..|served|] == served;
    var saved := SavedContext(t.summary)[LATEST := RequestJson(r)];
    assert ESCALATIONS[0] != LATEST[0];
    assert Escalations(saved) == Escalations(SavedContext(t.summary));
    var after := MergedTicket(t, r).summary.fields;
    assert r.priority == PRIORITY_HIGH ==> Escalations(after) == Escalations(saved)[r.reason := RequestJson(r)];
    assert r.priority != PRIORITY_HIGH ==> Escalations(after) == Escalations(saved);
    forall reason | LatestHigh(served + [r], reason).Some?
      ensures reason in Escalations(after)
      ensures Escalations(after)[reason] == RequestJson(LatestHigh(served + [r], reason).value)
    {
      if !(r.priority == PRIORITY_HIGH && r.reason == reason) {
        assert LatestHigh(served, reason) == LatestHigh(served + [r], reason);
      }
    }
  }

  /** Along any run a ticket that serves requests remembers every urgent reason's
      latest one, whatever routine requests, claims or other reasons follow. */
  lemma {:induction false} EscalationMemory(rows: seq<Ticket>, acts: seq<Act>, id: nat)
    requires TableOk(rows)
    ensures id < |DoAll(rows, acts)| ==> Remembers(DoAll(rows, acts)[id], Served(rows, acts, id))
    ensures id >= |DoAll(rows, acts)| ==> Served(rows, acts, id) == []
  {
    hide RequestJson, MergedSummary, InitialSummary, Remembers;
    if acts == [] {
      if id < |rows| { NothingServed(rows[id]); }
    } else {
      var front := acts[..|acts| - 1];
      var before := DoAll(rows, front);
      var served := Served(rows, front, id);
      EscalationMemory(rows, front, id);
      DoAllKeeps(rows, front);
      match acts[|acts| - 1]
      case Insert(r, now) =>
        ActiveRowFinds(before, r.session);
        if ActiveRow(before, r.session).None? && id == |before| {
          assert served == [] && served + [r] == [r];
          OpenedRemembers(DoAll(rows, acts)[id], r);
        }
      case Merge(r) =>
        ActiveRowFinds(before, r.session);
        if ActiveRow(before, r.session) == Some(id) {
          MergedRemembers(before[id], served, r);
        }
      case Claim(x, agent, now) =>
        if id < |before| { SameSummary(before[id], DoAll(rows, acts)[id], served); }
      case Resolve(x, agent) =>
        if id < |before| { SameSummary(before[id], DoAll(rows, acts)[id], served); }
    }
  }

  /** The stored form of a request shows its reason, its context and when it was made. */
  ghost predicate ShowsRequest(json: Json, r: Request) {
    && json.Object? && json.fields.Keys == {"reason", "context", "requested_at"}
    && json.fields["reason"] == Text(r.reason) && json.fields["context"] == Object(r.context)
    && json.fields["requested_at"] == Text(r.at)
  }

  lemma StoredShows(r: Request)
    ensures ShowsRequest(RequestJson(r), r)
  {
    assert "reason" != "context" && "reason" != "requested_at" && "context" != "requested_at";
  }

  /** So over any run the ticket's escalation entry of an urgent reason shows that reason's latest request. */
  lemma EscalationShown(rows: seq<Ticket>, acts: seq<Act>, id: nat, reason: string)
    requires TableOk(rows) && id < |DoAll(rows, acts)| && LatestHigh(Served(rows, acts, id), reason).Some?
    ensures var t := DoAll(rows, acts)[id];
            && t.summary.Dict? && reason in Escalations(t.summary.fields)
            && ShowsRequest(Escalations(t.summary.fields)[reason], LatestHigh(Served(rows, acts, id), reason).value)
  {
    hide RequestJson, DoAll, Served, LatestHigh, Escalations, ShowsRequest;
    EscalationMemory(rows, acts, id);
    StoredShows(LatestHigh(Served(rows, acts, id), reason).value);
  }

  lemma NothingServed(t: Ticket)
    ensures Remembers(t, [])
  {
  }

  lemma SameSummary(a: Ticket, b: Ticket, served: seq<Request>)
    requires Remembers(a, served) && b.summary == a.summary
    ensures Remembers(b, served)
  {
  }

  // --- priority and reason -------------------------------------------------------------------

  /** Request `i` is the first served one as urgent as the ticket is, and more urgent than
      the ticket started. */
  ghost predicate FirstToReach(start: Option<Ticket>, served: seq<Request>, t: Ticket, i: nat) {
    && i < |served| && served[i].priority == t.priority && served[i].reason == t.reason
    && (start.Some? ==> t.priority < start.value.priority)
    && forall j :: 0 <= j < i ==> t.priority < served[j].priority
  }

  /** The ticket is as urgent as the most urgent of its start and the requests it served,
      and gives the reason of the first to be so. */
  ghost predicate Urgency(start: Option<Ticket>, served: seq<Request>, t: Ticket) {
    && (forall i :: 0 <= i < |served| ==> t.priority <= served[i].priority)
    && (start.Some? ==> t.priority <= start.value.priority)
    && (|| (start.Some? && t.priority == start.value.priority && t.reason == start.value.reason)
        || exists i: nat :: FirstToReach(start, served, t, i))
  }

  lemma MergedUrgency(start: Option<Ticket>, served: seq<Request>, t: Ticket, r: Request)
    requires Urgency(start, served, t)
    ensures Urgency(start, served + [r], MergedTicket(t, r))
  {
    hide MergedSummary;
    var after := MergedTicket(t, r);
    if r.priority < t.priority {
      assert FirstToReach(start, served + [r], after, |served|);
    } else if i: nat :| FirstToReach(start, served, t, i) {
      assert FirstToReach(start, served + [r], after, i);
    }
  }

  lemma SameUrgency(start: Option<Ticket>, served: seq<Request>, a: Ticket, b: Ticket)
    requires Urgency(start, served, a) && b.priority == a.priority && b.reason == a.reason
    ensures Urgency(start, served, b)
  {
    if i: nat :| FirstToReach(start, served, a, i) {
      assert FirstToReach(start, served, b, i);
    }
  }

  lemma OpenedUrgency(t: Ticket, r: Request)
    requires t.priority == r.priority && t.reason == r.reason
    ensures Urgency(None, [r], t)
  {
    assert FirstToReach(None, [r], t, 0);
  }

  lemma StartUrgency(t: Ticket)
    ensures Urgency(Some(t), [], t)
  {
  }

  /** Over any run a ticket's priority is the most urgent of the requests it served, and
      of its start if it was there before; its reason is that of the first to reach it. */
  lemma {:induction false} UrgencyIsFirst(rows: seq<Ticket>, acts: seq<Act>, id: nat)
    requires TableOk(rows)
    ensures id < |DoAll(rows, acts)| ==>
              Urgency(if id < |rows| then Some(rows[id]) else None, Served(rows, acts, id), DoAll(rows, acts)[id])
  {
    hide RequestJson, MergedSummary, InitialSummary, Urgency, MergedTicket;
    if acts == [] {
      if id < |rows| { StartUrgency(rows[id]); }
    } else {
      var front := acts[..|acts| - 1];
      var before := DoAll(rows, front);
      var served := Served(rows, front, id);
      var start := if id < |rows| then Some(rows[id]) else None;
      UrgencyIsFirst(rows, front, id);
      EscalationMemory(rows, front, id);
      DoAllKeeps(rows, front);
      match acts[|acts| - 1]
      case Insert(r, now) =>
        if ActiveRow(before, r.session).None? && id == |before| {
          assert served + [r] == [r];
          OpenedUrgency(DoAll(rows, acts)[id], r);
        }
      case Merge(r) =>
        ActiveRowFinds(before, r.session);
        if ActiveRow(before, r.session) == Some(id) { MergedUrgency(start, served, before[id], r); }
      case Claim(x, agent, now) =>
        if id < |before| { SameUrgency(start, served, before[id], DoAll(rows, acts)[id]); }
      case Resolve(x, agent) =>
        if id < |before| { SameUrgency(start, served, before[id], DoAll(rows, acts)[id]); }
    }
  }

  // --- who handled a ticket, and when ----------------------------------------------------------

  predicate Handles(a: Act, id: nat) { (a.Claim? || a.Resolve?) && a.id == id }

  /** Some act from position `k` on resolves the ticket. */
  ghost predicate ResolvedFrom(acts: seq<Act>, id: nat, k: nat) {
    exists j :: k <= j < |acts| && acts[j].Resolve? && acts[j].id == id
  }

  /** What becomes of an open ticket whose first handling act is `acts[k]`. */
  ghost predicate HandledBy(acts: seq<Act>, k: nat, t: Ticket)
    requires k < |acts| && (acts[k].Claim? || acts[k].Resolve?)
  {
    && t.assignedTo == Some(acts[k].agent)
    && t.claimedAt == (if acts[k].Claim? then Some(acts[k].now) else None)
    && t.status == (if ResolvedFrom(acts, acts[k].id, k) then Resolved else Claimed)
  }

  ghost predicate FirstHandling(acts: seq<Act>, id: nat, k: nat) {
    k < |acts| && Handles(acts[k], id) && forall j :: 0 <= j < k ==> !Handles(acts[j], id)
  }

  /** Only its own claims and resolves change a ticket's handling. */
  lemma HandlingStays(rows: seq<Ticket>, a: Act, id: nat)
    requires id < |rows| && !Handles(a, id)
    ensures var after := Do(rows, a);
            && id < |after| && after[id].status == rows[id].status
            && after[id].assignedTo == rows[id].assignedTo && after[id].claimedAt == rows[id].claimedAt
  {
    hide RequestJson, MergedSummary, InitialSummary, ActiveRow;
  }

  lemma {:induction false} NotHandled(rows: seq<Ticket>, acts: seq<Act>, id: nat)
    requires id < |rows| && rows[id].status == Open && TableOk(rows)
    requires forall j :: 0 <= j < |acts| ==> !Handles(acts[j], id)
    ensures var after := DoAll(rows, acts);
            id < |after| && after[id].status == Open && after[id].assignedTo.None? && after[id].claimedAt.None?
  {
    hide Do, Handles;
    if acts != [] {
      var front := acts[..|acts| - 1];
      NotHandled(rows, front, id);
      HandlingStays(DoAll(rows, front), acts[|acts| - 1], id);
    }
  }

  /** An open ticket belongs to whoever first claims or resolves it, from the time of that
      claim; claims after it, or after a resolve, change nothing. */
  lemma {:induction false} TicketFate(rows: seq<Ticket>, acts: seq<Act>, id: nat, k: nat)
    requires id < |rows| && rows[id].status == Open && TableOk(rows) && FirstHandling(acts, id, k)
    ensures id < |DoAll(rows, acts)| && HandledBy(acts, k, DoAll(rows, acts)[id])
  {
    hide RequestJson, MergedSummary, InitialSummary, ResolvedFrom;
    var n := |acts| - 1;
    var front := acts[..n];
    if k == n {
      NotHandled(rows, front, id);
      ResolvedNow(acts, id, k);
    } else {
      assert FirstHandling(front, id, k);
      TicketFate(rows, front, id, k);
      ResolvedLater(acts, id, k);
      if !Handles(acts[n], id) { HandlingStays(DoAll(rows, front), acts[n], id); }
    }
  }

  lemma ResolvedNow(acts: seq<Act>, id: nat, k: nat)
    requires k == |acts| - 1
    ensures ResolvedFrom(acts, id, k) <==> acts[k].Resolve? && acts[k].id == id
  {
  }

  lemma ResolvedLater(acts: seq<Act>, id: nat, k: nat)
    requires k < |acts| - 1
    ensures var n := |acts| - 1;
            ResolvedFrom(acts, id, k) <==> ResolvedFrom(acts[..n], id, k) || (acts[n].Resolve? && acts[n].id == id)
  {
    var n := |acts| - 1;
    if j :| k <= j < n && acts[j].Resolve? && acts[j].id == id {
      assert acts[..n][j] == acts[j];
    }
  }

  /** A ticket opened along the run shows the session, user and time of the insert that
      opened it, whose request is the first it served, and keeps that request's context. */
  lemma {:induction false} OpenedAs(rows: seq<Ticket>, acts: seq<Act>, id: nat)
    requires TableOk(rows) && |rows| <= id < |DoAll(rows, acts)|
    ensures exists k :: 0 <= k < |acts| && Opens(acts[k], DoAll(rows, acts)[id], Served(rows, acts, id))
  {
    hide RequestJson, MergedSummary, InitialSummary, MergedTicket, KeepsContext;
    var n := |acts| - 1;
    var front := acts[..n];
    var before := DoAll(rows, front);
    DoAllKeeps(rows, front);
    EscalationMemory(rows, front, id);
    if id < |before| {
      OpenedAs(rows, front, id);
      var k :| 0 <= k < n && Opens(front[k], before[id], Served(rows, front, id));
      DoKeeps(before, acts[n]);
      assert Evolves(before[id], DoAll(rows, acts)[id]);
      ContextStep(before, acts[n], id);
      if acts[n].Merge? { MergeKeepsContext(Dict(acts[k].request.context), before[id].summary, acts[n].request); }
      assert Opens(acts[k], DoAll(rows, acts)[id], Served(rows, acts, id));
    } else {
      InitialKeepsContext(acts[n].request);
      assert Opens(acts[n], DoAll(rows, acts)[id], Served(rows, acts, id));
    }
  }

  ghost predicate Opens(a: Act, t: Ticket, served: seq<Request>) {
    && a.Insert? && served != [] && served[0] == a.request
    && t.session == a.request.session && t.user == a.request.user && t.createdAt == a.now
    && KeepsContext(Dict(a.request.context), t.summary)
  }

  lemma InitialKeepsContext(r: Request)
    ensures KeepsContext(Dict(r.context), InitialSummary(r))
  {
    hide RequestJson;
  }

  // --- what a ticket keeps of its context ------------------------------------------------------

  /** The request last merged into a ticket along a run. */
  function LastMerged(rows: seq<Ticket>, acts: seq<Act>, id: nat): Option<Request> {
    if acts == [] then None
    else
      var front := acts[..|acts| - 1];
      match acts[|acts| - 1]
      case Merge(r) =>
        if ActiveRow(DoAll(rows, front), r.session) == Some(id) then Some(r) else LastMerged(rows, front, id)
      case _ => LastMerged(rows, front, id)
  }

  /** `b` still tells what `a` told: every other key of a context, or the original text. */
  ghost predicate KeepsContext(a: Summary, b: Summary) {
    match a
    case Dict(fields) =>
      b.Dict? && forall k :: k in fields && k != LATEST && k != ESCALATIONS ==>
          k in b.fields && b.fields[k] == fields[k]
    case Raw(text) => b == a || (b.Dict? && ORIGINAL in b.fields && b.fields[ORIGINAL] == Text(text))
  }

  lemma MergeKeepsContext(a: Summary, b: Summary, r: Request)
    requires KeepsContext(a, b)
    ensures KeepsContext(a, MergedSummary(b, r))
    ensures var after := MergedSummary(b, r);
            after.Dict? && LATEST in after.fields && after.fields[LATEST] == RequestJson(r)
  {
    hide RequestJson, Escalations;
    assert ORIGINAL[0] != LATEST[0] && ORIGINAL[0] != ESCALATIONS[0] && LATEST[0] != ESCALATIONS[0];
  }

  /** A merge shows its request in the row it is merged into; no other statement touches a summary. */
  lemma ContextStep(rows: seq<Ticket>, a: Act, id: nat)
    requires TableOk(rows) && id < |rows|
    ensures id < |Do(rows, a)|
    ensures Do(rows, a)[id].summary ==
            if a.Merge? && ActiveRow(rows, a.request.session) == Some(id)
            then MergedSummary(rows[id].summary, a.request) else rows[id].summary
  {
    hide MergedSummary, InitialSummary;
    if a.Insert? || a.Merge? { ActiveRowFinds(rows, a.request.session); }
  }

  /** Along any run a ticket keeps its original context, and shows the latest request merged into it. */
  lemma {:induction false} ContextKept(rows: seq<Ticket>, acts: seq<Act>, id: nat)
    requires TableOk(rows) && id < |rows|
    ensures id < |DoAll(rows, acts)|
    ensures KeepsContext(rows[id].summary, DoAll(rows, acts)[id].summary)
    ensures LastMerged(rows, acts, id).Some? ==>
              var after := DoAll(rows, acts)[id].summary;
              after.Dict? && LATEST in after.fields
              && after.fields[LATEST] == RequestJson(LastMerged(rows, acts, id).value)
              && ShowsRequest(after.fields[LATEST], LastMerged(rows, acts, id).value)
  {
    hide RequestJson, MergedSummary, KeepsContext, Do, TableOk, ShowsRequest;
    if LastMerged(rows, acts, id).Some? { StoredShows(LastMerged(rows, acts, id).value); }
    if acts == [] {
      SameContext(rows[id].summary);
    } else {
      var front := acts[..|acts| - 1];
      var a := acts[|acts| - 1];
      ContextKept(rows, front, id);
      DoAllKeeps(rows, front);
      ContextStep(DoAll(rows, front), a, id);
      if a.Merge? { MergeKeepsContext(rows[id].summary, DoAll(rows, front)[id].summary, a.request); }
    }
  }

  lemma SameContext(a: Summary)
    ensures KeepsContext(a, a)
  {
  }

  // --- the repository ---------------------------------------------------------------------------

  class TicketRepository {
    var rows: seq<Ticket>

    constructor ()
      ensures rows == []
    {
      rows := [];
    }

    /** The row of the session's active ticket. */
    method FindActive(session: int) returns (id: Option<nat>)
      requires OneActive(rows)
      ensures id == ActiveRow(rows, session)
    {
      for i := 0 to |rows|
        invariant forall j :: 0 <= j < i ==> rows[j].session != session || !Active(rows[j])
      {
        if rows[i].session == session && Active(rows[i]) {
          ActiveRowFinds(rows, session);
          return Some(i);
        }
      }
      ActiveRowFinds(rows, session);
      return None;
    }

    method TryInsert(r: Request, now: int) returns (id: Option<nat>)
      requires OneActive(rows)
      modifies this
      ensures rows == InsertRow(old(rows), r, now)
      ensures id == if ActiveRow(old(rows), r.session).None? then Some(|old(rows)|) else None
    {
      var holder := FindActive(r.session);
      if holder.Some? { return None; }
      rows := rows + [Ticket(r.session, r.user, r.reason, InitialSummary(r), Open, r.priority, now, None, None)];
      return Some(|rows| - 1);
    }

    /** The locked read and merge of one transaction. */
    method TryMerge(r: Request) returns (id: Option<nat>)
      requires OneActive(rows)
      modifies this
      ensures rows == MergeRow(old(rows), r) && id == ActiveRow(old(rows), r.session)
    {
      hide RequestJson;
      id := FindActive(r.session);
      if id.None? { return; }
      ActiveRowFinds(rows, r.session);
      var ticket := rows[id.value];
      var saved := SavedContext(ticket.summary);
      saved := saved[LATEST := RequestJson(r)];
      if r.priority < ticket.priority {
        ticket := ticket.(priority := r.priority);
        ticket := ticket.(reason := r.reason);
      }
      if r.priority == PRIORITY_HIGH {
        var escalations := Escalations(saved);
        saved := saved[ESCALATIONS := Object(escalations[r.reason := RequestJson(r)])];
      }
      rows := rows[id.value := ticket.(summary := Dict(saved))];
    }

    method ClaimTicket(id: nat, agent: int, now: int) returns (won: bool)
      modifies this
      ensures rows == ClaimRow(old(rows), id, agent, now)
      ensures won <==> id < |old(rows)| && old(rows)[id].status == Open
    {
      if id < |rows| && rows[id].status == Open {
        rows := rows[id := rows[id].(status := Claimed, assignedTo := Some(agent), claimedAt := Some(now))];
        return true;
      }
      return false;
    }

    method ResolveTicket(id: nat, agent: int) returns (done: bool)
      modifies this
      ensures rows == ResolveRow(old(rows), id, agent)
      ensures done <==> id < |old(rows)| && Active(old(rows)[id])
    {
      if id < |rows| && Active(rows[id]) {
        var owner := if rows[id].assignedTo.Some? then rows[id].assignedTo else Some(agent);
        rows := rows[id := rows[id].(status := Resolved, assignedTo := owner)];
        return true;
      }
      return false;
    }

    /** Other actors' statements, in some order. */
    method Interfere(acts: seq<Act>)
      requires TableOk(rows)
      modifies this
      ensures rows == DoAll(old(rows), acts) && TableOk(rows)
    {
      hide Do;
      for i := 0 to |acts|
        invariant rows == DoAll(old(rows), acts[..i]) && TableOk(rows)
      {
        assert acts[..i + 1][..i] == acts[..i];
        DoKeeps(rows, acts[i]);
        rows := Do(rows, acts[i]);
      }
      assert acts[..|acts|] == acts;
    }

    /** One round of insert, else merge, with other actors acting before each. */
    method Attempt(r: Request, now: int, others: seq<seq<Act>>, round: nat, ghost start: seq<Ticket>)
      returns (id: Option<nat>, reused: bool, ghost trace: seq<Act>)
      requires TableOk(rows) && 2 * round + 1 < |others| && rows == DoAll(start, Rounds(r, now, others, round))
      modifies this
      ensures TableOk(rows) && rows == DoAll(start, trace)
      ensures id.Some? ==> Serves(start, trace, r, if reused then Merge(r) else Insert(r, now), id.value)
      ensures id.None? <==> RoundFails(start, r, now, others, round)
      ensures id.None? ==> trace == Rounds(r, now, others, round + 1)
    {
      hide Do, TableOk, Serves;
      var first, second := others[2 * round], others[2 * round + 1];
      ghost var past := Rounds(r, now, others, round);
      Interfere(first);
      Sequence(start, past, first);
      var inserted := InsertAct(r, now, start, past + first);
      trace := past + first + [Insert(r, now)];
      if inserted.Some? { return inserted, false, trace; }
      Interfere(second);
      Sequence(start, trace, second);
      id := MergeAct(r, start, trace + second);
      trace := trace + second + [Merge(r)];
      reused := true;
    }

    method InsertAct(r: Request, now: int, ghost start: seq<Ticket>, ghost past: seq<Act>) returns (id: Option<nat>)
      requires TableOk(rows) && rows == DoAll(start, past)
      modifies this
      ensures TableOk(rows) && rows == DoAll(start, past + [Insert(r, now)])
      ensures id.Some? ==> Serves(start, past + [Insert(r, now)], r, Insert(r, now), id.value)
      ensures id.None? <==> ActiveRow(DoAll(start, past), r.session).Some?
    {
      ServedLast(start, past, Insert(r, now));
      DoKeeps(rows, Insert(r, now));
      id := TryInsert(r, now);
    }

    method MergeAct(r: Request, ghost start: seq<Ticket>, ghost past: seq<Act>) returns (id: Option<nat>)
      requires TableOk(rows) && rows == DoAll(start, past)
      modifies this
      ensures TableOk(rows) && rows == DoAll(start, past + [Merge(r)])
      ensures id.Some? ==> Serves(start, past + [Merge(r)], r, Merge(r), id.value)
      ensures id == ActiveRow(DoAll(start, past), r.session)
    {
      hide MergedTicket;
      ServedLast(start, past, Merge(r));
      DoKeeps(rows, Merge(r));
      id := TryMerge(r);
    }

    /** `create_or_reuse_active`: three rounds of insert, else merge, with other actors
        acting before each statement. It returns a ticket that at that moment is active
        for the session. It gives up exactly if every round fails; and then in each some
        actor resolved the session's active ticket between that round's insert and read. */
    method CreateOrReuse(r: Request, now: int, others: seq<seq<Act>>)
      returns (id: Option<nat>, reused: bool, ghost trace: seq<Act>)
      requires TableOk(rows) && |others| == 6
      modifies this
      ensures TableOk(rows) && rows == DoAll(old(rows), trace)
      ensures id.Some? ==> Serves(old(rows), trace, r, if reused then Merge(r) else Insert(r, now), id.value)
      ensures id.None? <==> forall k: nat :: k < 3 ==> RoundFails(old(rows), r, now, others, k)
      ensures id.None? ==> trace == Rounds(r, now, others, 3)
      ensures id.None? ==> forall k: nat :: k < 3 ==> RoundCloses(old(rows), r, now, others, k)
    {
      hide Do, TableOk, Serves, RoundFails, Rounds, RoundCloses;
      ghost var start := rows;
      trace := [];
      NoRounds(r, now, others);
      for round := 0 to 3
        invariant TableOk(rows) && rows == DoAll(start, trace) && trace == Rounds(r, now, others, round)
        invariant forall k: nat :: k < round ==> RoundFails(start, r, now, others, k)
      {
        id, reused, trace := Attempt(r, now, others, round, start);
        if id.Some? { return; }
      }
      forall k: nat | k < 3 ensures RoundCloses(start, r, now, others, k) {
        FailsByClosing(start, r, now, others, k);
      }
      return None, false, trace;
    }
  }

  // --- the rounds of a caller that gives up ------------------------------------------------

  /** What happened up to the read of round `k`'s insert, and in `k` whole rounds. */
  ghost function ToInsert(r: Request, now: int, others: seq<seq<Act>>, k: nat): seq<Act>
    requires 2 * k < |others|
  {
    Rounds(r, now, others, k) + others[2 * k]
  }

  ghost function Rounds(r: Request, now: int, others: seq<seq<Act>>, k: nat): seq<Act>
    requires 2 * k <= |others|
  {
    if k == 0 then []
    else
      Rounds(r, now, others, k - 1) + others[2 * k - 2] + [Insert(r, now)] + others[2 * k - 1] + [Merge(r)]
  }

  lemma NoRounds(r: Request, now: int, others: seq<seq<Act>>)
    ensures Rounds(r, now, others, 0) == []
  {
  }

  /** The insert of round `k` meets an active ticket, and the read after it none. */
  ghost predicate RoundFails(start: seq<Ticket>, r: Request, now: int, others: seq<seq<Act>>, k: nat)
    requires 2 * k + 1 < |others|
  {
    && ActiveRow(DoAll(start, ToInsert(r, now, others, k)), r.session).Some?
    && ActiveRow(DoAll(start, ToInsert(r, now, others, k) + [Insert(r, now)] + others[2 * k + 1]), r.session).None?
  }

  /** Between the two statements of round `k` some actor resolves the session's active ticket. */
  ghost predicate RoundCloses(start: seq<Ticket>, r: Request, now: int, others: seq<seq<Act>>, k: nat)
    requires 2 * k + 1 < |others|
  {
    ClosesActive(DoAll(start, ToInsert(r, now, others, k) + [Insert(r, now)]), others[2 * k + 1], r.session)
  }

  lemma FailsByClosing(start: seq<Ticket>, r: Request, now: int, others: seq<seq<Act>>, k: nat)
    requires TableOk(start) && 2 * k + 1 < |others| && RoundFails(start, r, now, others, k)
    ensures RoundCloses(start, r, now, others, k)
  {
    hide Do, TableOk, ClosesActive, Rounds;
    var before := ToInsert(r, now, others, k);
    DoAllKeeps(start, before);
    Sequence(start, before, [Insert(r, now)]);
    InsertMeets(DoAll(start, before), r, now);
    Sequence(start, before + [Insert(r, now)], others[2 * k + 1]);
    ClosedByResolve(DoAll(start, before + [Insert(r, now)]), others[2 * k + 1], r.session);
  }

  lemma InsertMeets(rows: seq<Ticket>, r: Request, now: int)
    requires ActiveRow(rows, r.session).Some?
    ensures DoAll(rows, [Insert(r, now)]) == rows
  {
    assert [Insert(r, now)][..0] == [];
  }

  /** The trace ends with the caller's own statement, which this active ticket of the session served. */
  ghost predicate Serves(start: seq<Ticket>, trace: seq<Act>, r: Request, last: Act, id: nat) {
    && trace != [] && trace[|trace| - 1] == last
    && r in Served(start, trace, id)
    && var rows := DoAll(start, trace);
       id < |rows| && rows[id].session == r.session && Active(rows[id]) && rows[id].priority <= r.priority
  }

  /** Act `i` resolves the ticket that is the session's active one just then. */
  ghost predicate ResolvesActive(rows: seq<Ticket>, acts: seq<Act>, session: int, i: nat) {
    && i < |acts| && acts[i].Resolve?
    && ActiveRow(DoAll(rows, acts[..i]), session) == Some(acts[i].id)
  }

  /** Some act does. */
  ghost predicate ClosesActive(rows: seq<Ticket>, acts: seq<Act>, session: int) {
    exists i: nat :: ResolvesActive(rows, acts, session, i)
  }

  lemma {:induction false} Sequence(rows: seq<Ticket>, a: seq<Act>, b: seq<Act>)
    ensures DoAll(rows, a + b) == DoAll(DoAll(rows, a), b)
  {
    hide Do;
    if b == [] {
      assert a + b == a;
    } else {
      assert (a + b)[..|a + b| - 1] == a + b[..|b| - 1];
      Sequence(rows, a, b[..|b| - 1]);
    }
  }

  /** An own statement that takes effect is served by the row it touches, and leaves it active. */
  lemma ServedLast(rows: seq<Ticket>, trace: seq<Act>, a: Act)
    requires a.Insert? || a.Merge?
    ensures DoAll(rows, trace + [a]) == Do(DoAll(rows, trace), a)
    ensures var before := DoAll(rows, trace);
            var holder := ActiveRow(before, a.request.session);
            var id := if a.Insert? then |before| else if holder.Some? then holder.value else 0;
            (a.Insert? <==> holder.None?) ==>
              && a.request in Served(rows, trace + [a], id)
              && id < |Do(before, a)| && Do(before, a)[id].session == a.request.session && Active(Do(before, a)[id])
              && Do(before, a)[id].priority <= a.request.priority
  {
    hide RequestJson, MergedSummary, InitialSummary;
    assert (trace + [a])[..|trace|] == trace;
    ActiveRowFinds(DoAll(rows, trace), a.request.session);
  }

  /** A session loses its active ticket only when that ticket is resolved. */
  lemma {:induction false} ClosedByResolve(rows: seq<Ticket>, acts: seq<Act>, session: int)
    requires TableOk(rows) && ActiveRow(rows, session).Some?
    ensures ActiveRow(DoAll(rows, acts), session).Some? || ClosesActive(rows, acts, session)
  {
    hide Do, TableOk;
    if acts != [] {
      var k := |acts| - 1;
      ClosedByResolve(rows, acts[..k], session);
      if ClosesActive(rows, acts[..k], session) {
        var i: nat :| ResolvesActive(rows, acts[..k], session, i);
        assert acts[..k][..i] == acts[..i];
        assert ResolvesActive(rows, acts, session, i);
      } else {
        if acts[k].Resolve? && ActiveRow(DoAll(rows, acts[..k]), session) == Some(acts[k].id) {
          assert ResolvesActive(rows, acts, session, k);
        } else {
          KeepsActive(DoAll(rows, acts[..k]), acts[k], session);
        }
      }
    }
  }

  lemma KeepsActive(rows: seq<Ticket>, a: Act, session: int)
    requires ActiveRow(rows, session).Some?
    requires !(a.Resolve? && ActiveRow(rows, session) == Some(a.id))
    ensures ActiveRow(Do(rows, a), session).Some?
  {
    hide RequestJson, MergedSummary, InitialSummary;
    ActiveRowFinds(rows, session);
    ActiveRowFinds(Do(rows, a), session);
    var id := ActiveRow(rows, session).value;
    if a.Merge? { ActiveRowFinds(rows, a.request.session); }
    assert id < |Do(rows, a)| && Do(rows, a)[id].session == session && Active(Do(rows, a)[id]);
  }
}
