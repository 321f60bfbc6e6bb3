/** Serving order of tickets (ticket_repository.py, `list_by_status`,
    `position_in_queue` and `count_open`). */
module TicketQueue {
  import opened Wrappers
  import opened Tickets

  /** ORDER BY priority, created_at, id. */
  predicate Before(rows: seq<Ticket>, i: nat, j: nat) {
    && i < |rows| && j < |rows|
    && (|| rows[i].priority < rows[j].priority
        || (rows[i].priority == rows[j].priority && rows[i].createdAt < rows[j].createdAt)
        || (rows[i].priority == rows[j].priority && rows[i].createdAt == rows[j].createdAt && i < j))
  }

  ghost predicate InTable(rows: seq<Ticket>, ids: seq<nat>) {
    forall a :: 0 <= a < |ids| ==> ids[a] < |rows|
  }

  predicate Has(rows: seq<Ticket>, status: Status, id: nat) {
    id < |rows| && rows[id].status == status
  }

  function Place(rows: seq<Ticket>, ids: seq<nat>, id: nat): seq<nat> {
    if ids == [] then [id]
    else if Before(rows, id, ids[0]) then [id] + ids
    else [ids[0]] + Place(rows, ids[1..], id)
  }

  /** The ids below `k` with a status, sorted as the query sorts them. */
  function Sorted(rows: seq<Ticket>, status: Status, k: nat): (ids: seq<nat>)
    requires k <= |rows|
    ensures forall i: nat :: i in ids <==> i < k && Has(rows, status, i)
  {
    if k == 0 then []
    else
      var ids := Sorted(rows, status, k - 1);
      if rows[k - 1].status == status then
        PlaceHolds(rows, ids, k - 1);
        Place(rows, ids, k - 1)
      else ids
  }

  function Serving(rows: seq<Ticket>, status: Status): seq<nat> { Sorted(rows, status, |rows|) }

  ghost predicate InOrder(rows: seq<Ticket>, ids: seq<nat>) {
    InTable(rows, ids) && forall a, b :: 0 <= a < b < |ids| ==> Before(rows, ids[a], ids[b])
  }

  lemma {:induction false} PlaceHolds(rows: seq<Ticket>, ids: seq<nat>, id: nat)
    ensures forall i: nat :: i in Place(rows, ids, id) <==> i == id || i in ids
  {
    hide Before;
    if ids != [] {
      PlaceHolds(rows, ids[1..], id);
      assert forall i: nat :: i in ids <==> i == ids[0] || i in ids[1..];
    }
  }

  lemma {:induction false} PlaceKeeps(rows: seq<Ticket>, ids: seq<nat>, id: nat)
    requires id < |rows| && InOrder(rows, ids) && id !in ids
    ensures InOrder(rows, Place(rows, ids, id))
  {
    hide Before;
    if ids == [] {
    } else if Before(rows, id, ids[0]) {
      forall b | 0 <= b < |ids| ensures Before(rows, id, ids[b]) {
        BeforeTransitive(rows, id, ids[0], ids[b]);
      }
    } else {
      var tail := ids[1..];
      TailOrder(rows, ids);
      PlaceKeeps(rows, tail, id);
      PlaceHolds(rows, tail, id);
      var rest := Place(rows, tail, id);
      BeforeTotal(rows, id, ids[0]);
      forall b | 0 <= b < |rest| ensures Before(rows, ids[0], rest[b]) {
        assert rest[b] in rest;
        if rest[b] != id {
          FirstIsLeast(rows, ids);
          assert rest[b] in ids && rest[b] != ids[0];
        }
      }
    }
  }

  lemma BeforeTotal(rows: seq<Ticket>, i: nat, j: nat)
    requires i < |rows| && j < |rows|
    ensures i != j ==> (Before(rows, i, j) <==> !Before(rows, j, i))
    ensures !Before(rows, i, i)
  {
  }

  lemma BeforeTransitive(rows: seq<Ticket>, i: nat, j: nat, k: nat)
    requires i < |rows| && j < |rows| && k < |rows|
    ensures Before(rows, i, j) && (j == k || Before(rows, j, k)) ==> Before(rows, i, k)
  {
  }

  lemma {:induction false} SortedInOrder(rows: seq<Ticket>, status: Status, k: nat)
    requires k <= |rows|
    ensures InOrder(rows, Sorted(rows, status, k))
  {
    hide Before;
    if k > 0 {
      SortedInOrder(rows, status, k - 1);
      if rows[k - 1].status == status {
        PlaceKeeps(rows, Sorted(rows, status, k - 1), k - 1);
      }
    }
  }

  /** The order is strict, so a sorted listing of given ids is unique: whatever sort
      the database uses, it returns this one. */
  lemma {:induction false} OrderUnique(rows: seq<Ticket>, a: seq<nat>, b: seq<nat>)
    requires InOrder(rows, a) && InOrder(rows, b)
    requires forall i: nat :: i in a <==> i in b
    ensures a == b
  {
    assert (a != [] ==> a[0] in a) && (b != [] ==> b[0] in b);
    if a != [] && b != [] {
      FirstIsLeast(rows, a);
      FirstIsLeast(rows, b);
      assert a[0] in b && b[0] in a;
      BeforeTotal(rows, a[0], b[0]);
      assert a[0] == b[0];
      TailOrder(rows, a);
      TailOrder(rows, b);
      OrderUnique(rows, a[1..], b[1..]);
    }
  }

  lemma FirstIsLeast(rows: seq<Ticket>, a: seq<nat>)
    requires InOrder(rows, a) && a != []
    ensures forall i: nat :: i in a ==> i == a[0] || Before(rows, a[0], i)
  {
    hide Before;
  }

  lemma TailOrder(rows: seq<Ticket>, a: seq<nat>)
    requires InOrder(rows, a) && a != []
    ensures InOrder(rows, a[1..])
    ensures forall i: nat :: i in a[1..] <==> i in a && i != a[0]
  {
    assert forall i :: 0 < i < |a| ==> a[i] == a[1..][i - 1];
    forall k | 0 <= k < |a[1..]| ensures a[1..][k] != a[0] {
      assert Before(rows, a[0], a[k + 1]);
      BeforeTotal(rows, a[0], a[0]);
    }
  }

  // --- positions ------------------------------------------------------------------------

  function Index(ids: seq<nat>, id: nat): (r: Option<nat>)
    ensures r.Some? <==> id in ids
    ensures r.Some? ==> r.value < |ids| && ids[r.value] == id
  {
    if ids == [] then None
    else if ids[0] == id then Some(0)
    else match Index(ids[1..], id) case None => None case Some(k) => Some(k + 1)
  }

  /** `position_in_queue` */
  function Position(rows: seq<Ticket>, id: nat): Option<nat> {
    match Index(Serving(rows, Open), id)
    case None => None
    case Some(k) => Some(k + 1)
  }

  method PositionInQueue(rows: seq<Ticket>, id: nat) returns (p: Option<nat>)
    ensures p == Position(rows, id)
  {
    hide Serving, Index;
    var ids := Serving(rows, Open);
    for i := 0 to |ids|
      invariant Index(ids, id) == Shifted(Index(ids[i..], id), i)
    {
      IndexStep(ids, id, i);
      if ids[i] == id { return Some(i + 1); }
    }
    return None;
  }

  function Shifted(r: Option<nat>, i: nat): Option<nat> {
    match r case None => None case Some(k) => Some(k + i)
  }

  lemma IndexStep(ids: seq<nat>, id: nat, i: nat)
    requires i < |ids|
    ensures Index(ids[i..], id) == if ids[i] == id then Some(0) else Shifted(Index(ids[i + 1..], id), 1)
  {
    assert ids[i..][1..] == ids[i + 1..];
  }

  /** Open tickets served before a given one. */
  ghost function Ahead(rows: seq<Ticket>, id: nat): set<nat>
    requires id < |rows|
  {
    set j | 0 <= j < |rows| && rows[j].status == Open && Before(rows, j, id)
  }

  function OpenIds(rows: seq<Ticket>): set<nat> { set j | 0 <= j < |rows| && rows[j].status == Open }

  function Elements(ids: seq<nat>): set<nat> { set i | i in ids }

  lemma {:induction false} DistinctCount(ids: seq<nat>)
    requires forall a, b :: 0 <= a < b < |ids| ==> ids[a] != ids[b]
    ensures |Elements(ids)| == |ids|
  {
    if ids != [] {
      var last := ids[|ids| - 1];
      var front := ids[..|ids| - 1];
      DistinctCount(front);
      assert Elements(ids) == Elements(front) + {last};
    }
  }

  lemma InOrderDistinct(rows: seq<Ticket>, ids: seq<nat>)
    requires InOrder(rows, ids)
    ensures forall a, b :: 0 <= a < b < |ids| ==> ids[a] != ids[b]
  {
    forall a, b | 0 <= a < b < |ids| ensures ids[a] != ids[b] {
      assert Before(rows, ids[a], ids[b]);
      BeforeTotal(rows, ids[a], ids[a]);
    }
  }

  /** Exactly the open tickets have positions; a position is one plus the number of
      open tickets smaller in (priority, created time, id). */
  lemma PositionIsRank(rows: seq<Ticket>, id: nat)
    ensures Position(rows, id).Some? <==> Has(rows, Open, id)
    ensures Has(rows, Open, id) ==> Position(rows, id) == Some(1 + |Ahead(rows, id)|)
  {
    hide Before;
    var ids := Serving(rows, Open);
    SortedInOrder(rows, Open, |rows|);
    if Has(rows, Open, id) {
      var k := Index(ids, id).value;
      forall j: nat ensures j in Ahead(rows, id) <==> j in ids[..k] {
        if j in ids {
          var b :| 0 <= b < |ids| && ids[b] == j;
          if b < k { assert ids[..k][b] == j; }
          if b >= k {
            BeforeTotal(rows, id, j);
            InOrderDistinct(rows, ids);
          }
        }
      }
      assert Ahead(rows, id) == Elements(ids[..k]);
      InOrderDistinct(rows, ids);
      DistinctCount(ids[..k]);
    }
  }

  /** Positions are a bijection between the open tickets and 1..count. */
  lemma PositionsBijective(rows: seq<Ticket>)
    ensures |Serving(rows, Open)| == |OpenIds(rows)|
    ensures forall id :: Has(rows, Open, id) ==> 1 <= Position(rows, id).value <= |OpenIds(rows)|
    ensures forall i, j :: Has(rows, Open, i) && Has(rows, Open, j) && Position(rows, i) == Position(rows, j) ==> i == j
    ensures forall p :: 1 <= p <= |OpenIds(rows)| ==> exists id :: Has(rows, Open, id) && Position(rows, id) == Some(p)
  {
    hide Before;
    var ids := Serving(rows, Open);
    SortedInOrder(rows, Open, |rows|);
    InOrderDistinct(rows, ids);
    DistinctCount(ids);
    assert Elements(ids) == OpenIds(rows);
    forall id | Has(rows, Open, id) ensures 1 <= Position(rows, id).value <= |OpenIds(rows)| {
      PositionIsRank(rows, id);
    }
    forall p | 1 <= p <= |OpenIds(rows)| ensures exists id :: Has(rows, Open, id) && Position(rows, id) == Some(p) {
      TicketAt(rows, p);
    }
  }

  lemma TicketAt(rows: seq<Ticket>, p: nat)
    requires 1 <= p <= |Serving(rows, Open)|
    ensures exists id :: Has(rows, Open, id) && Position(rows, id) == Some(p)
  {
    hide Before, Sorted, Serving;
    SortedMeans(rows);
    var ids := Serving(rows, Open);
    InOrderDistinct(rows, ids);
    var id := ids[p - 1];
    assert id in ids;
    var k := Index(ids, id).value;
    assert ids[k] == ids[p - 1];
    assert Has(rows, Open, id) && Position(rows, id) == Some(p);
  }

  // --- pages ------------------------------------------------------------------------------

  /** `list_by_status(status, skip, limit)` */
  function Page(rows: seq<Ticket>, status: Status, skip: nat, limit: nat): seq<nat> {
    var ids := Serving(rows, status);
    if skip >= |ids| then [] else if skip + limit >= |ids| then ids[skip..] else ids[skip..skip + limit]
  }

  function Pages(rows: seq<Ticket>, status: Status, limit: nat, k: nat): seq<nat> {
    if k == 0 then [] else Pages(rows, status, limit, k - 1) + Page(rows, status, (k - 1) * limit, limit)
  }

  /** Consecutive pages concatenate to the serving order. */
  lemma {:induction false} PagesConcatenate(rows: seq<Ticket>, status: Status, limit: nat, k: nat)
    ensures var ids := Serving(rows, status);
            Pages(rows, status, limit, k) == if k * limit >= |ids| then ids else ids[..k * limit]
  {
    hide Serving;
    if k > 0 {
      PagesConcatenate(rows, status, limit, k - 1);
      assert k * limit == (k - 1) * limit + limit;
    } else {
      assert 0 * limit == 0;
    }
  }

  // --- claiming -----------------------------------------------------------------------------

  function Without(ids: seq<nat>, k: nat): seq<nat>
    requires k < |ids|
  {
    ids[..k] + ids[k + 1..]
  }

  /** Claiming a ticket takes it out of the order and moves nothing else. */
  lemma ClaimLeavesOrder(rows: seq<Ticket>, id: nat, agent: int, now: int)
    requires Has(rows, Open, id)
    ensures id in Serving(rows, Open)
    ensures Serving(ClaimRow(rows, id, agent, now), Open)
            == Without(Serving(rows, Open), Index(Serving(rows, Open), id).value)
  {
    hide Before, Sorted;
    var ids := Serving(rows, Open);
    var after := ClaimRow(rows, id, agent, now);
    SortedMeans(rows);
    SortedMeans(after);
    var k := Index(ids, id).value;
    InOrderDistinct(rows, ids);
    var rest := Without(ids, k);
    assert forall i :: 0 <= i < |rest| ==> rest[i] == ids[if i < k then i else i + 1];
    forall a, b | 0 <= a < b < |rest| ensures Before(after, rest[a], rest[b]) {
      SameOrder(rows, id, agent, now, rest[a], rest[b]);
    }
    forall i: nat ensures i in rest <==> i in Serving(after, Open) {
      if i in ids && i != id {
        var b :| 0 <= b < |ids| && ids[b] == i;
        assert b != k && rest[if b < k then b else b - 1] == i;
      }
    }
    OrderUnique(after, rest, Serving(after, Open));
  }

  lemma SortedMeans(rows: seq<Ticket>)
    ensures InOrder(rows, Serving(rows, Open))
    ensures forall i: nat :: i in Serving(rows, Open) <==> Has(rows, Open, i)
  {
    hide Before;
    SortedInOrder(rows, Open, |rows|);
  }

  lemma SameOrder(rows: seq<Ticket>, id: nat, agent: int, now: int, i: nat, j: nat)
    requires i < |rows| && j < |rows|
    ensures Before(ClaimRow(rows, id, agent, now), i, j) <==> Before(rows, i, j)
  {
  }

  /** Claiming lowers by one exactly the positions behind the claimed ticket. */
  lemma ClaimShiftsPositions(rows: seq<Ticket>, id: nat, agent: int, now: int, other: nat)
    requires Has(rows, Open, id) && Has(rows, Open, other) && other != id
    ensures Position(ClaimRow(rows, id, agent, now), id).None?
    ensures Position(ClaimRow(rows, id, agent, now), other) ==
            Some(if Position(rows, other).value > Position(rows, id).value
                 then Position(rows, other).value - 1 else Position(rows, other).value)
  {
    hide Before, Serving, ClaimRow, Index, InOrder;
    ClaimLeavesOrder(rows, id, agent, now);
    SortedMeans(rows);
    var ids := Serving(rows, Open);
    InOrderDistinct(rows, ids);
    IndexWithout(ids, Index(ids, id).value, Index(ids, other).value);
  }

  lemma IndexWithout(ids: seq<nat>, k: nat, b: nat)
    requires k < |ids| && b < |ids| && k != b && forall i, j :: 0 <= i < j < |ids| ==> ids[i] != ids[j]
    ensures Index(Without(ids, k), ids[k]).None?
    ensures Index(Without(ids, k), ids[b]) == Some(if b > k then b - 1 else b)
  {
    hide Index;
    var rest := Without(ids, k);
    assert forall i :: 0 <= i < |rest| ==> rest[i] == ids[if i < k then i else i + 1];
    assert rest[if b > k then b - 1 else b] == ids[b];
  }

  /** Who stands before whom: the more urgent, of equally urgent ones the earlier, of
      those the one entered first. */
  lemma PositionsFollow(rows: seq<Ticket>, i: nat, j: nat)
    requires Has(rows, Open, i) && Has(rows, Open, j) && i != j
    ensures Position(rows, i).Some? && Position(rows, j).Some?
    ensures Position(rows, i).value < Position(rows, j).value <==>
            if rows[i].priority != rows[j].priority then rows[i].priority < rows[j].priority
            else if rows[i].createdAt != rows[j].createdAt then rows[i].createdAt < rows[j].createdAt
            else i < j
  {
    hide Serving, Index;
    var ids := Serving(rows, Open);
    SortedMeans(rows);
    var a, b := Index(ids, i).value, Index(ids, j).value;
    assert ids[a] == i && ids[b] == j;
    if a < b { assert Before(rows, ids[a], ids[b]); }
    if b < a { assert Before(rows, ids[b], ids[a]); }
    BeforeTotal(rows, i, j);
  }
}
