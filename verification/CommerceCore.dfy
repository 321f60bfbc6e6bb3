/** `_mutate` and the fault controller as the source runs them, on objects whose fields
    they update; tied to the steps of CommerceProtocol. */
module CommerceCore {
  import opened Wrappers
  import opened CommerceModel
  import opened CommerceProtocol
  import opened CommerceStore

  /** What surrounds one call: the catalog and clock its transaction sees, the uuid it
      draws, a busy database, and fault lookups that fail open. */
  datatype Surroundings = Surroundings(shelf: Shelf, now: Time, uuid: string, busy: bool, openPre: bool, openPost: bool)

  /** The protocol's steps of one call, in order; those that do not apply change nothing. */
  ghost function Alone(m: Market, s: System, id: nat, call: Call, a: Surroundings): System {
    var s1 := Step(m, s, Begin(id, call));
    var s2 := Step(m, s1, ReadReceipt(id));
    var s3 := Step(m, s2, TakePreFault(id, a.openPre));
    var s4 := Step(m, s3, Write(id, a.shelf, a.uuid, a.busy));
    var s5 := Step(m, s4, Recover(id));
    var s6 := Step(m, s5, Invalidate(id));
    Step(m, s6, TakePostFault(id, a.openPost))
  }

  function CallSteps(id: nat, call: Call, a: Surroundings): seq<Label> {
    [Begin(id, call), ReadReceipt(id), TakePreFault(id, a.openPre), Write(id, a.shelf, a.uuid, a.busy),
     Recover(id), Invalidate(id), TakePostFault(id, a.openPost)]
  }

  lemma RunSnoc(m: Market, s: System, labels: seq<Label>, k: nat)
    requires k < |labels|
    ensures Run(m, s, labels[..k + 1]) == Step(m, Run(m, s, labels[..k]), labels[k])
  {
    hide Step;
    assert labels[..k + 1][..k] == labels[..k];
  }

  /** So the call alone is one of the runs every theorem about runs speaks of. */
  lemma AloneIsARun(m: Market, s: System, id: nat, call: Call, a: Surroundings)
    ensures Run(m, s, CallSteps(id, call, a)) == Alone(m, s, id, call, a)
  {
    hide Step, Run;
    var ls := CallSteps(id, call, a);
    assert Run(m, s, ls[..0]) == s by { RunNothing(m, s); assert ls[..0] == []; }
    RunSnoc(m, s, ls, 0);
    RunSnoc(m, s, ls, 1);
    RunSnoc(m, s, ls, 2);
    RunSnoc(m, s, ls, 3);
    RunSnoc(m, s, ls, 4);
    RunSnoc(m, s, ls, 5);
    RunSnoc(m, s, ls, 6);
    assert ls[..7] == ls;
  }

  lemma RunNothing(m: Market, s: System)
    ensures Run(m, s, []) == s
  {
  }

  // --- the call in one piece ---------------------------------------------------------

  datatype Provider = Provider(db: Db, rules: seq<Rule>, cache: Option<seq<Delta>>)

  function Faulted(p: Provider, enabled: bool, open: bool, op: Op, modes: set<Mode>): (Option<Mode>, Provider) {
    if !enabled || open then (None, p)
    else
      var (mode, rules) := Consume(p.rules, op, modes);
      (mode, p.(rules := rules))
  }

  /** From the write transaction on. */
  function Written(m: Market, p: Provider, enabled: bool, call: Call, a: Surroundings, processing: bool)
    : (Provider, Result<Reply, Error>)
  {
    if a.busy then (p, Err(Unknown))
    else
      match Transaction(m, p.db, call, Env(a.shelf, a.now, a.uuid, processing))
      case Err(e) =>
        (p, if e != Integrity then Err(e)
            else if call.key in p.db.receipts then Replay(p.db.receipts[call.key], call) else Err(Unknown))
      case Ok((db, reply)) =>
        var (post, q) := Faulted(p.(db := db, cache := None), enabled, a.openPost, call.op, {UnknownAfterCommit});
        (q, if post.Some? then Err(Unknown) else Ok(reply))
  }

  function Mutated(m: Market, p: Provider, enabled: bool, call: Call, a: Surroundings)
    : (Provider, Result<Reply, Error>)
  {
    if !Admissible(call) then (p, Err(Rejected))
    else if call.key in p.db.receipts then (p, Replay(p.db.receipts[call.key], call))
    else
      var (pre, q) := Faulted(p, enabled, a.openPre, call.op, {Reject, ProcessingPayment});
      if pre == Some(Reject) then (q, Err(Rejected))
      else Written(m, q, enabled, call, a, pre == Some(ProcessingPayment))
  }

  /** The protocol state of a provider with one call, or none, under way. */
  function At(p: Provider, enabled: bool, now: Time, calls: map<nat, Running>, answers: seq<Answer>,
      log: seq<Event>): System {
    System(p.db, p.rules, enabled, now, calls, answers, log, p.cache, map[], calls.Keys)
  }

  /** The state shows the outcome: nothing under way, one answer. */
  ghost predicate Shows(t: System, call: Call, outcome: (Provider, Result<Reply, Error>)) {
    && t.db == outcome.0.db && t.rules == outcome.0.rules && t.cache == outcome.0.cache
    && t.calls == map[] && t.answers == [Answer(0, call, outcome.1)]
  }

  /** Once answered, the call's remaining steps do nothing. */
  lemma NothingLeft(m: Market, s: System, id: nat, a: Surroundings)
    requires id !in s.calls
    ensures Step(m, s, ReadReceipt(id)) == s && Step(m, s, TakePreFault(id, a.openPre)) == s
    ensures Step(m, s, Write(id, a.shelf, a.uuid, a.busy)) == s && Step(m, s, Recover(id)) == s
    ensures Step(m, s, Invalidate(id)) == s && Step(m, s, TakePostFault(id, a.openPost)) == s
  {
  }

  ghost function FromWrite(m: Market, s: System, id: nat, a: Surroundings): System {
    var s4 := Step(m, s, Write(id, a.shelf, a.uuid, a.busy));
    var s5 := Step(m, s4, Recover(id));
    var s6 := Step(m, s5, Invalidate(id));
    Step(m, s6, TakePostFault(id, a.openPost))
  }

  lemma Finished(s: System, id: nat, result: Result<Reply, Error>)
    requires s.calls.Keys == {id}
    ensures Finish(s, id, result).calls == map[]
  {
  }

  lemma WriteStarts(m: Market, s: System, processing: bool, call: Call, a: Surroundings)
    requires 0 in s.calls && s.calls[0] == Running(call, Writing(processing)) && Fresh(s.db, a.uuid)
    ensures Step(m, s, Write(0, a.shelf, a.uuid, a.busy))
            == WriteStep(m, s, 0, Env(a.shelf, s.clock, a.uuid, processing), a.busy)
  {
    hide WriteStep, Fresh;
  }

  /** A commit leaves the drop of the cache and the last fault to come. */
  lemma CommittedAlone(m: Market, s: System, p: Provider, call: Call, a: Surroundings, reply: Reply)
    requires s.calls == map[0 := Running(call, Invalidating(reply))] && s.answers == []
    requires p == Provider(s.db, s.rules, None)
    ensures var t := Step(m, Step(m, Step(m, s, Recover(0)), Invalidate(0)), TakePostFault(0, a.openPost));
            var (post, q) := Faulted(p, s.faultsEnabled, a.openPost, call.op, {UnknownAfterCommit});
            Shows(t, call, (q, if post.Some? then Err(Unknown) else Ok(reply)))
  {
    hide Consume;
    assert Step(m, s, Recover(0)) == s;
    var s6 := Move(s, 0, PostFault(reply)).(cache := None);
    assert Step(m, s, Invalidate(0)) == s6;
    assert s6.calls == map[0 := Running(call, PostFault(reply))];
    var t := PostFaultStep(s6, 0, reply, a.openPost);
    assert t.calls == map[];
  }

  lemma RecoveredAlone(m: Market, s: System, call: Call)
    requires s.calls == map[0 := Running(call, Recovering)]
    ensures Step(m, s, Recover(0)) == RecoverStep(s, 0) && RecoverStep(s, 0).calls == map[]
  {
    hide Replay;
  }

  /** The write, recovery, invalidation and last fault of a call that runs alone. */
  lemma WriteAlone(m: Market, s: System, p: Provider, call: Call, a: Surroundings, processing: bool)
    requires s == At(p, s.faultsEnabled, a.now, map[0 := Running(call, Writing(processing))], [], [])
    requires Fresh(p.db, a.uuid)
    ensures Shows(FromWrite(m, s, 0, a), call, Written(m, p, s.faultsEnabled, call, a, processing))
  {
    hide Transaction, Fresh, Consume, Replay, Step, Faulted;
    var env := Env(a.shelf, a.now, a.uuid, processing);
    var s4 := WriteStep(m, s, 0, env, a.busy);
    WriteStarts(m, s, processing, call, a);
    if a.busy {
      Finished(s, 0, Err(Unknown));
      NothingLeft(m, s4, 0, a);
    } else {
      match Transaction(m, p.db, call, env)
      case Err(Integrity) =>
        assert s4.calls == map[0 := Running(call, Recovering)];
        RecoveredAlone(m, s4, call);
        NothingLeft(m, RecoverStep(s4, 0), 0, a);
      case Err(e) =>
        Finished(s, 0, Err(e));
        NothingLeft(m, s4, 0, a);
      case Ok((db, reply)) =>
        assert s4.calls == map[0 := Running(call, Invalidating(reply))];
        CommittedAlone(m, s4, p.(db := db, cache := None), call, a, reply);
    }
  }

  /** A call that runs alone has exactly this effect and answer. */
  lemma AloneIsMutated(m: Market, p: Provider, enabled: bool, call: Call, a: Surroundings)
    requires Fresh(p.db, a.uuid)
    ensures Shows(Alone(m, At(p, enabled, a.now, map[], [], []), 0, call, a), call, Mutated(m, p, enabled, call, a))
  {
    hide Transaction, Fresh, Consume, Replay, Written, Admissible;
    var s := At(p, enabled, a.now, map[], [], []);
    var s1 := Step(m, s, Begin(0, call));
    if !Admissible(call) {
      NothingLeft(m, s1, 0, a);
    } else {
      assert s1.calls == map[0 := Running(call, Reading)];
      var s2 := ReadReceiptStep(s1, 0);
      assert Step(m, s1, ReadReceipt(0)) == s2;
      if call.key in p.db.receipts {
        assert s2.calls == map[];
        NothingLeft(m, s2, 0, a);
      } else {
        assert s2.calls == map[0 := Running(call, PreFault)];
        var s3 := PreFaultStep(s2, 0, a.openPre);
        assert Step(m, s2, TakePreFault(0, a.openPre)) == s3;
        var (pre, q) := Faulted(p, enabled, a.openPre, call.op, {Reject, ProcessingPayment});
        if pre == Some(Reject) {
          assert s3.calls == map[];
          NothingLeft(m, s3, 0, a);
        } else {
          assert s3.calls == map[0 := Running(call, Writing(pre == Some(ProcessingPayment)))];
          WriteAlone(m, s3, q, call, a, pre == Some(ProcessingPayment));
        }
      }
    }
  }

  lemma OrderKeepsKeys(m: Market, db: Db, owner: int, quoteId: Id, env: Env)
    requires CreateOrderWork(m, db, owner, quoteId, env).Ok?
    ensures DistinctKeys(CreateOrderWork(m, db, owner, quoteId, env).value.0.deltas)
  {
    hide ValidatedLines, DistinctKeys, StockRows, SamePrices;
  }

  /** Stock rows stay distinct whatever commits: the insert itself refuses a duplicate. */
  lemma TransactionKeepsKeys(m: Market, db: Db, call: Call, env: Env)
    requires DistinctKeys(db.deltas) && Transaction(m, db, call, env).Ok?
    ensures DistinctKeys(Transaction(m, db, call, env).value.0.deltas)
  {
    hide ValidatedLines, DistinctKeys, Subtotal, OpenQuote, SamePrices, Replay, CreateOrderWork;
    if call.key !in db.receipts && call.op.CreateOrder? {
      OrderKeepsKeys(m, db, call.owner, call.op.quoteId, env);
    }
  }

  class FaultController {
    const enabled: bool
    var rules: seq<Rule>

    constructor (enabled: bool)
      ensures this.enabled == enabled && rules == []
    {
      this.enabled := enabled;
      rules := [];
    }

    /** `plan`: an unknown kind or mode is refused; a count below one plans nothing. */
    method Plan(kind: string, mode: string, target: Option<Id>, times: int) returns (r: Result<(), Error>)
      modifies this
      ensures if enabled && kind in FAULT_KINDS && ParseMode(mode).Some?
              then r.Ok? && rules == old(rules) + seq(if times < 0 then 0 else times,
                                                      _ => Rule(kind, ParseMode(mode).value, target))
              else r == Err(Rejected) && rules == old(rules)
    {
      if !enabled { return Err(Rejected); }
      if kind !in FAULT_KINDS { return Err(Rejected); }
      var parsed := ParseMode(mode);
      if parsed.None? { return Err(Rejected); }
      var rule := Rule(kind, parsed.value, target);
      var k := 0;
      while k < times
        invariant 0 <= k && (k <= times || k == 0) && rules == old(rules) + seq(k, _ => rule)
      {
        rules := rules + [rule];
        k := k + 1;
      }
      return Ok(());
    }

    /** `clear` */
    method Clear() returns (r: Result<nat, Error>)
      modifies this
      ensures if enabled then r == Ok(|old(rules)|) && rules == [] else r == Err(Rejected) && rules == old(rules)
    {
      if !enabled { return Err(Rejected); }
      var count := |rules|;
      rules := [];
      return Ok(count);
    }

    /** `consume`: SELECT the oldest matching rule, DELETE it; an SQLite error changes nothing. */
    method Take(op: Op, modes: set<Mode>, sqliteError: bool) returns (mode: Option<Mode>)
      modifies this
      ensures if !enabled || sqliteError then mode.None? && rules == old(rules)
              else (mode, rules) == Consume(old(rules), op, modes)
    {
      hide Applies, Consume;
      if !enabled || sqliteError { return None; }
      for i := 0 to |rules|
        invariant rules == old(rules) && forall j :: 0 <= j < i ==> !Applies(rules[j], op, modes)
      {
        if Applies(rules[i], op, modes) {
          ConsumeFirst(rules, op, modes, i);
          mode := Some(rules[i].mode);
          rules := rules[..i] + rules[i + 1..];
          return;
        }
      }
      ConsumeNone(rules, op, modes);
      return None;
    }
  }

  class ProviderCore {
    const market: Market
    const database: ProviderDatabase
    const faults: FaultController
    var stockCache: Option<seq<Delta>>

    ghost predicate Valid()
      reads this, database
    {
      database.market == market && DistinctKeys(database.deltas)
    }

    constructor (database: ProviderDatabase, faults: FaultController)
      requires DistinctKeys(database.deltas)
      ensures Valid() && this.database == database && this.faults == faults && stockCache == None
    {
      market := database.market;
      this.database := database;
      this.faults := faults;
      stockCache := None;
    }

    function View(): Provider
      reads this, database, faults
    {
      Provider(database.Snapshot(), faults.rules, stockCache)
    }

    /** `_stock_deltas` up to its read: nothing is read if something is cached. */
    method ReadStockRows() returns (rows: Option<seq<Delta>>)
      ensures rows == if stockCache.None? then Some(database.deltas) else None
      ensures var s := At(View(), faults.enabled, 0, map[], [], []);
              Step(market, s, ReadStock(0)).pending == if rows.Some? then map[0 := rows.value] else map[]
    {
      return if stockCache.None? then Some(database.deltas) else None;
    }

    /** The rest of it: keep and show the rows read, whatever was committed meanwhile. */
    method KeepStockRows(rows: seq<Delta>) returns (shown: seq<Delta>)
      modifies this
      ensures shown == rows && stockCache == Some(rows)
      ensures var s := At(old(View()), faults.enabled, 0, map[], [], []).(pending := map[0 := rows]);
              At(View(), faults.enabled, 0, map[], [], []) == Step(market, s, StoreStock(0))
    {
      stockCache := Some(rows);
      assert map[0 := rows] - {0} == map[];
      return rows;
    }

    /** `_invalidate_stock_cache` */
    method InvalidateStockCache()
      modifies this`stockCache
      ensures stockCache == None
    {
      stockCache := None;
    }

    /** `_mutate`, run by one caller: its effect and answer are those of the protocol's steps. */
    method Mutate(call: Call, a: Surroundings) returns (r: Result<Reply, Error>)
      requires Valid() && Fresh(database.Snapshot(), a.uuid)
      modifies this, database, faults
      ensures Valid()
      ensures (View(), r) == Mutated(market, old(View()), faults.enabled, call, a)
      ensures Shows(Alone(market, At(old(View()), faults.enabled, a.now, map[], [], []), 0, call, a), call, (View(), r))
    {
      hide Transaction, Consume, DistinctKeys, Replay, Fresh, Alone, Shows;
      AloneIsMutated(market, View(), faults.enabled, call, a);
      if !Admissible(call) {
        return Err(Rejected);
      }
      var receipt := database.FetchReceipt(call.key);
      if receipt.Some? {
        return Replay(receipt.value, call);
      }
      var pre := faults.Take(call.op, {Reject, ProcessingPayment}, a.openPre);
      if pre == Some(Reject) {
        return Err(Rejected);
      }
      if a.busy {
        return Err(Unknown);
      }
      var env := Env(a.shelf, a.now, a.uuid, pre == Some(ProcessingPayment));
      if Transaction(market, database.Snapshot(), call, env).Ok? {
        TransactionKeepsKeys(market, database.Snapshot(), call, env);
      }
      r := database.RunWrite(call, env);
      if r == Err(Integrity) {
        receipt := database.FetchReceipt(call.key);
        match receipt {
          case None => return Err(Unknown);
          case Some(concurrent) => return Replay(concurrent, call);
        }
      }
      if r.Err? {
        return;
      }
      InvalidateStockCache();
      var post := faults.Take(call.op, {UnknownAfterCommit}, a.openPost);
      if post.Some? {
        return Err(Unknown);
      }
    }
  }
}
