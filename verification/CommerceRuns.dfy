/** What every reachable state of the interleaved system satisfies. */
module CommerceRuns {
  import opened Wrappers
  import opened CommerceModel
  import opened CommerceInvariant
  import opened CommerceOrders
  import opened CommerceProtocol
  import Sku

  /** The key's receipt holds this call's owner, operation and reply. */
  ghost predicate Holds(db: Db, call: Call, reply: Reply) {
    call.key in db.receipts && db.receipts[call.key] == Receipt(call.owner, call.op, reply)
  }

  ghost predicate RunningOk(s: System, r: Running) {
    && !r.phase.Recovering?
    && (r.phase.Invalidating? ==> Holds(s.db, r.call, r.phase.reply))
    && (r.phase.PostFault? ==> Holds(s.db, r.call, r.phase.reply))
    && (r.phase.Writing? && r.phase.processing ==> s.faultsEnabled)
  }

  ghost predicate AnswerOk(db: Db, a: Answer) {
    a.result.Ok? ==> Holds(db, a.call, a.result.value)
  }

  /** Each committed event has its own key, whose receipt is the event's; and no receipt lacks an event. */
  ghost predicate LogOk(db: Db, log: seq<Event>) {
    && (forall i, j :: 0 <= i < j < |log| && log[i].Committed? && log[j].Committed? ==>
          log[i].call.key != log[j].call.key)
    && (forall i :: 0 <= i < |log| && log[i].Committed? ==> Logged(db, log[i]))
    && (forall k :: k in db.receipts ==> exists i :: 0 <= i < |log| && log[i].Committed? && log[i].call.key == k)
  }

  ghost predicate Logged(db: Db, e: Event)
    requires e.Committed?
  {
    && e.call.key in db.receipts
    && db.receipts[e.call.key].owner == e.call.owner
    && db.receipts[e.call.key].op == e.call.op
  }

  ghost predicate CallsOk(s: System) {
    && (forall id :: id in s.calls ==> RunningOk(s, s.calls[id]))
    && (forall i :: 0 <= i < |s.answers| ==> AnswerOk(s.db, s.answers[i]))
  }

  /** Cached stock rows are some earlier state of the append-only table. */
  ghost predicate CacheOk(s: System) {
    && (s.cache.Some? ==> s.cache.value <= s.db.deltas)
    && (forall r :: r in s.pending ==> s.pending[r] <= s.db.deltas)
  }

  ghost predicate SystemInv(m: Market, s: System) {
    && Inv(m, s.db, s.clock)
    && Serial(m, s.log) == Some(s.db)
    && LogOk(s.db, s.log)
    && CallsOk(s)
    && CacheOk(s)
  }

  // --- one transaction -----------------------------------------------------------

  lemma InvIgnoresReceipts(m: Market, a: Db, b: Db, clock: Time)
    requires Inv(m, a, clock) && b == a.(receipts := b.receipts)
    ensures Inv(m, b, clock)
  {
    SamePaymentTables(a, b);
    PaymentFrame(m, a, b, clock);
  }

  /** A transaction commits at most one receipt, for its own key, and only if it
      was free; otherwise it leaves the database as it was. It cannot fail on a key. */
  lemma TransactionKeeps(m: Market, db: Db, call: Call, env: Env)
    requires Sku.Faithful(m.rules) && Inv(m, db, env.now) && Fresh(db, env.uuid)
    ensures Transaction(m, db, call, env) != Err(Integrity)
    ensures match Transaction(m, db, call, env)
            case Err(_) => true
            case Ok((db', reply)) =>
              && Inv(m, db', env.now)
              && Grows(db, db')
              && (env.processing || PaidStays(db, db'))
              && Holds(db', call, reply)
              && (call.key in db.receipts ==> db' == db)
              && (call.key !in db.receipts ==>
                    db'.receipts == db.receipts[call.key := Receipt(call.owner, call.op, reply)])
  {
    hide Inv, Work, Sku.Faithful;
    if call.key in db.receipts {
      SameGrows(db);
    } else {
      WorkNeverBreaksAKey(m, db, call, env);
      if Work(m, db, call, env).Ok? {
        WorkKeeps(m, db, call, env);
        WorkGrows(m, db, call, env);
        var db1 := Work(m, db, call, env).value.0;
        var reply := Work(m, db, call, env).value.1;
        var db2 := db1.(receipts := db1.receipts[call.key := Receipt(call.owner, call.op, reply)]);
        InvIgnoresReceipts(m, db1, db2, env.now);
        AddReceiptGrows(db, db1, db2, call.key);
      }
    }
  }

  lemma AddReceiptGrows(a: Db, b: Db, c: Db, key: string)
    requires Grows(a, b) && b.receipts == a.receipts && key !in a.receipts
    requires key in c.receipts && c == b.(receipts := b.receipts[key := c.receipts[key]])
    ensures Grows(a, c)
  {
    assert forall x :: StoredLines(c, x) == StoredLines(b, x);
    forall x | x in a.carts ensures CartGrows(a, c, x) {
      assert CartGrows(a, b, x);
    }
  }

  // --- one step ---------------------------------------------------------------------

  /** Answers and promised replies stay backed by their receipts as the database grows. */
  lemma AnswersStay(s: System, t: System)
    requires CallsOk(s) && Grows(s.db, t.db) && t.faultsEnabled == s.faultsEnabled
    requires s.answers <= t.answers
    requires forall i :: |s.answers| <= i < |t.answers| ==> AnswerOk(t.db, t.answers[i])
    requires forall id :: id in t.calls ==> (id in s.calls && t.calls[id] == s.calls[id]) || RunningOk(t, t.calls[id])
    ensures CallsOk(t)
  {
    hide Grows;
    forall call, reply | Holds(s.db, call, reply) ensures Holds(t.db, call, reply) {
      ReceiptStays(s.db, t.db, call, reply);
    }
    forall i | 0 <= i < |t.answers| ensures AnswerOk(t.db, t.answers[i]) {
      if i < |s.answers| {
        assert t.answers[i] == s.answers[i] && AnswerOk(s.db, s.answers[i]);
      }
    }
    forall id | id in t.calls ensures RunningOk(t, t.calls[id]) {
      if id in s.calls && t.calls[id] == s.calls[id] {
        assert RunningOk(s, s.calls[id]);
      }
    }
  }

  lemma ReceiptStays(a: Db, b: Db, call: Call, reply: Reply)
    requires Grows(a, b) && Holds(a, call, reply)
    ensures Holds(b, call, reply)
  {
  }

  lemma CommitLogged(m: Market, db: Db, log: seq<Event>, db': Db, e: Event, reply: Reply)
    requires LogOk(db, log) && e.Committed? && e.call.key !in db.receipts
    requires db'.receipts == db.receipts[e.call.key := Receipt(e.call.owner, e.call.op, reply)]
    ensures LogOk(db', log + [e])
  {
    var log' := log + [e];
    forall i | 0 <= i < |log'| && log'[i].Committed? ensures Logged(db', log'[i]) {
      assert i < |log| ==> Logged(db, log[i]);
    }
    forall i, j | 0 <= i < j < |log'| && log'[i].Committed? && log'[j].Committed?
      ensures log'[i].call.key != log'[j].call.key
    {
      assert Logged(db, log[i]);
    }
    forall k | k in db'.receipts ensures exists i :: 0 <= i < |log'| && log'[i].Committed? && log'[i].call.key == k {
      if k in db.receipts {
        var i :| 0 <= i < |log| && log[i].Committed? && log[i].call.key == k;
        assert log'[i] == log[i];
      } else {
        assert log'[|log|] == e;
      }
    }
  }

  /** The database side of a write: invariant, serial replay and log. */
  lemma WriteKeepsDb(m: Market, s: System, id: nat, env: Env, busy: bool)
    requires Sku.Faithful(m.rules) && Inv(m, s.db, s.clock) && Serial(m, s.log) == Some(s.db) && LogOk(s.db, s.log)
    requires id in s.calls && Fresh(s.db, env.uuid) && env.now == s.clock
    ensures var t := WriteStep(m, s, id, env, busy);
            && Inv(m, t.db, t.clock) && Serial(m, t.log) == Some(t.db) && LogOk(t.db, t.log)
            && Grows(s.db, t.db) && (env.processing || PaidStays(s.db, t.db))
  {
    hide Inv, Transaction, Fresh, Sku.Faithful, PaidStays, LogOk, Grows, Holds, Serial;
    var call := s.calls[id].call;
    TransactionKeeps(m, s.db, call, env);
    SameGrows(s.db);
    if !busy && Transaction(m, s.db, call, env).Ok? && call.key !in s.db.receipts {
      var (db', reply) := Transaction(m, s.db, call, env).value;
      CommitLogged(m, s.db, s.log, db', Committed(id, call, env), reply);
      CommitReplays(m, s.db, s.log, id, call, env);
    }
  }

  /** A new commit extends the serial replay. */
  lemma CommitReplays(m: Market, db: Db, log: seq<Event>, id: nat, call: Call, env: Env)
    requires Serial(m, log) == Some(db) && call.key !in db.receipts && Transaction(m, db, call, env).Ok?
    ensures Serial(m, log + [Committed(id, call, env)]) == Some(Transaction(m, db, call, env).value.0)
  {
    hide Transaction;
    assert (log + [Committed(id, call, env)])[..|log|] == log;
  }

  lemma WriteKeeps(m: Market, s: System, id: nat, env: Env, busy: bool)
    requires Sku.Faithful(m.rules) && SystemInv(m, s)
    requires id in s.calls && s.calls[id].phase.Writing? && Fresh(s.db, env.uuid)
    requires env.now == s.clock && env.processing == s.calls[id].phase.processing
    ensures SystemInv(m, WriteStep(m, s, id, env, busy))
    ensures Grows(s.db, WriteStep(m, s, id, env, busy).db)
    ensures s.faultsEnabled || PaidStays(s.db, WriteStep(m, s, id, env, busy).db)
  {
    hide Inv, Transaction, Fresh, Sku.Faithful, PaidStays, LogOk, Serial, Grows;
    assert RunningOk(s, s.calls[id]);
    TransactionKeeps(m, s.db, s.calls[id].call, env);
    WriteKeepsDb(m, s, id, env, busy);
    AnswersStay(s, WriteStep(m, s, id, env, busy));
    DeltasGrow(s.db, WriteStep(m, s, id, env, busy).db);
  }

  lemma DeltasGrow(a: Db, b: Db)
    requires Grows(a, b)
    ensures a.deltas <= b.deltas
  {
  }

  lemma SettleKeeps(m: Market, s: System, owner: int, paymentId: Id, paid: bool)
    requires SystemInv(m, s) && SettleWork(s.db, owner, paymentId, paid).Ok?
    ensures var t := s.(db := SettleWork(s.db, owner, paymentId, paid).value.0,
                        log := s.log + [Settled(owner, paymentId, paid)]);
            SystemInv(m, t) && Grows(s.db, t.db) && PaidStays(s.db, t.db)
  {
    hide Inv, Grows, PaidStays, LogOk, CallsOk;
    var db' := SettleWork(s.db, owner, paymentId, paid).value.0;
    var t := s.(db := db', log := s.log + [Settled(owner, paymentId, paid)]);
    var status := if paid then Paid else Failed;
    SetStatusFrame(m, s.db, paymentId, status, s.clock);
    SetStatusGrows(s.db, paymentId, status);
    assert t.log[..|s.log|] == s.log;
    SettleLogged(s.db, s.log, db', Settled(owner, paymentId, paid));
    AnswersStay(s, t);
  }

  lemma SettleLogged(db: Db, log: seq<Event>, db': Db, e: Event)
    requires LogOk(db, log) && e.Settled? && db'.receipts == db.receipts
    ensures LogOk(db', log + [e])
  {
    var log' := log + [e];
    forall i | 0 <= i < |log'| && log'[i].Committed? ensures Logged(db', log'[i]) {
      assert i < |log| && log'[i] == log[i] && Logged(db, log[i]);
    }
    forall k | k in db'.receipts ensures exists i :: 0 <= i < |log'| && log'[i].Committed? && log'[i].call.key == k {
      var i :| 0 <= i < |log| && log[i].Committed? && log[i].call.key == k;
      assert log'[i] == log[i];
    }
  }

  lemma MoveKeeps(s: System, id: nat, phase: Phase)
    requires CallsOk(s) && CacheOk(s) && id in s.calls && RunningOk(s, s.calls[id].(phase := phase))
    ensures CallsOk(Move(s, id, phase)) && CacheOk(Move(s, id, phase))
  {
    var t := Move(s, id, phase);
    forall x | x in t.calls ensures RunningOk(t, t.calls[x]) {
      assert x in s.calls && (x != id ==> RunningOk(s, s.calls[x]));
    }
  }

  lemma FinishKeeps(s: System, id: nat, result: Result<Reply, Error>)
    requires CallsOk(s) && CacheOk(s) && id in s.calls && AnswerOk(s.db, Answer(id, s.calls[id].call, result))
    ensures CallsOk(Finish(s, id, result)) && CacheOk(Finish(s, id, result))
  {
    SameGrows(s.db);
    hide Grows;
    AnswersStay(s, Finish(s, id, result));
  }

  /** The steps of one call between its writes. */
  lemma CallStepKeeps(s: System, id: nat, failOpen: bool)
    requires CallsOk(s) && CacheOk(s) && id in s.calls
    ensures var t := ReadReceiptStep(s, id);
            s.calls[id].phase.Reading? ==> CallsOk(t) && CacheOk(t)
    ensures var t := PreFaultStep(s, id, failOpen);
            s.calls[id].phase.PreFault? ==> CallsOk(t) && CacheOk(t)
  {
    hide Consume;
    var call := s.calls[id].call;
    var (_, rules) := Consume(s.rules, call.op, {Reject, ProcessingPayment});
    var t := s.(rules := rules);
    SameGrows(s.db);
    AnswersStay(s, t);
    hide Grows, CallsOk, CacheOk;
    if s.calls[id].phase.Reading? {
      if call.key in s.db.receipts {
        FinishKeeps(s, id, Replay(s.db.receipts[call.key], call));
      } else {
        MoveKeeps(s, id, PreFault);
      }
    } else if s.calls[id].phase.PreFault? {
      MoveKeeps(s, id, Writing(false));
      FinishKeeps(t, id, Err(Rejected));
      MoveKeeps(t, id, Writing(false));
      if s.faultsEnabled {
        MoveKeeps(t, id, Writing(true));
      }
    }
  }

  lemma PostFaultKeeps(s: System, id: nat, reply: Reply, failOpen: bool)
    requires CallsOk(s) && CacheOk(s) && id in s.calls && s.calls[id].phase == PostFault(reply)
    ensures CallsOk(PostFaultStep(s, id, reply, failOpen)) && CacheOk(PostFaultStep(s, id, reply, failOpen))
  {
    hide Consume;
    var (_, rules) := Consume(s.rules, s.calls[id].call.op, {UnknownAfterCommit});
    var t := s.(rules := rules);
    assert RunningOk(s, s.calls[id]);
    SameGrows(s.db);
    AnswersStay(s, t);
    FinishKeeps(s, id, Ok(reply));
    FinishKeeps(t, id, Ok(reply));
    FinishKeeps(t, id, Err(Unknown));
  }

  ghost predicate Quiet(s: System, t: System) {
    && t.db == s.db && t.log == s.log && t.clock == s.clock && t.faultsEnabled == s.faultsEnabled
    && CallsOk(t) && CacheOk(t)
  }

  lemma QuietCallStep(m: Market, s: System, l: Label)
    requires CallsOk(s) && CacheOk(s)
    requires l.ReadReceipt? || l.TakePreFault? || l.TakePostFault? || l.Invalidate? || l.Recover?
    ensures Quiet(s, Step(m, s, l))
  {
    if Step(m, s, l) != s {
      assert RunningOk(s, s.calls[l.id]);
      hide Consume, CallsOk, CacheOk, SettleWork, WriteStep, RunningOk, AnswerOk;
      match l
      case ReadReceipt(id) => CallStepKeeps(s, id, false);
      case TakePreFault(id, failOpen) => CallStepKeeps(s, id, failOpen);
      case TakePostFault(id, failOpen) => PostFaultKeeps(s, id, s.calls[id].phase.reply, failOpen);
      case Invalidate(id) =>
        MoveKeeps(s, id, PostFault(s.calls[id].phase.reply));
        DropCache(Move(s, id, PostFault(s.calls[id].phase.reply)));
      case _ =>
    }
  }

  /** What these steps do to calls, answers and the cache. */
  lemma OtherStepCalls(m: Market, s: System, l: Label)
    requires CacheOk(s)
    requires l.Begin? || l.Lose? || l.Restart? || l.PlanFault? || l.ClearFaults? || l.ReadStock? || l.StoreStock?
    ensures var t := Step(m, s, l);
            && t.db == s.db && t.log == s.log && t.clock == s.clock && t.faultsEnabled == s.faultsEnabled
            && s.answers <= t.answers && CacheOk(t)
            && (forall i :: |s.answers| <= i < |t.answers| ==> AnswerOk(t.db, t.answers[i]))
            && (forall id :: id in t.calls ==>
                  (id in s.calls && t.calls[id] == s.calls[id]) || RunningOk(t, t.calls[id]))
  {
    hide Consume, Admissible, SettleWork, Holds, CacheOk;
    hide ReadReceiptStep, PreFaultStep, WriteStep, RecoverStep, PostFaultStep;
    OtherStepCache(m, s, l);
  }

  lemma OtherStepCache(m: Market, s: System, l: Label)
    requires CacheOk(s)
    requires l.Begin? || l.Lose? || l.Restart? || l.PlanFault? || l.ClearFaults? || l.ReadStock? || l.StoreStock?
    ensures CacheOk(Step(m, s, l))
  {
    hide Consume, Admissible, SettleWork;
    hide ReadReceiptStep, PreFaultStep, WriteStep, RecoverStep, PostFaultStep;
    if !l.ReadStock? && !l.StoreStock? {
      var t := Step(m, s, l);
      assert t.db == s.db && (t.cache == s.cache || t.cache == None) && (t.pending == s.pending || t.pending == map[]);
    }
  }

  lemma QuietOtherStep(m: Market, s: System, l: Label)
    requires CallsOk(s) && CacheOk(s)
    requires l.Begin? || l.Lose? || l.Restart? || l.PlanFault? || l.ClearFaults? || l.ReadStock? || l.StoreStock?
    ensures Quiet(s, Step(m, s, l))
  {
    hide Grows, Consume, Admissible, SettleWork, RunningOk, AnswerOk;
    hide ReadReceiptStep, PreFaultStep, WriteStep, RecoverStep, PostFaultStep;
    SameGrows(s.db);
    OtherStepCalls(m, s, l);
    AnswersStay(s, Step(m, s, l));
  }

  lemma DropCache(s: System)
    requires CallsOk(s) && CacheOk(s)
    ensures CallsOk(s.(cache := None)) && CacheOk(s.(cache := None))
  {
    SameGrows(s.db);
    hide Grows;
    AnswersStay(s, s.(cache := None));
  }

  /** Every step of every interleaving keeps the invariant and only grows the database. */
  lemma StepKeeps(m: Market, s: System, l: Label)
    requires Sku.Faithful(m.rules) && SystemInv(m, s)
    ensures SystemInv(m, Step(m, s, l))
    ensures Grows(s.db, Step(m, s, l).db)
    ensures s.faultsEnabled || PaidStays(s.db, Step(m, s, l).db)
    ensures Step(m, s, l).faultsEnabled == s.faultsEnabled
  {
    hide Inv, Grows, PaidStays, LogOk, Serial, Sku.Faithful, WriteStep, SettleWork, Fresh, CallsOk, CacheOk;
    var t := Step(m, s, l);
    SameGrows(s.db);
    match l
    case Write(id, shelf, uuid, busy) =>
      if t != s {
        WriteKeeps(m, s, id, Env(shelf, s.clock, uuid, s.calls[id].phase.processing), busy);
        WriteFaults(m, s, id, Env(shelf, s.clock, uuid, s.calls[id].phase.processing), busy);
      }
    case Settle(owner, paymentId, paid) =>
      if t != s {
        SettleKeeps(m, s, owner, paymentId, paid);
      }
    case Tick(time) =>
      LaterClock(m, s.db, s.clock, t.clock);
      SameCalls(s, t);
    case Begin(_, _) => QuietOtherStep(m, s, l);
    case Lose(_) => QuietOtherStep(m, s, l);
    case Restart => QuietOtherStep(m, s, l);
    case PlanFault(_, _) => QuietOtherStep(m, s, l);
    case ClearFaults => QuietOtherStep(m, s, l);
    case ReadStock(_) => QuietOtherStep(m, s, l);
    case StoreStock(_) => QuietOtherStep(m, s, l);
    case _ => QuietCallStep(m, s, l);
  }

  lemma SameCalls(s: System, t: System)
    requires CallsOk(s) && CacheOk(s) && t == s.(clock := t.clock)
    ensures CallsOk(t) && CacheOk(t)
  {
    SameGrows(s.db);
    hide Grows;
    AnswersStay(s, t);
  }

  lemma WriteFaults(m: Market, s: System, id: nat, env: Env, busy: bool)
    requires id in s.calls
    ensures WriteStep(m, s, id, env, busy).faultsEnabled == s.faultsEnabled
  {
    hide Transaction;
  }

  lemma LaterClock(m: Market, db: Db, clock: Time, later: Time)
    requires Inv(m, db, clock) && clock <= later
    ensures Inv(m, db, later)
  {
    hide StockOk, RowsOk, LinksOk, LinesOk, PaymentsOk, SameOffer, CapsOk;
  }
}
