/** The provider's promises, for every run of any callers in any interleaving
    with any faults, lost callers and restarts. */
module CommerceTheorems {
  import opened Wrappers
  import opened CommerceModel
  import opened CommerceInvariant
  import opened CommerceOrders
  import opened CommerceProtocol
  import opened CommerceRuns
  import Sku

  lemma {:induction false} Reachable(m: Market, faults: bool, clock: Time, labels: seq<Label>)
    requires Sku.Faithful(m.rules)
    ensures SystemInv(m, Run(m, Initial(faults, clock), labels))
    ensures Run(m, Initial(faults, clock), labels).faultsEnabled == faults
  {
    if labels == [] {
      EmptyInv(m, clock);
    } else {
      hide SystemInv, Step, Sku.Faithful;
      Reachable(m, faults, clock, labels[..|labels| - 1]);
      StepKeeps(m, Run(m, Initial(faults, clock), labels[..|labels| - 1]), labels[|labels| - 1]);
    }
  }

  /** Continuing a run only grows the database; without faults a paid payment stays paid. */
  lemma {:induction false} RunGrows(m: Market, s: System, labels: seq<Label>)
    requires Sku.Faithful(m.rules) && SystemInv(m, s)
    ensures SystemInv(m, Run(m, s, labels)) && Run(m, s, labels).faultsEnabled == s.faultsEnabled
    ensures Grows(s.db, Run(m, s, labels).db)
    ensures s.faultsEnabled || PaidStays(s.db, Run(m, s, labels).db)
  {
    hide SystemInv, Step, Sku.Faithful, Grows, PaidStays;
    if labels == [] {
      SameGrows(s.db);
    } else {
      var t := Run(m, s, labels[..|labels| - 1]);
      RunGrows(m, s, labels[..|labels| - 1]);
      StepKeeps(m, t, labels[|labels| - 1]);
      GrowsTransitive(s.db, t.db, Step(m, t, labels[|labels| - 1]).db);
      if !s.faultsEnabled { PaidTransitive(s.db, t.db, Step(m, t, labels[|labels| - 1]).db); }
    }
  }

  // --- stock --------------------------------------------------------------------

  /** No SKU is sold beyond its base availability, and what its stock rows took
      is what the orders' quotes hold, whatever the search cache shows. */
  lemma NoOversell(m: Market, faults: bool, clock: Time, labels: seq<Label>)
    requires Sku.Faithful(m.rules)
    ensures var db := Run(m, Initial(faults, clock), labels).db;
            && (forall n: nat :: m.base(n) + Sum(db.deltas, Sku.SkuId(n)) >= 0)
            && (forall sku :: Sum(db.deltas, sku) == 0 - Sold(db, db.orderIds, sku))
            && (forall i, j :: 0 <= i < j < |db.orderIds| ==> db.orderIds[i] != db.orderIds[j])
            && (forall o :: o in db.orderIds <==> o in db.orders)
  {
    Reachable(m, faults, clock, labels);
  }

  // --- idempotency -----------------------------------------------------------------

  /** Each request key commits at most once, in an order whose serial replay from
      the empty database gives exactly the present one; every successful answer
      is the stored result of its key; and no call ever meets an integrity error. */
  lemma ExactlyOnce(m: Market, faults: bool, clock: Time, labels: seq<Label>)
    requires Sku.Faithful(m.rules)
    ensures var s := Run(m, Initial(faults, clock), labels);
            && Serial(m, s.log) == Some(s.db)
            && (forall i, j :: 0 <= i < j < |s.log| && s.log[i].Committed? && s.log[j].Committed? ==>
                  s.log[i].call.key != s.log[j].call.key)
            && (forall k :: k in s.db.receipts <==>
                  exists i :: 0 <= i < |s.log| && s.log[i].Committed? && s.log[i].call.key == k)
            && (forall i :: 0 <= i < |s.answers| && s.answers[i].result.Ok? ==>
                  Holds(s.db, s.answers[i].call, s.answers[i].result.value))
            && (forall id :: id in s.calls ==> !s.calls[id].phase.Recovering?)
  {
    Reachable(m, faults, clock, labels);
    var s := Run(m, Initial(faults, clock), labels);
    hide Inv, Serial, Run, Holds;
    forall k | exists i :: 0 <= i < |s.log| && s.log[i].Committed? && s.log[i].call.key == k
      ensures k in s.db.receipts
    {
      var i :| 0 <= i < |s.log| && s.log[i].Committed? && s.log[i].call.key == k;
      assert Logged(s.db, s.log[i]);
    }
    forall i | 0 <= i < |s.answers| && s.answers[i].result.Ok?
      ensures Holds(s.db, s.answers[i].call, s.answers[i].result.value)
    {
      assert AnswerOk(s.db, s.answers[i]);
    }
    forall id | id in s.calls ensures !s.calls[id].phase.Recovering? {
      assert RunningOk(s, s.calls[id]);
    }
  }

  /** Two successful answers to one key answer the same owner and operation alike. */
  lemma AnswersAgree(m: Market, faults: bool, clock: Time, labels: seq<Label>, i: nat, j: nat)
    requires Sku.Faithful(m.rules)
    requires var s := Run(m, Initial(faults, clock), labels);
             && i < |s.answers| && j < |s.answers|
             && s.answers[i].result.Ok? && s.answers[j].result.Ok?
             && s.answers[i].call.key == s.answers[j].call.key
    ensures var s := Run(m, Initial(faults, clock), labels);
            s.answers[i].call == s.answers[j].call && s.answers[i].result == s.answers[j].result
  {
    hide Run, Serial;
    ExactlyOnce(m, faults, clock, labels);
  }

  /** The call stands before its write, or its write failed. */
  predicate Uncommitted(phase: Phase) { !phase.Invalidating? && !phase.PostFault? }

  /** Any error but `Unknown` tells the caller that nothing was done. */
  predicate Definite(a: Answer) { a.result.Err? && a.result.error != Unknown }

  /** The caller has a commit in the log. */
  ghost predicate CommittedBy(log: seq<Event>, id: nat) {
    exists j :: 0 <= j < |log| && log[j].Committed? && log[j].id == id
  }

  /** A caller is under way or answered, not both; one that has not passed its write, or
      was definitely refused, has no commit. */
  ghost predicate CallersOk(s: System) {
    && s.calls.Keys <= s.used
    && (forall i :: 0 <= i < |s.answers| ==> s.answers[i].id in s.used && s.answers[i].id !in s.calls)
    && (forall id :: CommittedBy(s.log, id) ==> id in s.used)
    && (forall id :: id in s.calls && Uncommitted(s.calls[id].phase) ==> !CommittedBy(s.log, id))
    && (forall i :: 0 <= i < |s.answers| && Definite(s.answers[i]) ==> !CommittedBy(s.log, s.answers[i].id))
  }

  lemma FinishCaller(s: System, id: nat, result: Result<Reply, Error>)
    requires CallersOk(s) && id in s.calls
    requires Definite(Answer(id, s.calls[id].call, result)) ==> Uncommitted(s.calls[id].phase)
    ensures CallersOk(Finish(s, id, result))
  {
    hide CommittedBy;
  }

  lemma MoveCaller(s: System, id: nat, phase: Phase)
    requires CallersOk(s) && id in s.calls
    requires Uncommitted(phase) ==> Uncommitted(s.calls[id].phase)
    ensures CallersOk(Move(s, id, phase))
  {
    hide CommittedBy;
  }

  lemma LogCaller(log: seq<Event>, e: Event)
    ensures forall id: nat :: CommittedBy(log + [e], id) <==> CommittedBy(log, id) || (e.Committed? && e.id == id)
  {
    forall id: nat
      ensures CommittedBy(log + [e], id) <==> CommittedBy(log, id) || (e.Committed? && e.id == id)
    {
      if CommittedBy(log, id) {
        var j :| 0 <= j < |log| && log[j].Committed? && log[j].id == id;
        assert (log + [e])[j] == log[j];
      }
      assert (log + [e])[|log|] == e;
    }
  }

  lemma WriteCaller(m: Market, s: System, id: nat, env: Env, busy: bool)
    requires CallersOk(s) && id in s.calls && s.calls[id].phase.Writing?
    ensures CallersOk(WriteStep(m, s, id, env, busy))
  {
    hide Transaction, CommittedBy, CallersOk;
    var call := s.calls[id].call;
    if busy {
      FinishCaller(s, id, Err(Unknown));
    } else {
      match Transaction(m, s.db, call, env)
      case Err(Integrity) => MoveCaller(s, id, Recovering);
      case Err(e) => FinishCaller(s, id, Err(e));
      case Ok((db, reply)) =>
        var log := if call.key in s.db.receipts then s.log else s.log + [Committed(id, call, env)];
        CommitCaller(s, id, db, log, reply, Committed(id, call, env));
    }
  }

  lemma CommitCaller(s: System, id: nat, db: Db, log: seq<Event>, reply: Reply, e: Event)
    requires CallersOk(s) && id in s.calls && e.Committed? && e.id == id
    requires log == s.log || log == s.log + [e]
    ensures CallersOk(Move(s.(db := db, log := log), id, Invalidating(reply)))
  {
    hide CommittedBy;
    LogCaller(s.log, e);
  }

  lemma SettleCaller(s: System, db: Db, owner: int, paymentId: Id, paid: bool)
    requires CallersOk(s)
    ensures CallersOk(s.(db := db, log := s.log + [Settled(owner, paymentId, paid)]))
  {
    hide CommittedBy;
    LogCaller(s.log, Settled(owner, paymentId, paid));
  }

  /** Losing callers, starting one, and what callers do not see. */
  lemma OtherCaller(m: Market, s: System, l: Label)
    requires CallersOk(s)
    requires !l.ReadReceipt? && !l.TakePreFault? && !l.Write? && !l.Recover? && !l.Invalidate? && !l.TakePostFault?
    ensures CallersOk(Step(m, s, l))
  {
    hide CommittedBy, SettleWork, Admissible;
    if l.Settle? && Step(m, s, l) != s {
      SettleCaller(s, SettleWork(s.db, l.owner, l.paymentId, l.paid).value.0, l.owner, l.paymentId, l.paid);
    }
  }

  lemma RulesCaller(s: System, rules: seq<Rule>)
    requires CallersOk(s)
    ensures CallersOk(s.(rules := rules)) && CallersOk(s.(cache := None))
  {
    hide CommittedBy;
  }

  lemma FaultCaller(s: System, id: nat, open: bool)
    requires CallersOk(s) && id in s.calls
    ensures s.calls[id].phase.PreFault? ==> CallersOk(PreFaultStep(s, id, open))
    ensures s.calls[id].phase.PostFault? ==> CallersOk(PostFaultStep(s, id, s.calls[id].phase.reply, open))
  {
    hide Consume, CallersOk;
    var pre := Consume(s.rules, s.calls[id].call.op, {Reject, ProcessingPayment}).1;
    var post := Consume(s.rules, s.calls[id].call.op, {UnknownAfterCommit}).1;
    RulesCaller(s, pre);
    RulesCaller(s, post);
    match s.calls[id].phase
    case PreFault =>
      MoveCaller(s, id, Writing(false));
      FinishCaller(s.(rules := pre), id, Err(Rejected));
      MoveCaller(s.(rules := pre), id, Writing(false));
      MoveCaller(s.(rules := pre), id, Writing(true));
    case PostFault(reply) =>
      FinishCaller(s, id, Ok(reply));
      FinishCaller(s.(rules := post), id, Ok(reply));
      FinishCaller(s.(rules := post), id, Err(Unknown));
    case _ =>
  }

  lemma ReceiptCaller(s: System, id: nat)
    requires CallersOk(s) && id in s.calls && Uncommitted(s.calls[id].phase)
    ensures s.calls[id].phase.Reading? ==> CallersOk(ReadReceiptStep(s, id))
    ensures CallersOk(RecoverStep(s, id))
  {
    hide CallersOk, Replay;
    var call := s.calls[id].call;
    if call.key in s.db.receipts {
      FinishCaller(s, id, Replay(s.db.receipts[call.key], call));
    } else {
      MoveCaller(s, id, PreFault);
      FinishCaller(s, id, Err(Unknown));
    }
  }

  lemma CallerStep(m: Market, s: System, l: Label)
    requires CallersOk(s)
    ensures CallersOk(Step(m, s, l))
  {
    hide CallersOk, ReadReceiptStep, PreFaultStep, WriteStep, RecoverStep, PostFaultStep, SettleWork, Fresh;
    match l
    case ReadReceipt(id) => if id in s.calls && s.calls[id].phase.Reading? { ReceiptCaller(s, id); }
    case TakePreFault(id, open) => if id in s.calls { FaultCaller(s, id, open); }
    case Write(id, shelf, uuid, busy) =>
      if id in s.calls && s.calls[id].phase.Writing? {
        WriteCaller(m, s, id, Env(shelf, s.clock, uuid, s.calls[id].phase.processing), busy);
      }
    case Recover(id) => if id in s.calls && s.calls[id].phase.Recovering? { ReceiptCaller(s, id); }
    case Invalidate(id) =>
      if id in s.calls && s.calls[id].phase.Invalidating? {
        MoveCaller(s, id, PostFault(s.calls[id].phase.reply));
        RulesCaller(Move(s, id, PostFault(s.calls[id].phase.reply)), s.rules);
      }
    case TakePostFault(id, open) => if id in s.calls { FaultCaller(s, id, open); }
    case _ => OtherCaller(m, s, l);
  }

  lemma {:induction false} CallersReach(m: Market, faults: bool, clock: Time, labels: seq<Label>)
    ensures CallersOk(Run(m, Initial(faults, clock), labels))
  {
    if labels != [] {
      hide CallersOk, Step;
      CallersReach(m, faults, clock, labels[..|labels| - 1]);
      CallerStep(m, Run(m, Initial(faults, clock), labels[..|labels| - 1]), labels[|labels| - 1]);
    }
  }

  /** Over any run, a caller answered with a definite error contributed no commit, and
      never will: it is no longer under way. */
  lemma RefusalCommitsNothing(m: Market, faults: bool, clock: Time, labels: seq<Label>, i: nat)
    requires var s := Run(m, Initial(faults, clock), labels);
             i < |s.answers| && Definite(s.answers[i])
    ensures var s := Run(m, Initial(faults, clock), labels);
            !CommittedBy(s.log, s.answers[i].id) && s.answers[i].id !in s.calls
  {
    hide Run, CommittedBy;
    CallersReach(m, faults, clock, labels);
  }

  /** Whatever runs once a key is stored, no call under that key by another owner or for
      another operation is ever answered with success. */
  lemma ForeignNeverSucceeds(m: Market, faults: bool, clock: Time, before: seq<Label>, after: seq<Label>,
                             key: string, i: nat)
    requires Sku.Faithful(m.rules)
    requires key in Run(m, Initial(faults, clock), before).db.receipts
    requires var r := Run(m, Initial(faults, clock), before).db.receipts[key];
             var t := Run(m, Run(m, Initial(faults, clock), before), after);
             i < |t.answers| && t.answers[i].call.key == key
             && (t.answers[i].call.owner != r.owner || t.answers[i].call.op != r.op)
    ensures Run(m, Run(m, Initial(faults, clock), before), after).answers[i].result.Err?
  {
    Reachable(m, faults, clock, before);
    var s := Run(m, Initial(faults, clock), before);
    RunGrows(m, s, after);
    hide Run, Inv, Serial;
    var t := Run(m, s, after);
    assert AnswerOk(t.db, t.answers[i]);
  }

  /** Once a key is stored, whatever happens next: a later call repeating it is
      answered from the stored result by its first read, and nothing changes. */
  lemma ReplayAfterAnyRun(m: Market, s: System, labels: seq<Label>, call: Call, reply: Reply, id: nat)
    requires Sku.Faithful(m.rules) && SystemInv(m, s) && Holds(s.db, call, reply)
    requires var t := Run(m, s, labels);
             id in t.calls && t.calls[id] == Running(call, Reading)
    ensures var t := Run(m, s, labels);
            Step(m, t, ReadReceipt(id)) == Finish(t, id, Ok(reply))
  {
    hide Run, SystemInv, Grows, PaidStays, Sku.Faithful;
    RunGrows(m, s, labels);
    ReceiptStays(s.db, Run(m, s, labels).db, call, reply);
  }

  /** And a later call that reuses the key with another owner, kind or arguments is
      answered with a conflict by its first read, changing nothing. */
  lemma ForeignAfterAnyRun(m: Market, s: System, labels: seq<Label>, call: Call, reply: Reply, foreign: Call, id: nat)
    requires Sku.Faithful(m.rules) && SystemInv(m, s) && Holds(s.db, call, reply)
    requires foreign.key == call.key && (foreign.owner != call.owner || foreign.op != call.op)
    requires var t := Run(m, s, labels);
             id in t.calls && t.calls[id] == Running(foreign, Reading)
    ensures var t := Run(m, s, labels);
            Step(m, t, ReadReceipt(id)) == Finish(t, id, Err(Conflict))
  {
    hide Run, SystemInv, Grows, PaidStays, Sku.Faithful;
    RunGrows(m, s, labels);
    ReceiptStays(s.db, Run(m, s, labels).db, call, reply);
  }

  // --- quotes, carts, orders -----------------------------------------------------------

  /** In every reachable state. */
  lemma Coherence(m: Market, faults: bool, clock: Time, labels: seq<Label>)
    requires Sku.Faithful(m.rules)
    ensures var s := Run(m, Initial(faults, clock), labels);
            var db := s.db;
            // a quote of its unordered cart's current version has the cart's lines
            && (forall q :: q in db.quotes && Current(db, q) ==>
                db.quotes[q].lines == StoredLines(db, db.quotes[q].cartId))
            // each order consumed its own quote, closed its own cart, and costs what the quote sums to
            && (forall o :: o in db.orders ==> OrderLinked(db, o))
            && (forall o, p :: o in db.orders && p in db.orders && o != p ==>
                  && db.orders[o].quoteId != db.orders[p].quoteId
                  && db.quotes[db.orders[o].quoteId].cartId != db.quotes[db.orders[p].quoteId].cartId)
            // a quote is consumed exactly if an order holds it, and an ordered cart has its quote's lines
            && (forall q :: q in db.quotes ==> (db.quotes[q].status == Consumed <==>
                  exists o :: o in db.orders && db.orders[o].quoteId == q))
            && (forall c :: c in db.carts ==> CartLinked(db, c))
            // at most one live offer per owner, cart and version
            && OneOffer(db, s.clock)
  {
    Reachable(m, faults, clock, labels);
    var db := Run(m, Initial(faults, clock), labels).db;
    hide Run, StockOk, Serial, LogOk, CallsOk, CacheOk, PaymentsOk, RowsOk, Subtotal, StoredLines, QuoteLines;
    forall o, p | o in db.orders && p in db.orders && o != p
      ensures db.orders[o].quoteId != db.orders[p].quoteId
      ensures db.quotes[db.orders[o].quoteId].cartId != db.quotes[db.orders[p].quoteId].cartId
    {
      assert OrderLinked(db, o) && OrderLinked(db, p);
    }
    forall q | q in db.quotes
      ensures db.quotes[q].status == Consumed <==> exists o :: o in db.orders && db.orders[o].quoteId == q
    {
      assert QuoteLinked(db, q);
      assert forall o :: o in db.orders && db.orders[o].quoteId == q ==> OrderLinked(db, o);
    }
  }

  /** Whatever happens after a cart is ordered, its row and lines stay as they are. */
  lemma OrderedCartFrozen(m: Market, s: System, labels: seq<Label>, c: Id)
    requires Sku.Faithful(m.rules) && SystemInv(m, s)
    requires c in s.db.carts && s.db.carts[c].ordered.Some?
    ensures var db := Run(m, s, labels).db;
            c in db.carts && db.carts[c] == s.db.carts[c] && StoredLines(db, c) == StoredLines(s.db, c)
  {
    RunGrows(m, s, labels);
    assert CartGrows(s.db, Run(m, s, labels).db, c);
  }

  // --- payments -----------------------------------------------------------------------

  /** In every reachable state payments and orders agree. */
  lemma PaymentLockstep(m: Market, faults: bool, clock: Time, labels: seq<Label>)
    requires Sku.Faithful(m.rules)
    ensures var db := Run(m, Initial(faults, clock), labels).db;
            && (forall p :: p in db.payments ==> PaymentAgrees(db, p))
            && (forall p, q :: p in db.payments && q in db.payments && p != q ==>
                  db.payments[p].orderId != db.payments[q].orderId)
            && (forall o :: o in db.orders && !HasPayment(db, o) ==> db.orders[o].status == AwaitingPayment)
  {
    Reachable(m, faults, clock, labels);
  }

  /** Failed is terminal, and so is paid while faults are disabled. */
  lemma TerminalPayments(m: Market, s: System, labels: seq<Label>, p: Id)
    requires Sku.Faithful(m.rules) && SystemInv(m, s) && p in s.db.payments
    ensures var db := Run(m, s, labels).db;
            && p in db.payments
            && (s.db.payments[p].status == Failed ==> db.payments[p].status == Failed)
            && (s.db.payments[p].status == Paid && !s.faultsEnabled ==> db.payments[p].status == Paid)
  {
    RunGrows(m, s, labels);
    assert PaymentGrows(s.db.payments[p], Run(m, s, labels).db.payments[p]);
  }

  lemma UpdateKeepsPayments(m: Market, db: Db, owner: int, cartId: Option<Id>, expected: Option<int>,
                            sels: seq<Selection>, env: Env)
    requires UpdateCartWork(m, db, owner, cartId, expected, sels, env).Ok?
    ensures UpdateCartWork(m, db, owner, cartId, expected, sels, env).value.0.payments == db.payments
  {
    hide ValidatedLines, Subtotal;
  }

  lemma CheckoutKeepsPayments(m: Market, db: Db, owner: int, cartId: Id, expected: int, env: Env)
    requires PrepareCheckoutWork(m, db, owner, cartId, expected, env).Ok?
    ensures PrepareCheckoutWork(m, db, owner, cartId, expected, env).value.0.payments == db.payments
  {
    hide ValidatedLines, Subtotal, OpenQuote, SamePrices, StoredLines;
  }

  lemma OrderKeepsPayments(m: Market, db: Db, owner: int, quoteId: Id, env: Env)
    requires CreateOrderWork(m, db, owner, quoteId, env).Ok?
    ensures CreateOrderWork(m, db, owner, quoteId, env).value.0.payments == db.payments
  {
    hide ValidatedLines, StockRows, SamePrices, DistinctKeys;
  }

  lemma WorkPays(m: Market, db: Db, call: Call, env: Env, p: Id)
    requires Fresh(db, env.uuid) && Work(m, db, call, env).Ok? && p in db.payments
    ensures var db' := Work(m, db, call, env).value.0;
            p in db'.payments && (db'.payments[p] == db.payments[p] || call.op == MockPay(p))
    ensures var db' := Work(m, db, call, env).value.0;
            call.op == MockPay(p) ==>
              && (db.payments[p].status == AwaitingPayment || db.payments[p].status == Paid)
              && db'.payments[p].status == if env.processing then Processing else Paid
  {
    hide UpdateCartWork, PrepareCheckoutWork, CreateOrderWork;
    match call.op
    case UpdateCartLines(cartId, expected, sels) =>
      UpdateKeepsPayments(m, db, call.owner, cartId, expected, sels, env);
    case PrepareCheckout(cartId, expected) => CheckoutKeepsPayments(m, db, call.owner, cartId, expected, env);
    case CreateOrder(quoteId) => OrderKeepsPayments(m, db, call.owner, quoteId, env);
    case _ =>
  }

  /** The moves a payment's status can make in one step: paying from awaiting or paid,
      by a call that pays this payment, into paid or, under a processing fault, processing;
      and settling from processing into paid or failed. */
  ghost predicate PayMove(s: System, l: Label, p: Id, before: PayStatus, after: PayStatus) {
    || after == before
    || (l.Settle? && l.paymentId == p && before == Processing && after == if l.paid then Paid else Failed)
    || (&& l.Write? && l.id in s.calls && s.calls[l.id].phase.Writing? && s.calls[l.id].call.op == MockPay(p)
        && (before == AwaitingPayment || before == Paid)
        && after == if s.calls[l.id].phase.processing then Processing else Paid)
  }

  lemma OnlyWritesWrite(m: Market, s: System, l: Label)
    requires !l.Write? && !l.Settle?
    ensures Step(m, s, l).db == s.db
  {
    hide Consume, Admissible, Replay;
  }

  lemma TransactionPays(m: Market, s: System, id: nat, env: Env, busy: bool, p: Id)
    requires id in s.calls && Fresh(s.db, env.uuid) && p in s.db.payments
    ensures var db' := WriteStep(m, s, id, env, busy).db;
            && p in db'.payments
            && (|| db'.payments[p] == s.db.payments[p]
                || (&& s.calls[id].call.op == MockPay(p)
                    && (s.db.payments[p].status == AwaitingPayment || s.db.payments[p].status == Paid)
                    && db'.payments[p].status == if env.processing then Processing else Paid))
  {
    hide Work, Fresh, Replay;
    if Work(m, s.db, s.calls[id].call, env).Ok? {
      WorkPays(m, s.db, s.calls[id].call, env, p);
    }
  }

  lemma WriteMoves(m: Market, s: System, l: Label, p: Id)
    requires l.Write? && p in s.db.payments
    ensures p in Step(m, s, l).db.payments
    ensures PayMove(s, l, p, s.db.payments[p].status, Step(m, s, l).db.payments[p].status)
  {
    hide WriteStep, Fresh;
    if l.id in s.calls && s.calls[l.id].phase.Writing? && Fresh(s.db, l.uuid) {
      TransactionPays(m, s, l.id, Env(l.shelf, s.clock, l.uuid, s.calls[l.id].phase.processing), l.busy, p);
    }
  }

  lemma SettleMoves(m: Market, s: System, l: Label, p: Id)
    requires l.Settle? && p in s.db.payments
    ensures p in Step(m, s, l).db.payments
    ensures PayMove(s, l, p, s.db.payments[p].status, Step(m, s, l).db.payments[p].status)
  {
    hide Consume, Admissible, Replay, Fresh;
    hide ReadReceiptStep, PreFaultStep, WriteStep, RecoverStep, PostFaultStep;
  }

  /** No step moves a payment in any other way. */
  lemma PaymentTransitions(m: Market, s: System, l: Label, p: Id)
    requires p in s.db.payments
    ensures p in Step(m, s, l).db.payments
    ensures PayMove(s, l, p, s.db.payments[p].status, Step(m, s, l).db.payments[p].status)
  {
    hide Step;
    if l.Write? {
      WriteMoves(m, s, l, p);
    } else if l.Settle? {
      SettleMoves(m, s, l, p);
    } else {
      OnlyWritesWrite(m, s, l);
    }
  }

  // --- a paid payment paid again ------------------------------------------------------------

  /** The step commits a new call that pays this payment, for its owner, under a processing fault. */
  ghost predicate Unpays(s: System, l: Label, p: Id)
    requires p in s.db.payments
  {
    && l.Write? && l.id in s.calls && s.calls[l.id].phase == Writing(true) && !l.busy && Fresh(s.db, l.uuid)
    && var call := s.calls[l.id].call;
       call.op == MockPay(p) && call.owner == s.db.payments[p].owner && call.key !in s.db.receipts
  }

  ghost predicate IsPaid(s: System, p: Id) { p in s.db.payments && s.db.payments[p].status == Paid }

  /** Paying a paid payment goes through, and leaves it paid exactly without the fault. */
  lemma PayAgainCommits(m: Market, db: Db, call: Call, env: Env, p: Id)
    requires p in db.payments && db.payments[p].status == Paid
    requires call.op == MockPay(p)
    ensures var t := Transaction(m, db, call, env);
            t.Ok? && t.value.0.payments != db.payments ==>
              call.key !in db.receipts && call.owner == db.payments[p].owner
    ensures call.key !in db.receipts && call.owner == db.payments[p].owner ==>
              var t := Transaction(m, db, call, env);
              t.Ok? && p in t.value.0.payments
              && t.value.0.payments[p].status == if env.processing then Processing else Paid
  {
    hide Replay;
  }

  lemma UnpaidByWrite(m: Market, s: System, id: nat, env: Env, busy: bool, p: Id)
    requires IsPaid(s, p) && id in s.calls && s.calls[id].phase.Writing? && Fresh(s.db, env.uuid)
    requires env.processing == s.calls[id].phase.processing
    ensures !IsPaid(WriteStep(m, s, id, env, busy), p) <==>
              !busy && env.processing && s.calls[id].call.op == MockPay(p)
              && s.calls[id].call.owner == s.db.payments[p].owner && s.calls[id].call.key !in s.db.receipts
  {
    hide Transaction, Fresh;
    TransactionPays(m, s, id, env, busy, p);
    if s.calls[id].call.op == MockPay(p) {
      PayAgainCommits(m, s.db, s.calls[id].call, env, p);
    }
  }

  /** One step takes a paid payment out of paid exactly if it un-pays it. */
  lemma UnpaidStep(m: Market, s: System, l: Label, p: Id)
    requires IsPaid(s, p)
    ensures !IsPaid(Step(m, s, l), p) <==> Unpays(s, l, p)
  {
    hide WriteStep, Fresh, Consume, Admissible, Replay, SettleWork;
    PaymentTransitions(m, s, l, p);
    if l.Write? && l.id in s.calls && s.calls[l.id].phase.Writing? && Fresh(s.db, l.uuid) {
      UnpaidByWrite(m, s, l.id, Env(l.shelf, s.clock, l.uuid, s.calls[l.id].phase.processing), l.busy, p);
    }
  }

  ghost predicate UnpaysAt(m: Market, s: System, labels: seq<Label>, k: nat, p: Id) {
    k < |labels| && IsPaid(Run(m, s, labels[..k]), p) && Unpays(Run(m, s, labels[..k]), labels[k], p)
  }

  ghost predicate UnpaidAt(m: Market, s: System, labels: seq<Label>, k: nat, p: Id) {
    k <= |labels| && !IsPaid(Run(m, s, labels[..k]), p)
  }

  /** Over any run, exactly: a paid payment is ever not paid if and only if, while it was
      paid, its owner paid it again with a new key under a processing fault. */
  lemma UnpaidExactly(m: Market, s: System, labels: seq<Label>, p: Id)
    requires IsPaid(s, p)
    ensures (exists k: nat :: UnpaidAt(m, s, labels, k, p)) <==> exists k: nat :: UnpaysAt(m, s, labels, k, p)
  {
    hide Run, Step, Unpays, IsPaid;
    if k: nat :| UnpaysAt(m, s, labels, k, p) {
      RunNext(m, s, labels, k);
      UnpaidStep(m, Run(m, s, labels[..k]), labels[k], p);
      assert UnpaidAt(m, s, labels, k + 1, p);
    }
    if k: nat :| UnpaidAt(m, s, labels, k, p) {
      FirstUnpaid(m, s, labels, k, p);
    }
  }

  lemma RunNext(m: Market, s: System, labels: seq<Label>, k: nat)
    requires k < |labels|
    ensures Run(m, s, labels[..k + 1]) == Step(m, Run(m, s, labels[..k]), labels[k])
  {
    hide Step;
    assert labels[..k + 1][..k] == labels[..k];
  }

  lemma {:induction false} FirstUnpaid(m: Market, s: System, labels: seq<Label>, k: nat, p: Id)
    requires IsPaid(s, p) && UnpaidAt(m, s, labels, k, p)
    ensures exists k: nat :: UnpaysAt(m, s, labels, k, p)
  {
    hide Step, Unpays, IsPaid;
    assert labels[..0] == [];
    if k == 0 {
    } else if IsPaid(Run(m, s, labels[..k - 1]), p) {
      RunNext(m, s, labels, k - 1);
      UnpaidStep(m, Run(m, s, labels[..k - 1]), labels[k - 1], p);
      assert UnpaysAt(m, s, labels, k - 1, p);
    } else {
      FirstUnpaid(m, s, labels, k - 1, p);
    }
  }
}
