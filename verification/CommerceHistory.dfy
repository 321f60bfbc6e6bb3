/** What receipts say about the tables: every stored answer stays true of the rows it
    names, and rows and receipts account for each other one to one. */
module CommerceHistory {
  import opened Wrappers
  import opened CommerceModel
  import opened CommerceStock
  import opened CommerceInvariant
  import opened CommerceOrders
  import opened CommerceProtocol
  import opened CommerceRuns
  import opened CommerceTheorems
  import Sku

  // --- one receipt ----------------------------------------------------------------

  /** The answer to an update: the next version of the named cart, or version 1 of a
      new one, holding one line per selection; while that version stands, the cart
      holds exactly these lines and is not ordered. */
  ghost predicate CartAnswerTrue(db: Db, r: Receipt)
    requires r.op.UpdateCartLines? && r.reply.CartReply?
  {
    var c, v, lines := r.reply.cartId, r.reply.version, r.reply.lines;
    && c in db.carts && db.carts[c].owner == r.owner && 1 <= v <= db.carts[c].version
    && (match r.op.cartId
        case None => r.op.expected.None? && v == 1
        case Some(id) => id == c && r.op.expected == Some(v - 1))
    && r.reply.subtotal == Subtotal(lines)
    && |lines| == |r.op.selections|
    && (forall i :: 0 <= i < |lines| ==> lines[i].quantity == r.op.selections[i].quantity)
    && (db.carts[c].version == v ==>
          StoredLines(db, c) == lines && db.carts[c].subtotal == r.reply.subtotal && db.carts[c].ordered.None?)
  }

  /** What an answer says is what its rows hold. */
  ghost predicate AnswerTrue(db: Db, r: Receipt) {
    match r.op
    case UpdateCartLines(_, _, _) => r.reply.CartReply? && 1 <= r.reply.version && CartAnswerTrue(db, r)
    case PrepareCheckout(c, v) =>
      && r.reply.QuoteReply? && r.reply.cartId == c && r.reply.version == v
      && r.reply.quoteId in db.quotes && db.quotes[r.reply.quoteId].owner == r.owner
      && r.reply.lines == db.quotes[r.reply.quoteId].lines && r.reply.total == db.quotes[r.reply.quoteId].total
      && r.reply.expiresAt == db.quotes[r.reply.quoteId].expiresAt
      && db.quotes[r.reply.quoteId].cartId == c && db.quotes[r.reply.quoteId].cartVersion == v
    case CreateOrder(q) =>
      && r.reply.OrderReply? && r.reply.quoteId == q && r.reply.orderId in db.orders
      && db.orders[r.reply.orderId] == Order(r.owner, q, r.reply.total, db.orders[r.reply.orderId].status)
      && r.reply.status == AwaitingPayment
    case CreatePayment(o) =>
      && r.reply.PaymentReply? && r.reply.orderId == o && r.reply.paymentId in db.payments
      && db.payments[r.reply.paymentId] == Payment(r.owner, o, r.reply.total, db.payments[r.reply.paymentId].status)
      && r.reply.status == AwaitingPayment
    case MockPay(p) =>
      && r.reply.PaymentReply? && r.reply.paymentId == p && p in db.payments
      && db.payments[p] == Payment(r.owner, r.reply.orderId, r.reply.total, db.payments[p].status)
      && (r.reply.status == Paid || r.reply.status == Processing)
      && db.payments[p].status != AwaitingPayment
  }

  /** Later writes never make an answer false. */
  lemma AnswerStaysTrue(a: Db, b: Db, r: Receipt)
    requires Grows(a, b) && AnswerTrue(a, r)
    ensures AnswerTrue(b, r)
  {
    hide Subtotal, StoredLines;
    match r.op
    case UpdateCartLines(_, _, _) => assert CartGrows(a, b, r.reply.cartId);
    case PrepareCheckout(_, _) => assert QuoteGrows(a.quotes[r.reply.quoteId], b.quotes[r.reply.quoteId]);
    case CreateOrder(_) =>
    case CreatePayment(_) => assert PaymentGrows(a.payments[r.reply.paymentId], b.payments[r.reply.paymentId]);
    case MockPay(p) => assert PaymentGrows(a.payments[p], b.payments[p]);
  }

  lemma UpdateAnswerTrue(m: Market, db: Db, owner: int, cartId: Option<Id>, expected: Option<int>,
                         sels: seq<Selection>, env: Env)
    requires Versioned(db)
    requires UpdateCartWork(m, db, owner, cartId, expected, sels, env).Ok?
    ensures var (db', reply) := UpdateCartWork(m, db, owner, cartId, expected, sels, env).value;
            AnswerTrue(db', Receipt(owner, UpdateCartLines(cartId, expected, sels), reply))
  {
    hide ValidatedLines, Subtotal;
    ValidationExactly(m, env.shelf, db.deltas, sels);
    var lines := ValidatedLines(m, env.shelf, db.deltas, sels).value;
    forall i | 0 <= i < |lines| ensures lines[i].quantity == sels[i].quantity {
      assert SoldAs(m, env.shelf, sels[i]) == Some(lines[i]);
    }
  }

  /** The stored answer of a fresh commit is true of the database it leaves. */
  lemma WorkAnswers(m: Market, db: Db, call: Call, env: Env)
    requires Versioned(db) && Work(m, db, call, env).Ok?
    ensures var (db', reply) := Work(m, db, call, env).value;
            AnswerTrue(db', Receipt(call.owner, call.op, reply))
  {
    hide ValidatedLines, Subtotal, UpdateCartWork, OpenQuote, StockRows, CartAnswerTrue, SamePrices;
    match call.op
    case UpdateCartLines(cartId, expected, sels) =>
      UpdateAnswerTrue(m, db, call.owner, cartId, expected, sels, env);
    case PrepareCheckout(cartId, expected) =>
      OpenQuoteFinds(db.quotes, db.quoteIds, call.owner, cartId, expected, env.now);
    case _ =>
  }

  // --- all receipts ------------------------------------------------------------------

  /** Cart versions count from 1. */
  ghost predicate Versioned(db: Db) {
    forall c :: c in db.carts ==> Written(db.carts[c]) >= 1
  }

  /** The last version an update wrote: ordering a cart raises its version once more. */
  function Written(cart: Cart): int { if cart.ordered.Some? then cart.version - 1 else cart.version }

  predicate WroteCart(r: Receipt, c: Id, v: int) { r.reply.CartReply? && r.reply.cartId == c && r.reply.version == v }

  predicate MadeQuote(r: Receipt, q: Id) { r.reply.QuoteReply? && r.reply.quoteId == q }

  predicate MadeOrder(r: Receipt, o: Id) { r.reply.OrderReply? && r.reply.orderId == o }

  predicate MadePayment(r: Receipt, p: Id) { r.op.CreatePayment? && r.reply.PaymentReply? && r.reply.paymentId == p }

  /** Two receipts claim one write. */
  ghost predicate SameWrite(a: Receipt, b: Receipt) {
    || (a.reply.CartReply? && WroteCart(b, a.reply.cartId, a.reply.version))
    || (a.reply.OrderReply? && MadeOrder(b, a.reply.orderId))
    || (a.reply.PaymentReply? && a.op.CreatePayment? && MadePayment(b, a.reply.paymentId))
  }

  ghost predicate CartAccounted(db: Db, c: Id, v: int) {
    exists k :: k in db.receipts && WroteCart(db.receipts[k], c, v)
  }

  ghost predicate QuoteAccounted(db: Db, q: Id) { exists k :: k in db.receipts && MadeQuote(db.receipts[k], q) }

  ghost predicate OrderAccounted(db: Db, o: Id) { exists k :: k in db.receipts && MadeOrder(db.receipts[k], o) }

  ghost predicate PaymentAccounted(db: Db, p: Id) { exists k :: k in db.receipts && MadePayment(db.receipts[k], p) }

  /** No row without its receipt. */
  ghost predicate RowsAccounted(db: Db) {
    && (forall c, v: int :: c in db.carts && 1 <= v <= Written(db.carts[c]) ==> CartAccounted(db, c, v))
    && (forall q :: q in db.quotes ==> QuoteAccounted(db, q))
    && (forall o :: o in db.orders ==> OrderAccounted(db, o))
    && (forall p :: p in db.payments ==> PaymentAccounted(db, p))
  }

  ghost predicate AnswersTrue(db: Db) { forall k :: k in db.receipts ==> AnswerTrue(db, db.receipts[k]) }

  ghost predicate WritesDistinct(db: Db) {
    forall k, l :: k in db.receipts && l in db.receipts && k != l ==> !SameWrite(db.receipts[k], db.receipts[l])
  }

  ghost predicate History(db: Db) {
    AnswersTrue(db) && WritesDistinct(db) && RowsAccounted(db) && Versioned(db)
  }

  // --- one transaction -----------------------------------------------------------------

  /** A work adds at most the row its reply names. */
  ghost predicate AddsOnly(db: Db, db': Db, r: Receipt) {
    && (forall c, v: int :: c in db'.carts && 1 <= v <= Written(db'.carts[c]) ==>
          (c in db.carts && v <= Written(db.carts[c])) || WroteCart(r, c, v))
    && (forall q :: q in db'.quotes ==> q in db.quotes || MadeQuote(r, q))
    && (forall o :: o in db'.orders ==> o in db.orders || MadeOrder(r, o))
    && (forall p :: p in db'.payments ==> p in db.payments || MadePayment(r, p))
  }

  /** The row a reply names was not there before. */
  ghost predicate NamesNew(db: Db, r: Receipt) {
    && (r.reply.CartReply? ==> r.reply.cartId !in db.carts || db.carts[r.reply.cartId].version < r.reply.version)
    && (r.reply.OrderReply? ==> r.reply.orderId !in db.orders)
    && (r.reply.PaymentReply? && r.op.CreatePayment? ==> r.reply.paymentId !in db.payments)
  }

  lemma UpdateAdds(m: Market, db: Db, owner: int, cartId: Option<Id>, expected: Option<int>,
                   sels: seq<Selection>, env: Env)
    requires Versioned(db) && Fresh(db, env.uuid)
    requires UpdateCartWork(m, db, owner, cartId, expected, sels, env).Ok?
    ensures var (db', reply) := UpdateCartWork(m, db, owner, cartId, expected, sels, env).value;
            var r := Receipt(owner, UpdateCartLines(cartId, expected, sels), reply);
            AddsOnly(db, db', r) && NamesNew(db, r) && Versioned(db')
  {
    hide ValidatedLines, Subtotal;
  }

  lemma CheckoutAdds(m: Market, db: Db, owner: int, cartId: Id, expected: int, env: Env)
    requires Versioned(db) && PrepareCheckoutWork(m, db, owner, cartId, expected, env).Ok?
    ensures var (db', reply) := PrepareCheckoutWork(m, db, owner, cartId, expected, env).value;
            var r := Receipt(owner, PrepareCheckout(cartId, expected), reply);
            AddsOnly(db, db', r) && NamesNew(db, r) && Versioned(db')
  {
    hide ValidatedLines, Subtotal, OpenQuote, SamePrices, StoredLines;
  }

  lemma OrderAdds(m: Market, db: Db, owner: int, quoteId: Id, env: Env)
    requires Versioned(db) && CreateOrderWork(m, db, owner, quoteId, env).Ok?
    ensures var (db', reply) := CreateOrderWork(m, db, owner, quoteId, env).value;
            var r := Receipt(owner, CreateOrder(quoteId), reply);
            AddsOnly(db, db', r) && NamesNew(db, r) && Versioned(db')
  {
    hide ValidatedLines, StockRows, SamePrices, DistinctKeys;
  }

  lemma WorkAdds(m: Market, db: Db, call: Call, env: Env)
    requires Versioned(db) && Fresh(db, env.uuid) && Work(m, db, call, env).Ok?
    ensures var (db', reply) := Work(m, db, call, env).value;
            var r := Receipt(call.owner, call.op, reply);
            AddsOnly(db, db', r) && NamesNew(db, r) && Versioned(db')
  {
    hide UpdateCartWork, PrepareCheckoutWork, CreateOrderWork;
    match call.op
    case UpdateCartLines(cartId, expected, sels) => UpdateAdds(m, db, call.owner, cartId, expected, sels, env);
    case PrepareCheckout(cartId, expected) => CheckoutAdds(m, db, call.owner, cartId, expected, env);
    case CreateOrder(quoteId) => OrderAdds(m, db, call.owner, quoteId, env);
    case CreatePayment(_) =>
    case MockPay(_) =>
  }

  lemma AccountedStays(a: Db, b: Db)
    requires forall k :: k in a.receipts ==> k in b.receipts && b.receipts[k] == a.receipts[k]
    ensures forall c, v: int :: CartAccounted(a, c, v) ==> CartAccounted(b, c, v)
    ensures forall q :: QuoteAccounted(a, q) ==> QuoteAccounted(b, q)
    ensures forall o :: OrderAccounted(a, o) ==> OrderAccounted(b, o)
    ensures forall p :: PaymentAccounted(a, p) ==> PaymentAccounted(b, p)
  {
    hide WroteCart, MadeQuote, MadeOrder, MadePayment;
    forall c, v: int | CartAccounted(a, c, v) ensures CartAccounted(b, c, v) {
      var k :| k in a.receipts && WroteCart(a.receipts[k], c, v);
      assert k in b.receipts && WroteCart(b.receipts[k], c, v);
    }
    forall q | QuoteAccounted(a, q) ensures QuoteAccounted(b, q) {
      var k :| k in a.receipts && MadeQuote(a.receipts[k], q);
      assert k in b.receipts && MadeQuote(b.receipts[k], q);
    }
    forall o | OrderAccounted(a, o) ensures OrderAccounted(b, o) {
      var k :| k in a.receipts && MadeOrder(a.receipts[k], o);
      assert k in b.receipts && MadeOrder(b.receipts[k], o);
    }
    forall p | PaymentAccounted(a, p) ensures PaymentAccounted(b, p) {
      var k :| k in a.receipts && MadePayment(a.receipts[k], p);
      assert k in b.receipts && MadePayment(b.receipts[k], p);
    }
  }

  lemma RowsStayAccounted(a: Db, b: Db, key: string, r: Receipt)
    requires RowsAccounted(a) && AddsOnly(a, b, r)
    requires key !in a.receipts && b.receipts == a.receipts[key := r]
    ensures RowsAccounted(b)
  {
    hide WroteCart, MadeQuote, MadeOrder, MadePayment, Written;
    AccountedStays(a, b);
    assert key in b.receipts && b.receipts[key] == r;
    assert forall c, v: int :: WroteCart(r, c, v) ==> CartAccounted(b, c, v);
    assert forall q :: MadeQuote(r, q) ==> QuoteAccounted(b, q);
    assert forall o :: MadeOrder(r, o) ==> OrderAccounted(b, o);
    assert forall p :: MadePayment(r, p) ==> PaymentAccounted(b, p);
    hide CartAccounted, QuoteAccounted, OrderAccounted, PaymentAccounted;
  }

  /** A receipt for a new row claims no write an older receipt claims. */
  lemma NewWriteDiffers(db: Db, earlier: Receipt, r: Receipt)
    requires AnswerTrue(db, earlier) && NamesNew(db, r)
    ensures !SameWrite(earlier, r) && !SameWrite(r, earlier)
  {
    hide Subtotal, StoredLines;
  }

  lemma ExtendHistory(a: Db, b: Db, key: string, r: Receipt)
    requires History(a) && Grows(a, b) && Versioned(b)
    requires AnswerTrue(b, r) && AddsOnly(a, b, r) && NamesNew(a, r)
    requires key !in a.receipts && b.receipts == a.receipts[key := r]
    ensures History(b)
  {
    hide Grows, AnswerTrue, SameWrite, NamesNew, RowsAccounted, AddsOnly, Versioned;
    RowsStayAccounted(a, b, key, r);
    forall k | k in b.receipts ensures AnswerTrue(b, b.receipts[k]) {
      if k != key { AnswerStaysTrue(a, b, a.receipts[k]); }
    }
    forall k, l | k in b.receipts && l in b.receipts && k != l ensures !SameWrite(b.receipts[k], b.receipts[l]) {
      if k == key {
        NewWriteDiffers(a, a.receipts[l], r);
      } else if l == key {
        NewWriteDiffers(a, a.receipts[k], r);
      }
    }
  }

  lemma CommitHistory(m: Market, db: Db, call: Call, env: Env)
    requires Sku.Faithful(m.rules) && Inv(m, db, env.now) && Fresh(db, env.uuid) && History(db)
    requires call.key !in db.receipts && Transaction(m, db, call, env).Ok?
    ensures History(Transaction(m, db, call, env).value.0)
  {
    hide Inv, Work, Grows, Fresh, Sku.Faithful, AnswerTrue, NamesNew, Holds, PaidStays, Versioned, AddsOnly;
    hide AnswersTrue, WritesDistinct, RowsAccounted;
    TransactionKeeps(m, db, call, env);
    WorkAnswers(m, db, call, env);
    WorkAdds(m, db, call, env);
    var db1 := Work(m, db, call, env).value.0;
    var r := Receipt(call.owner, call.op, Work(m, db, call, env).value.1);
    WorkGrows(m, db, call, env);
    ReceiptSideways(db, db1, Transaction(m, db, call, env).value.0, r);
    ExtendHistory(db, Transaction(m, db, call, env).value.0, call.key, r);
  }

  lemma ReceiptSideways(db: Db, a: Db, b: Db, r: Receipt)
    requires AnswerTrue(a, r) && AddsOnly(db, a, r) && Versioned(a) && b == a.(receipts := b.receipts)
    ensures AnswerTrue(b, r) && AddsOnly(db, b, r) && Versioned(b)
  {
    assert forall c :: StoredLines(b, c) == StoredLines(a, c);
  }

  // --- whole runs ------------------------------------------------------------------------

  lemma SameRowsHistory(a: Db, b: Db)
    requires History(a) && Grows(a, b) && b.receipts == a.receipts
    requires b.carts == a.carts && b.quotes == a.quotes
    requires b.orders.Keys == a.orders.Keys && b.payments.Keys == a.payments.Keys
    ensures History(b)
  {
    hide Grows, AnswerTrue, SameWrite, Written, CartAccounted, QuoteAccounted, OrderAccounted, PaymentAccounted;
    AccountedStays(a, b);
    forall k | k in b.receipts ensures AnswerTrue(b, b.receipts[k]) {
      AnswerStaysTrue(a, b, a.receipts[k]);
    }
    assert forall o :: o in b.orders ==> o in a.orders.Keys;
    assert forall p :: p in b.payments ==> p in a.payments.Keys;
  }

  lemma SettleHistory(db: Db, owner: int, paymentId: Id, paid: bool)
    requires History(db) && PaymentsOk(db) && SettleWork(db, owner, paymentId, paid).Ok?
    ensures History(SettleWork(db, owner, paymentId, paid).value.0)
  {
    hide History, Grows, PaidStays;
    var status := if paid then Paid else Failed;
    assert PaymentAgrees(db, paymentId);
    SetStatusGrows(db, paymentId, status);
    SameRowsHistory(db, SetStatus(db, paymentId, status));
  }

  lemma WriteHistory(m: Market, s: System, id: nat, env: Env, busy: bool)
    requires Sku.Faithful(m.rules) && Inv(m, s.db, s.clock) && History(s.db)
    requires id in s.calls && Fresh(s.db, env.uuid) && env.now == s.clock
    ensures History(WriteStep(m, s, id, env, busy).db)
  {
    hide Inv, History, Fresh, Sku.Faithful, Work;
    var call := s.calls[id].call;
    if call.key !in s.db.receipts && Transaction(m, s.db, call, env).Ok? {
      CommitHistory(m, s.db, call, env);
    }
  }

  lemma StepHistory(m: Market, s: System, l: Label)
    requires Sku.Faithful(m.rules) && SystemInv(m, s) && History(s.db)
    ensures History(Step(m, s, l).db)
  {
    hide History, Inv, WriteStep, SettleWork, Fresh, CallsOk, CacheOk, Serial, LogOk, Sku.Faithful;
    match l
    case Write(id, shelf, uuid, busy) =>
      if Step(m, s, l) != s {
        WriteHistory(m, s, id, Env(shelf, s.clock, uuid, s.calls[id].phase.processing), busy);
      }
    case Settle(owner, paymentId, paid) =>
      if Step(m, s, l) != s {
        assert PaymentsOk(s.db) by { InvPayments(m, s.db, s.clock); }
        SettleHistory(s.db, owner, paymentId, paid);
      }
    case Tick(_) =>
    case Begin(_, _) => QuietOtherStep(m, s, l);
    case Lose(_) => QuietOtherStep(m, s, l);
    case Restart => QuietOtherStep(m, s, l);
    case PlanFault(_, _) => QuietOtherStep(m, s, l);
    case ClearFaults => QuietOtherStep(m, s, l);
    case ReadStock(_) => QuietOtherStep(m, s, l);
    case StoreStock(_) => QuietOtherStep(m, s, l);
    case _ => QuietCallStep(m, s, l);
  }

  lemma InvPayments(m: Market, db: Db, clock: Time)
    requires Inv(m, db, clock)
    ensures PaymentsOk(db)
  {
  }

  /** In every reachable state: every stored answer is true of the rows it names; no two
      receipts claim the same cart version, order or payment; and every cart version,
      quote, order and payment has the receipt of the request that wrote it. */
  lemma {:induction false} ReceiptsAndRows(m: Market, faults: bool, clock: Time, labels: seq<Label>)
    requires Sku.Faithful(m.rules)
    ensures History(Run(m, Initial(faults, clock), labels).db)
  {
    if labels != [] {
      hide SystemInv, Step, Sku.Faithful, History;
      Reachable(m, faults, clock, labels[..|labels| - 1]);
      ReceiptsAndRows(m, faults, clock, labels[..|labels| - 1]);
      StepHistory(m, Run(m, Initial(faults, clock), labels[..|labels| - 1]), labels[|labels| - 1]);
    }
  }

  /** Two requests never both update one cart from the same version. */
  lemma NoLostUpdate(m: Market, faults: bool, clock: Time, labels: seq<Label>, k: string, l: string)
    requires Sku.Faithful(m.rules)
    requires var db := Run(m, Initial(faults, clock), labels).db;
             && k in db.receipts && l in db.receipts
             && db.receipts[k].op.UpdateCartLines? && db.receipts[l].op.UpdateCartLines?
             && db.receipts[k].op.cartId.Some? && db.receipts[l].op.cartId == db.receipts[k].op.cartId
             && db.receipts[l].op.expected == db.receipts[k].op.expected
    ensures k == l
  {
    hide Run, Subtotal, StoredLines;
    ReceiptsAndRows(m, faults, clock, labels);
    var db := Run(m, Initial(faults, clock), labels).db;
    assert AnswerTrue(db, db.receipts[k]) && AnswerTrue(db, db.receipts[l]);
    assert k != l ==> !SameWrite(db.receipts[k], db.receipts[l]);
  }

  /** An unordered cart shows exactly what one request was answered. */
  lemma CartShowsLastUpdate(m: Market, faults: bool, clock: Time, labels: seq<Label>, c: Id)
    requires Sku.Faithful(m.rules)
    requires var db := Run(m, Initial(faults, clock), labels).db;
             c in db.carts && db.carts[c].ordered.None?
    ensures var db := Run(m, Initial(faults, clock), labels).db;
            exists k :: k in db.receipts && db.receipts[k].op.UpdateCartLines?
                        && db.receipts[k].owner == db.carts[c].owner
                        && db.receipts[k].reply
                           == CartReply(c, db.carts[c].version, StoredLines(db, c), db.carts[c].subtotal)
  {
    hide Run, Subtotal, StoredLines;
    ReceiptsAndRows(m, faults, clock, labels);
    var db := Run(m, Initial(faults, clock), labels).db;
    assert CartAccounted(db, c, db.carts[c].version);
    var k :| k in db.receipts && WroteCart(db.receipts[k], c, db.carts[c].version);
    assert AnswerTrue(db, db.receipts[k]);
  }

  /** Each order stems from exactly one request, and each payment from exactly one. */
  lemma OneRequestPerOrder(m: Market, faults: bool, clock: Time, labels: seq<Label>)
    requires Sku.Faithful(m.rules)
    ensures var db := Run(m, Initial(faults, clock), labels).db;
            && (forall o :: o in db.orders ==>
                  exists k :: k in db.receipts && MadeOrder(db.receipts[k], o)
                              && db.receipts[k].op == CreateOrder(db.orders[o].quoteId)
                              && forall l :: l in db.receipts && MadeOrder(db.receipts[l], o) ==> l == k)
            && (forall p :: p in db.payments ==>
                  exists k :: k in db.receipts && MadePayment(db.receipts[k], p)
                              && db.receipts[k].op == CreatePayment(db.payments[p].orderId)
                              && forall l :: l in db.receipts && MadePayment(db.receipts[l], p) ==> l == k)
  {
    hide Run;
    ReceiptsAndRows(m, faults, clock, labels);
    var db := Run(m, Initial(faults, clock), labels).db;
    hide CartAnswerTrue, QuoteReplyOf;
    forall o | o in db.orders
      ensures exists k :: k in db.receipts && MadeOrder(db.receipts[k], o)
                          && db.receipts[k].op == CreateOrder(db.orders[o].quoteId)
                          && forall l :: l in db.receipts && MadeOrder(db.receipts[l], o) ==> l == k
    {
      assert OrderAccounted(db, o);
      var k :| k in db.receipts && MadeOrder(db.receipts[k], o);
      assert AnswerTrue(db, db.receipts[k]);
      assert forall l :: l in db.receipts && MadeOrder(db.receipts[l], o) ==> SameWrite(db.receipts[k], db.receipts[l]);
    }
    forall p | p in db.payments
      ensures exists k :: k in db.receipts && MadePayment(db.receipts[k], p)
                          && db.receipts[k].op == CreatePayment(db.payments[p].orderId)
                          && forall l :: l in db.receipts && MadePayment(db.receipts[l], p) ==> l == k
    {
      assert PaymentAccounted(db, p);
      var k :| k in db.receipts && MadePayment(db.receipts[k], p);
      assert AnswerTrue(db, db.receipts[k]);
      assert forall l :: l in db.receipts && MadePayment(db.receipts[l], p) ==>
          SameWrite(db.receipts[k], db.receipts[l]);
    }
  }

  // --- checkout and ordering, exactly -------------------------------------------------------

  /** A checkout offers an unexpired quote it already had, or a new one for the full
      lifetime; either way for the asked version of the owner's unordered cart. */
  lemma CheckoutOffers(m: Market, a: Db, owner: int, cartId: Id, version: int, env: Env)
    requires PrepareCheckoutWork(m, a, owner, cartId, version, env).Ok?
    ensures var (b, reply) := PrepareCheckoutWork(m, a, owner, cartId, version, env).value;
            && reply.QuoteReply? && reply.quoteId in b.quotes
            && var q := b.quotes[reply.quoteId];
               && reply == QuoteReplyOf(reply.quoteId, q)
               && q.owner == owner && q.cartId == cartId && q.cartVersion == version && q.status == Open
               && (if reply.quoteId in a.quotes then b == a && q.expiresAt > env.now
                   else q.expiresAt == env.now + 1_000_000 * m.quoteTtl)
    ensures cartId in a.carts && a.carts[cartId].ordered.None? && a.carts[cartId].version == version
    ensures a.carts[cartId].owner == owner
    ensures PrepareCheckoutWork(m, a, owner, cartId, version, env).value.0.carts == a.carts
  {
    hide ValidatedLines, OpenQuote, Subtotal, SamePrices, StoredLines;
    OpenQuoteFinds(a.quotes, a.quoteIds, owner, cartId, version, env.now);
  }

  /** A quote of a live cart's present version has not been consumed. */
  lemma CurrentIsOpen(db: Db, q: Id)
    requires LinksOk(db) && q in db.quotes && Current(db, q)
    ensures db.quotes[q].status == Open
  {
    hide Subtotal, StoredLines;
    assert QuoteLinked(db, q);
    assert forall o :: o in db.orders ==> OrderLinked(db, o);
  }

  lemma CheckoutReturnsOffer(m: Market, db: Db, owner: int, cartId: Id, version: int, env: Env, q: Id)
    requires RowsOk(db) && OneOffer(db, env.now) && PrepareCheckoutWork(m, db, owner, cartId, version, env).Ok?
    requires q in db.quotes && Offers(db.quotes[q], owner, cartId, version, env.now)
    ensures PrepareCheckoutWork(m, db, owner, cartId, version, env) == Ok((db, QuoteReplyOf(q, db.quotes[q])))
  {
    hide ValidatedLines, OpenQuote, Subtotal, SamePrices, StoredLines, DistinctKeys;
    OpenQuoteFinds(db.quotes, db.quoteIds, owner, cartId, version, env.now);
  }

  /** The line can still be bought at its quoted price. */
  ghost predicate StillOffered(m: Market, shelf: Shelf, deltas: seq<Delta>, line: Line) {
    var n := Sku.ParseSkuId(m.rules, shelf.total, line.sku);
    && n.Some?
    && shelf.price(n.value) == Some(line.unitPrice)
    && line.quantity <= Max0(m.base(n.value) + Sum(deltas, line.sku))
  }

  lemma QuotedLinesValidate(m: Market, shelf: Shelf, deltas: seq<Delta>, lines: seq<Line>)
    requires Sku.Faithful(m.rules) && AllCanonical(lines) && DistinctSkus(lines) && AllWithinCap(m, lines)
    ensures var r := ValidatedLines(m, shelf, deltas, Selections(lines));
            (r.Ok? && SamePrices(lines, r.value)) <==>
              forall i :: 0 <= i < |lines| ==> StillOffered(m, shelf, deltas, lines[i])
  {
    hide Sku.SkuId, Sku.ParseSkuId, Sum, ValidatedLines, Canonical, Sku.Faithful;
    var sels := Selections(lines);
    ValidationExactly(m, shelf, deltas, sels);
    forall i | 0 <= i < |lines| && Sku.ParseSkuId(m.rules, shelf.total, lines[i].sku).Some?
      ensures lines[i].quantity <= m.cap(Sku.ParseSkuId(m.rules, shelf.total, lines[i].sku).value)
    {
      assert WithinCap(m, lines[i]) && Canonical(lines[i]);
      CanonicalParse(m, shelf.total, lines[i]);
    }
    if forall i :: 0 <= i < |lines| ==> StillOffered(m, shelf, deltas, lines[i]) {
      forall i | 0 <= i < |sels| ensures Sellable(m, shelf, deltas, sels, i) {
        assert StillOffered(m, shelf, deltas, lines[i]);
        assert forall j :: 0 <= j < i ==> sels[j].sku == lines[j].sku;
      }
      forall i | 0 <= i < |lines|
        ensures lines[i].unitPrice == ValidatedLines(m, shelf, deltas, sels).value[i].unitPrice
      {
        assert StillOffered(m, shelf, deltas, lines[i]);
        assert SoldAs(m, shelf, sels[i]) == Some(ValidatedLines(m, shelf, deltas, sels).value[i]);
      }
    }
    var r := ValidatedLines(m, shelf, deltas, sels);
    if r.Ok? && SamePrices(lines, r.value) {
      forall i | 0 <= i < |lines| ensures StillOffered(m, shelf, deltas, lines[i]) {
        assert Sellable(m, shelf, deltas, sels, i);
        assert SoldAs(m, shelf, sels[i]) == Some(r.value[i]);
      }
    }
  }

  lemma CanonicalParse(m: Market, total: nat, line: Line)
    requires Sku.Faithful(m.rules) && Canonical(line) && Sku.ParseSkuId(m.rules, total, line.sku).Some?
    ensures line.sku == Sku.SkuId(Sku.ParseSkuId(m.rules, total, line.sku).value)
  {
    hide Sku.SkuId;
    var n: nat :| n < Sku.LIMIT && line.sku == Sku.SkuId(n);
    Sku.ParseOfSkuId(m.rules, total, n);
  }

  /** A checkout goes through exactly if the cart is the owner's, unordered, at the asked
      version and not empty, no SKU stands on two of its lines, and every line is still
      offered at its price. */
  lemma CheckoutSucceedsExactly(m: Market, db: Db, owner: int, cartId: Id, version: int, env: Env)
    requires Sku.Faithful(m.rules) && Inv(m, db, env.now) && Fresh(db, env.uuid)
    ensures PrepareCheckoutWork(m, db, owner, cartId, version, env).Ok? <==>
            && cartId in db.carts && db.carts[cartId].owner == owner
            && db.carts[cartId].ordered.None? && db.carts[cartId].version == version
            && StoredLines(db, cartId) != [] && DistinctSkus(StoredLines(db, cartId))
            && forall i :: 0 <= i < |StoredLines(db, cartId)| ==>
                 StillOffered(m, env.shelf, db.deltas, StoredLines(db, cartId)[i])
  {
    hide Sku.Faithful, ValidatedLines, StillOffered, StockOk, OneOffer, PaymentsOk, Timed, AllWithinCap, Subtotal;
    hide Canonical, DistinctSkus, StoredLines, Sum, Selections, SamePrices, OpenQuote, InStock, LinksOk;
    OpenQuoteFinds(db.quotes, db.quoteIds, owner, cartId, version, env.now);
    if cartId in db.carts {
      var lines := StoredLines(db, cartId);
      assert AllCanonical(lines) && AllWithinCap(m, lines);
      if DistinctSkus(lines) { QuotedLinesValidate(m, env.shelf, db.deltas, lines); }
      if ValidatedLines(m, env.shelf, db.deltas, Selections(lines)).Ok? {
        Revalidated(m, env.shelf, db.deltas, lines);
      }
    }
  }

  /** What a quote from an earlier checkout and the cart still agree on. */
  lemma QuoteOutlives(m: Market, a: Db, b: Db, c: Db, owner: int, cartId: Id, version: int, reply: Reply,
                      now: Env, clock: Time)
    requires PrepareCheckoutWork(m, a, owner, cartId, version, now) == Ok((b, reply))
    requires Grows(b, c) && Inv(m, c, clock)
    ensures reply.QuoteReply? && reply.quoteId in c.quotes && cartId in c.carts && c.carts[cartId].owner == owner
    ensures c.quotes[reply.quoteId].owner == owner && reply == QuoteReplyOf(reply.quoteId, c.quotes[reply.quoteId])
    ensures c.quotes[reply.quoteId].cartId == cartId && c.quotes[reply.quoteId].cartVersion == version
    ensures reply.lines != [] && DistinctSkus(reply.lines)
    ensures c.carts[cartId].version == version ==>
              c.carts[cartId].ordered.None? && Current(c, reply.quoteId) && StoredLines(c, cartId) == reply.lines
  {
    hide PrepareCheckoutWork, StockOk, RowsOk, LinksOk, OneOffer, PaymentsOk, CapsOk, Timed, DistinctSkus;
    hide AllCanonical, Subtotal, StoredLines;
    CheckoutOffers(m, a, owner, cartId, version, now);
    var q := reply.quoteId;
    assert QuoteGrows(b.quotes[q], c.quotes[q]) && CartGrows(b, c, cartId);
    assert QuoteLines(c.quotes[q]);
  }

  /** Whatever was committed in between: checking out the same cart version again goes
      through exactly if the cart still has that version and its lines are still offered;
      and until the quote expires it then gives the same answer and writes nothing. */
  lemma CheckoutAgain(m: Market, a: Db, b: Db, c: Db, owner: int, cartId: Id, version: int, reply: Reply,
                      now: Env, later: Env)
    requires PrepareCheckoutWork(m, a, owner, cartId, version, now) == Ok((b, reply))
    requires Sku.Faithful(m.rules) && Grows(b, c) && Inv(m, c, later.now) && Fresh(c, later.uuid)
    ensures reply.QuoteReply? && cartId in c.carts
    ensures PrepareCheckoutWork(m, c, owner, cartId, version, later).Ok? <==>
            && c.carts[cartId].version == version
            && forall i :: 0 <= i < |reply.lines| ==> StillOffered(m, later.shelf, c.deltas, reply.lines[i])
    ensures PrepareCheckoutWork(m, c, owner, cartId, version, later).Ok? && reply.expiresAt > later.now ==>
              PrepareCheckoutWork(m, c, owner, cartId, version, later) == Ok((c, reply))
  {
    hide PrepareCheckoutWork, StockOk, RowsOk, LinksOk, LinesOk, OneOffer, PaymentsOk, CapsOk, Timed, Grows, Fresh;
    hide StillOffered, DistinctSkus, StoredLines, Sku.Faithful;
    QuoteOutlives(m, a, b, c, owner, cartId, version, reply, now, later.now);
    CheckoutSucceedsExactly(m, c, owner, cartId, version, later);
    if PrepareCheckoutWork(m, c, owner, cartId, version, later).Ok? && reply.expiresAt > later.now {
      CurrentIsOpen(c, reply.quoteId);
      CheckoutReturnsOffer(m, c, owner, cartId, version, later, reply.quoteId);
    }
  }

  /** An order goes through exactly if its quote is the owner's, open and unexpired, its
      cart is unchanged and unordered, and every line is still offered at its price. */
  lemma OrderSucceedsExactly(m: Market, db: Db, owner: int, q: Id, env: Env)
    requires Sku.Faithful(m.rules) && Inv(m, db, env.now) && Fresh(db, env.uuid)
    ensures CreateOrderWork(m, db, owner, q, env).Ok? <==>
            && q in db.quotes
            && db.quotes[q].owner == owner && db.quotes[q].status == Open && db.quotes[q].expiresAt > env.now
            && Current(db, q)
            && forall i :: 0 <= i < |db.quotes[q].lines| ==>
                StillOffered(m, env.shelf, db.deltas, db.quotes[q].lines[i])
  {
    hide Sku.Faithful, ValidatedLines, StillOffered, StockOk, OneOffer, PaymentsOk, Timed, AllWithinCap, Subtotal;
    hide Canonical, DistinctSkus, StoredLines, Sum, Selections, SamePrices;
    if q in db.quotes {
      assert QuoteLines(db.quotes[q]) && QuoteLinked(db, q);
      var lines := db.quotes[q].lines;
      QuotedLinesValidate(m, env.shelf, db.deltas, lines);
      if ValidatedLines(m, env.shelf, db.deltas, Selections(lines)).Ok? {
        Revalidated(m, env.shelf, db.deltas, lines);
        StockRowsFit(db, ValidatedLines(m, env.shelf, db.deltas, Selections(lines)).value, "o_" + env.uuid);
      }
    }
  }

  /** In every reachable state purchase caps hold on every cart and quote, and no quote
      lives longer from now than the configured lifetime. */
  lemma CapsAndLifetimes(m: Market, faults: bool, clock: Time, labels: seq<Label>)
    requires Sku.Faithful(m.rules)
    ensures var s := Run(m, Initial(faults, clock), labels);
            && (forall c :: c in s.db.carts ==> AllWithinCap(m, StoredLines(s.db, c)))
            && (forall q :: q in s.db.quotes ==>
                  AllWithinCap(m, s.db.quotes[q].lines) && s.db.quotes[q].expiresAt <= s.clock + 1_000_000 * m.quoteTtl)
  {
    Reachable(m, faults, clock, labels);
  }

  // --- amounts and updates, exactly --------------------------------------------------------

  /** What an answer charges is the total over the units it names. */
  ghost predicate ChargesUnits(db: Db, reply: Reply) {
    match reply
    case CartReply(_, _, lines, subtotal) => subtotal == Total(UnitPrices(lines))
    case QuoteReply(_, _, _, lines, total, _) => total == Total(UnitPrices(lines))
    case OrderReply(o, _, total, _) => total == Total(UnitPrices(OrderLines(db, o)))
    case PaymentReply(_, o, total, _) => total == Total(UnitPrices(OrderLines(db, o)))
  }

  /** In every reachable state every amount, stored or answered, is the price of each unit
      summed over the units: of the cart's lines, the quote's, the ordered quote's. */
  lemma AmountsAreUnits(m: Market, faults: bool, clock: Time, labels: seq<Label>)
    requires Sku.Faithful(m.rules)
    ensures var db := Run(m, Initial(faults, clock), labels).db;
            && (forall c :: c in db.carts ==> db.carts[c].subtotal == Total(UnitPrices(StoredLines(db, c))))
            && (forall q :: q in db.quotes ==> db.quotes[q].total == Total(UnitPrices(db.quotes[q].lines)))
            && (forall o :: o in db.orders ==> db.orders[o].total == Total(UnitPrices(OrderLines(db, o))))
            && (forall p :: p in db.payments ==>
                  db.payments[p].total == Total(UnitPrices(OrderLines(db, db.payments[p].orderId))))
            && (forall k :: k in db.receipts ==> ChargesUnits(db, db.receipts[k].reply))
  {
    hide Run;
    Reachable(m, faults, clock, labels);
    ReceiptsAndRows(m, faults, clock, labels);
    var s := Run(m, Initial(faults, clock), labels);
    InvOfSystem(m, s);
    StoredAmounts(m, s.db, s.clock);
    forall k | k in s.db.receipts ensures ChargesUnits(s.db, s.db.receipts[k].reply) {
      assert AnswerTrue(s.db, s.db.receipts[k]);
      AnswerCharges(m, s.db, s.clock, s.db.receipts[k]);
    }
  }

  lemma InvOfSystem(m: Market, s: System)
    requires SystemInv(m, s)
    ensures Inv(m, s.db, s.clock)
  {
  }

  lemma StoredAmounts(m: Market, db: Db, clock: Time)
    requires Inv(m, db, clock)
    ensures forall c :: c in db.carts ==> db.carts[c].subtotal == Total(UnitPrices(StoredLines(db, c)))
    ensures forall q :: q in db.quotes ==> db.quotes[q].total == Total(UnitPrices(db.quotes[q].lines))
    ensures forall o :: o in db.orders ==> db.orders[o].total == Total(UnitPrices(OrderLines(db, o)))
    ensures forall p :: p in db.payments ==>
              db.payments[p].total == Total(UnitPrices(OrderLines(db, db.payments[p].orderId)))
  {
    hide Subtotal, StoredLines, StockOk, RowsOk, OneOffer, CapsOk, Timed, AllCanonical, DistinctSkus, UnitPrices, Total;
    forall lines ensures Subtotal(lines) == Total(UnitPrices(lines)) { SubtotalIsTotal(lines); }
    forall q | q in db.quotes ensures db.quotes[q].total == Total(UnitPrices(db.quotes[q].lines)) {
      assert QuoteLines(db.quotes[q]);
    }
    forall o | o in db.orders ensures db.orders[o].total == Total(UnitPrices(OrderLines(db, o))) {
      assert OrderLinked(db, o);
    }
    forall p | p in db.payments
      ensures db.payments[p].total == Total(UnitPrices(OrderLines(db, db.payments[p].orderId)))
    {
      assert PaymentAgrees(db, p);
    }
  }

  lemma AnswerCharges(m: Market, db: Db, clock: Time, r: Receipt)
    requires Inv(m, db, clock) && AnswerTrue(db, r)
    ensures ChargesUnits(db, r.reply)
  {
    hide Inv, Subtotal, StoredLines, UnitPrices, Total, OrderLines;
    StoredAmounts(m, db, clock);
    if r.reply.CartReply? { SubtotalIsTotal(r.reply.lines); }
  }

  /** An update of a cart goes through exactly if every selection is sellable and the cart
      is new and no version is expected of it, or is the owner's, unordered and at exactly
      the expected version. */
  lemma UpdateSucceedsExactly(m: Market, db: Db, owner: int, cartId: Option<Id>, expected: Option<int>,
                              sels: seq<Selection>, env: Env)
    requires Fresh(db, env.uuid)
    ensures UpdateCartWork(m, db, owner, cartId, expected, sels, env).Ok? <==>
            && (forall i :: 0 <= i < |sels| ==> Sellable(m, env.shelf, db.deltas, sels, i))
            && if cartId.None? then expected.None?
               else
                 && cartId.value in db.carts && db.carts[cartId.value].owner == owner
                 && db.carts[cartId.value].ordered.None? && Some(db.carts[cartId.value].version) == expected
  {
    hide ValidatedLines, Sellable, SoldAs, Subtotal, PutCart;
    ValidationExactly(m, env.shelf, db.deltas, sels);
  }

  /** In a coherent database a payment can be made exactly for the owner's order that has
      none; paid exactly if it is the owner's and neither processing nor failed; settled
      exactly if it is the owner's and processing. */
  lemma PaymentsSucceedExactly(m: Market, db: Db, owner: int, o: Id, p: Id, paid: bool, env: Env)
    requires Inv(m, db, env.now) && Fresh(db, env.uuid)
    ensures CreatePaymentWork(db, owner, o, env).Ok? <==>
            o in db.orders && db.orders[o].owner == owner
            && forall x :: x in db.payments ==> db.payments[x].orderId != o
    ensures MockPayWork(db, owner, p, env).Ok? <==>
            p in db.payments && db.payments[p].owner == owner
            && db.payments[p].status != Processing && db.payments[p].status != Failed
    ensures SettleWork(db, owner, p, paid).Ok? <==>
            p in db.payments && db.payments[p].owner == owner && db.payments[p].status == Processing
  {
    hide StockOk, RowsOk, LinksOk, LinesOk, OneOffer, CapsOk, Timed;
    if o in db.orders && !HasPayment(db, o) {
      assert db.orders[o].status == AwaitingPayment;
    }
  }

  // --- why a mutation refuses -------------------------------------------------------------------

  /** The cart, quote, order or payment the operation names exists and is the caller's. */
  ghost predicate NamesOwn(db: Db, owner: int, op: Op) {
    match op
    case UpdateCartLines(c, _, _) => c.Some? ==> c.value in db.carts && db.carts[c.value].owner == owner
    case PrepareCheckout(c, _) => c in db.carts && db.carts[c].owner == owner
    case CreateOrder(q) => q in db.quotes && db.quotes[q].owner == owner
    case CreatePayment(o) => o in db.orders && db.orders[o].owner == owner
    case MockPay(p) => p in db.payments && db.payments[p].owner == owner
  }

  /** The lines the operation has checked against the catalog. */
  ghost function CheckedLines(db: Db, op: Op): seq<Selection> {
    match op
    case UpdateCartLines(_, _, sels) => sels
    case PrepareCheckout(c, _) => Selections(StoredLines(db, c))
    case CreateOrder(q) => if q in db.quotes then Selections(db.quotes[q].lines) else []
    case _ => []
  }

  /** In a coherent database a mutation that does not go through is not found only where it
      names nothing of the caller's, or the first line it cannot sell is no SKU of the
      catalog; otherwise it is rejected. And what is not the caller's is not found. */
  lemma RefusalsExplained(m: Market, db: Db, call: Call, env: Env)
    requires Inv(m, db, env.now) && Fresh(db, env.uuid)
    requires !Work(m, db, call, env).Ok? && Work(m, db, call, env) != Err(Integrity)
    ensures Work(m, db, call, env) == Err(NotFound) || Work(m, db, call, env) == Err(Rejected)
    ensures Work(m, db, call, env) == Err(NotFound) ==>
              || !NamesOwn(db, call.owner, call.op)
              || exists i: nat :: FirstUnsellable(m, env.shelf, db.deltas, CheckedLines(db, call.op), i)
                   && Sku.ParseSkuId(m.rules, env.shelf.total, CheckedLines(db, call.op)[i].sku).None?
    ensures !NamesOwn(db, call.owner, call.op)
            && (call.op.UpdateCartLines? ==>
                  var sels := call.op.selections;
                  forall i :: 0 <= i < |sels| ==> Sellable(m, env.shelf, db.deltas, sels, i))
            ==> Work(m, db, call, env) == Err(NotFound)
  {
    hide Inv, ValidatedLines, Sellable, FirstUnsellable, PutCart, PlaceOrder, AddQuote, OpenQuote, SamePrices;
    hide DistinctKeys, StockRows, Subtotal, StoredLines, Sku.ParseSkuId;
    ValidationRefuses(m, env.shelf, db.deltas, CheckedLines(db, call.op));
    ValidationExactly(m, env.shelf, db.deltas, CheckedLines(db, call.op));
    if call.op.CreateOrder? && call.op.quoteId in db.quotes { QuotedCartOwned(m, db, env.now, call.op.quoteId); }
  }

  lemma QuotedCartOwned(m: Market, db: Db, clock: Time, q: Id)
    requires Inv(m, db, clock) && q in db.quotes
    ensures db.quotes[q].cartId in db.carts && db.carts[db.quotes[q].cartId].owner == db.quotes[q].owner
  {
    hide StockOk, RowsOk, LinesOk, OneOffer, PaymentsOk, CapsOk, Timed;
    assert QuoteLinked(db, q);
  }

  lemma ValidationRefuses(m: Market, shelf: Shelf, deltas: seq<Delta>, sels: seq<Selection>)
    ensures var r := ValidatedLines(m, shelf, deltas, sels);
            r.Err? ==>
              && (r.error == NotFound || r.error == Rejected)
              && (r.error == NotFound ==>
                    exists i: nat :: FirstUnsellable(m, shelf, deltas, sels, i)
                      && Sku.ParseSkuId(m.rules, shelf.total, sels[i].sku).None?)
  {
    hide ValidatedLines, Sellable, Sku.ParseSkuId;
    if ValidatedLines(m, shelf, deltas, sels).Err? {
      ValidationExactly(m, shelf, deltas, sels);
      var i := FirstBad(m, shelf, deltas, sels, 0);
      RefusedForFirst(m, shelf, deltas, sels, i);
    }
  }

  lemma {:induction false} FirstBad(m: Market, shelf: Shelf, deltas: seq<Delta>, sels: seq<Selection>, k: nat)
    returns (i: nat)
    requires k <= |sels| && forall j :: 0 <= j < k ==> Sellable(m, shelf, deltas, sels, j)
    requires exists j :: 0 <= j < |sels| && !Sellable(m, shelf, deltas, sels, j)
    ensures FirstUnsellable(m, shelf, deltas, sels, i)
    decreases |sels| - k
  {
    hide Sellable;
    if Sellable(m, shelf, deltas, sels, k) {
      i := FirstBad(m, shelf, deltas, sels, k + 1);
    } else {
      i := k;
    }
  }

  /** The status an answer gives is the row's when it was written. */
  lemma AnswersStatus(m: Market, db: Db, call: Call, env: Env)
    requires Work(m, db, call, env).Ok?
    ensures var (db', reply) := Work(m, db, call, env).value;
            && (reply.OrderReply? ==> reply.orderId in db'.orders && db'.orders[reply.orderId].status == reply.status)
            && (reply.PaymentReply? ==>
                  reply.paymentId in db'.payments && db'.payments[reply.paymentId].status == reply.status)
  {
    hide ValidatedLines, PutCart, AddQuote, OpenQuote, SamePrices, DistinctKeys, StockRows, Subtotal, StoredLines;
  }

  /** And a settlement answers, for the named payment, paid or failed as it was told to. */
  lemma SettlementAnswers(db: Db, owner: int, p: Id, paid: bool)
    requires SettleWork(db, owner, p, paid).Ok?
    ensures var (db', reply) := SettleWork(db, owner, p, paid).value;
            && p in db'.payments && db'.payments[p].status == (if paid then Paid else Failed)
            && reply == PaymentReply(p, db'.payments[p].orderId, db'.payments[p].total, db'.payments[p].status)
  {
  }
}
