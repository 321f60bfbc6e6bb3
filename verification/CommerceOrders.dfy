/** Orders and payments keep the invariant, no mutation breaks a key, and what
    each mutation leaves unchanged. */
module CommerceOrders {
  import opened Wrappers
  import opened CommerceModel
  import opened CommerceStock
  import opened CommerceInvariant
  import Sku

  // --- create_order ------------------------------------------------------------

  /** An open quote for its live cart's present version, every line in stock. */
  ghost predicate Orderable(m: Market, db: Db, quoteId: Id) {
    && quoteId in db.quotes
    && db.quotes[quoteId].status == Open
    && Current(db, quoteId)
    && forall i :: 0 <= i < |db.quotes[quoteId].lines| ==> InStock(m, db.deltas, db.quotes[quoteId].lines[i])
  }

  /** What an order takes of one SKU is in stock. */
  lemma TakesFromStock(m: Market, deltas: seq<Delta>, lines: seq<Line>, n: nat)
    requires DistinctSkus(lines) && AllCanonical(lines)
    requires forall i :: 0 <= i < |lines| ==> InStock(m, deltas, lines[i])
    requires m.base(n) + Sum(deltas, Sku.SkuId(n)) >= 0
    ensures m.base(n) + Sum(deltas, Sku.SkuId(n)) - Quantity(lines, Sku.SkuId(n)) >= 0
  {
    hide Sum, Quantity, InStock, Canonical, DistinctSkus, Sku.SkuId;
    var sku := Sku.SkuId(n);
    if i :| 0 <= i < |lines| && lines[i].sku == sku {
      QuantityOfDistinct(lines, i);
      assert Canonical(lines[i]) && InStock(m, deltas, lines[i]);
      InStockAt(m, deltas, lines[i], n);
    } else {
      QuantityOfAbsent(lines, sku);
    }
  }

  lemma InStockAt(m: Market, deltas: seq<Delta>, line: Line, n: nat)
    requires Canonical(line) && InStock(m, deltas, line) && line.sku == Sku.SkuId(n)
    ensures line.quantity <= Max0(m.base(n) + Sum(deltas, line.sku))
  {
    hide Sum, Sku.SkuId;
    var k: nat :| k < Sku.LIMIT && line.sku == Sku.SkuId(k);
    Sku.SkuIdInjective(k, n);
  }

  lemma PlaceOrderSold(db: Db, quoteId: Id, id: Id, sku: string)
    requires quoteId in db.quotes && db.quotes[quoteId].cartId in db.carts
    requires ListsKeys(db.orderIds, db.orders) && id !in db.orders
    ensures var db' := PlaceOrder(db, quoteId, id, db.quotes[quoteId].lines);
            Sold(db', db'.orderIds, sku) == Sold(db, db.orderIds, sku) + Quantity(db.quotes[quoteId].lines, sku)
  {
    hide Quantity, Sum, Subtotal;
    var db' := PlaceOrder(db, quoteId, id, db.quotes[quoteId].lines);
    assert db'.orderIds[..|db'.orderIds| - 1] == db.orderIds;
    forall i | 0 <= i < |db.orderIds|
      ensures OrderLines(db, db.orderIds[i]) == OrderLines(db', db.orderIds[i])
    {
      assert db.orderIds[i] in db.orderIds;
    }
    SoldFrame(db, db', db.orderIds, sku);
  }

  /** An order adds to what its SKUs sold exactly what its rows take from their sums. */
  lemma PlaceOrderSums(db: Db, quoteId: Id, id: Id, sku: string)
    requires quoteId in db.quotes && db.quotes[quoteId].cartId in db.carts
    requires ListsKeys(db.orderIds, db.orders) && id !in db.orders
    ensures var lines := db.quotes[quoteId].lines;
            var db' := PlaceOrder(db, quoteId, id, lines);
            && Sum(db'.deltas, sku) == Sum(db.deltas, sku) - Quantity(lines, sku)
            && Sold(db', db'.orderIds, sku) == Sold(db, db.orderIds, sku) + Quantity(lines, sku)
  {
    hide Sum, Sold, Quantity, StockRows, ListsKeys;
    var lines := db.quotes[quoteId].lines;
    SumConcat(db.deltas, StockRows(lines, id), sku);
    SumOfStockRows(lines, id, sku);
    PlaceOrderSold(db, quoteId, id, sku);
  }

  lemma PlaceOrderStock(m: Market, db: Db, quoteId: Id, id: Id)
    requires StockOk(m, db) && ListsKeys(db.orderIds, db.orders) && LinesOk(db)
    requires Orderable(m, db, quoteId) && id !in db.orders
    ensures StockOk(m, PlaceOrder(db, quoteId, id, db.quotes[quoteId].lines))
  {
    hide InStock, AllCanonical, DistinctSkus, Sku.SkuId, PlaceOrder, Sum, Sold, Quantity, Subtotal, ListsKeys;
    var lines := db.quotes[quoteId].lines;
    var db' := PlaceOrder(db, quoteId, id, lines);
    assert QuoteLines(db.quotes[quoteId]);
    forall sku ensures Sum(db'.deltas, sku) == 0 - Sold(db', db'.orderIds, sku) {
      PlaceOrderSums(db, quoteId, id, sku);
    }
    forall n: nat ensures m.base(n) + Sum(db'.deltas, Sku.SkuId(n)) >= 0 {
      PlaceOrderSums(db, quoteId, id, Sku.SkuId(n));
      TakesFromStock(m, db.deltas, lines, n);
    }
  }

  /** The stock rows of a new order never meet the primary key (sku_id, order_id). */
  lemma StockRowsFit(db: Db, lines: seq<Line>, id: Id)
    requires RowsOk(db) && DistinctSkus(lines) && id !in db.orders
    ensures DistinctKeys(db.deltas + StockRows(lines, id))
  {
    var all := db.deltas + StockRows(lines, id);
    forall i, j | 0 <= i < j < |all| ensures all[i].sku != all[j].sku || all[i].orderId != all[j].orderId {
      if j >= |db.deltas| {
        assert all[j] == StockRows(lines, id)[j - |db.deltas|];
        if i < |db.deltas| {
          assert db.deltas[i].orderId in db.orders;
        } else {
          assert all[i] == StockRows(lines, id)[i - |db.deltas|];
        }
      }
    }
  }

  lemma PlaceOrderRows(db: Db, quoteId: Id, id: Id)
    requires RowsOk(db) && quoteId in db.quotes && db.quotes[quoteId].cartId in db.carts && id !in db.orders
    requires DistinctSkus(db.quotes[quoteId].lines)
    ensures RowsOk(PlaceOrder(db, quoteId, id, db.quotes[quoteId].lines))
  {
    hide DistinctSkus;
    var lines := db.quotes[quoteId].lines;
    var db' := PlaceOrder(db, quoteId, id, lines);
    StockRowsFit(db, lines, id);
    assert ListsKeys(db'.orderIds, db'.orders);
    forall i | 0 <= i < |db'.deltas| ensures db'.deltas[i].orderId in db'.orders && db'.deltas[i].delta <= 0 {
      if i >= |db.deltas| {
        assert db'.deltas[i] == StockRows(lines, id)[i - |db.deltas|];
      }
    }
  }

  lemma PlaceOrderQuoteLinks(m: Market, db: Db, quoteId: Id, id: Id)
    requires LinksOk(db) && Orderable(m, db, quoteId) && id !in db.orders
    ensures var db' := PlaceOrder(db, quoteId, id, db.quotes[quoteId].lines);
            forall q :: q in db'.quotes ==> QuoteLinked(db', q)
  {
    hide InStock, StockRows, Subtotal, StoredLines, OrderLinked, CartLinked;
    var db' := PlaceOrder(db, quoteId, id, db.quotes[quoteId].lines);
    assert QuoteLinked(db, quoteId);
    forall q | q in db'.quotes ensures QuoteLinked(db', q) {
      assert QuoteLinked(db, q);
    }
  }

  lemma PlaceOrderOrderLinks(m: Market, db: Db, quoteId: Id, id: Id)
    requires LinksOk(db) && Orderable(m, db, quoteId) && id !in db.orders && QuoteLines(db.quotes[quoteId])
    ensures var db' := PlaceOrder(db, quoteId, id, db.quotes[quoteId].lines);
            forall o :: o in db'.orders ==> OrderLinked(db', o)
  {
    hide InStock, StockRows, Subtotal, StoredLines, AllCanonical, DistinctSkus, CartLinked;
    var db' := PlaceOrder(db, quoteId, id, db.quotes[quoteId].lines);
    assert QuoteLinked(db, quoteId);
    forall o | o in db'.orders ensures OrderLinked(db', o) {
      assert o != id ==> OrderLinked(db, o);
    }
  }

  lemma PlaceOrderCartLinks(m: Market, db: Db, quoteId: Id, id: Id)
    requires LinksOk(db) && LinesOk(db) && Orderable(m, db, quoteId) && id !in db.orders
    ensures var db' := PlaceOrder(db, quoteId, id, db.quotes[quoteId].lines);
            forall c :: c in db'.carts ==> CartLinked(db', c)
  {
    hide InStock, StockRows, Subtotal, AllCanonical, QuoteLines, OrderLinked;
    var db' := PlaceOrder(db, quoteId, id, db.quotes[quoteId].lines);
    assert QuoteLinked(db, quoteId);
    forall c | c in db'.carts ensures CartLinked(db', c) {
      assert CartLinked(db, c);
      assert StoredLines(db', c) == StoredLines(db, c);
    }
  }

  lemma PlaceOrderLinks(m: Market, db: Db, quoteId: Id, id: Id)
    requires LinksOk(db) && LinesOk(db) && Orderable(m, db, quoteId) && id !in db.orders
    ensures LinksOk(PlaceOrder(db, quoteId, id, db.quotes[quoteId].lines))
  {
    hide InStock, QuoteLinked, OrderLinked, CartLinked, QuoteLines, PlaceOrder;
    assert QuoteLines(db.quotes[quoteId]);
    PlaceOrderQuoteLinks(m, db, quoteId, id);
    PlaceOrderOrderLinks(m, db, quoteId, id);
    PlaceOrderCartLinks(m, db, quoteId, id);
  }

  lemma PlaceOrderLinesOk(m: Market, db: Db, quoteId: Id, id: Id)
    requires LinksOk(db) && LinesOk(db) && Orderable(m, db, quoteId)
    ensures LinesOk(PlaceOrder(db, quoteId, id, db.quotes[quoteId].lines))
  {
    hide InStock, AllCanonical, DistinctSkus, Subtotal;
    var db' := PlaceOrder(db, quoteId, id, db.quotes[quoteId].lines);
    forall c | c in db'.carts
      ensures AllCanonical(StoredLines(db', c)) && db'.carts[c].subtotal == Subtotal(StoredLines(db', c))
    {
      assert StoredLines(db', c) == StoredLines(db, c);
    }
    forall q | q in db'.quotes && Current(db', q)
      ensures db'.quotes[q].lines == StoredLines(db', db'.quotes[q].cartId)
    {
      assert Current(db, q);
    }
  }

  lemma PlaceOrderLines(m: Market, db: Db, quoteId: Id, id: Id, clock: Time)
    requires LinksOk(db) && LinesOk(db) && OneOffer(db, clock) && Orderable(m, db, quoteId)
    ensures LinesOk(PlaceOrder(db, quoteId, id, db.quotes[quoteId].lines))
    ensures OneOffer(PlaceOrder(db, quoteId, id, db.quotes[quoteId].lines), clock)
  {
    PlaceOrderLinesOk(m, db, quoteId, id);
    hide InStock, QuoteLines, Subtotal, LinesOk;
    var db' := PlaceOrder(db, quoteId, id, db.quotes[quoteId].lines);
    forall p, q | p in db'.quotes && q in db'.quotes && p != q && SameOffer(db'.quotes[p], db'.quotes[q])
      ensures db'.quotes[p].expiresAt <= clock || db'.quotes[q].expiresAt <= clock
    {
      assert SameOffer(db.quotes[p], db.quotes[q]);
    }
  }

  lemma PlaceOrderPayments(db: Db, quoteId: Id, id: Id)
    requires PaymentsOk(db) && quoteId in db.quotes && db.quotes[quoteId].cartId in db.carts && id !in db.orders
    ensures PaymentsOk(PlaceOrder(db, quoteId, id, db.quotes[quoteId].lines))
  {
    var db' := PlaceOrder(db, quoteId, id, db.quotes[quoteId].lines);
    forall p | p in db'.payments ensures PaymentAgrees(db', p) {
      assert PaymentAgrees(db, p);
    }
    assert forall o :: HasPayment(db', o) == HasPayment(db, o);
  }

  lemma PlaceOrderCaps(m: Market, db: Db, quoteId: Id, id: Id, clock: Time)
    requires CapsOk(m, db) && Timed(m, db, clock) && quoteId in db.quotes && db.quotes[quoteId].cartId in db.carts
    ensures CapsOk(m, PlaceOrder(db, quoteId, id, db.quotes[quoteId].lines))
    ensures Timed(m, PlaceOrder(db, quoteId, id, db.quotes[quoteId].lines), clock)
  {
    hide AllWithinCap, StockRows;
    var db' := PlaceOrder(db, quoteId, id, db.quotes[quoteId].lines);
    assert forall c :: StoredLines(db', c) == StoredLines(db, c);
  }

  lemma PlaceOrderKeeps(m: Market, db: Db, quoteId: Id, id: Id, clock: Time)
    requires Inv(m, db, clock) && Orderable(m, db, quoteId) && id !in db.orders
    ensures Inv(m, PlaceOrder(db, quoteId, id, db.quotes[quoteId].lines), clock)
  {
    assert QuoteLines(db.quotes[quoteId]);
    hide StockOk, RowsOk, LinksOk, LinesOk, OneOffer, PaymentsOk, DistinctSkus, InStock, CapsOk, Timed;
    PlaceOrderCaps(m, db, quoteId, id, clock);
    PlaceOrderStock(m, db, quoteId, id);
    PlaceOrderRows(db, quoteId, id);
    PlaceOrderLinks(m, db, quoteId, id);
    PlaceOrderLines(m, db, quoteId, id, clock);
    PlaceOrderPayments(db, quoteId, id);
  }

  /** A quote that passes `create_order`'s checks is orderable, with exactly its own lines. */
  lemma OrderChecks(m: Market, db: Db, quoteId: Id, env: Env)
    requires Sku.Faithful(m.rules) && LinesOk(db)
    requires quoteId in db.quotes && db.quotes[quoteId].status == Open && Current(db, quoteId)
    requires var r := ValidatedLines(m, env.shelf, db.deltas, Selections(db.quotes[quoteId].lines));
             r.Ok? && SamePrices(db.quotes[quoteId].lines, r.value)
    ensures Orderable(m, db, quoteId)
    ensures ValidatedLines(m, env.shelf, db.deltas, Selections(db.quotes[quoteId].lines)).value
            == db.quotes[quoteId].lines
  {
    hide Sku.SkuId, Sku.ParseSkuId, Sku.Faithful, ValidatedLines, InStock, Canonical;
    assert QuoteLines(db.quotes[quoteId]);
    Revalidated(m, env.shelf, db.deltas, db.quotes[quoteId].lines);
  }

  lemma CreateOrderKeeps(m: Market, db: Db, owner: int, quoteId: Id, env: Env, clock: Time)
    requires Sku.Faithful(m.rules) && Inv(m, db, clock) && Fresh(db, env.uuid)
    requires CreateOrderWork(m, db, owner, quoteId, env).Ok?
    ensures Inv(m, CreateOrderWork(m, db, owner, quoteId, env).value.0, clock)
  {
    hide Sku.SkuId, Sku.ParseSkuId, Sku.Faithful, ValidatedLines, InStock, Canonical;
    hide StockOk, RowsOk, LinksOk, LinesOk, OneOffer, PaymentsOk, CapsOk, Timed;
    OrderChecks(m, db, quoteId, env);
    PlaceOrderKeeps(m, db, quoteId, "o_" + env.uuid, clock);
  }

  // --- payments ------------------------------------------------------------------

  lemma AddPaymentKeeps(db: Db, id: Id, orderId: Id)
    requires PaymentsOk(db) && id !in db.payments && orderId in db.orders
    requires db.orders[orderId].status == AwaitingPayment && !HasPayment(db, orderId)
    ensures PaymentsOk(AddPayment(db, id,
                Payment(db.orders[orderId].owner, orderId, db.orders[orderId].total, AwaitingPayment)))
  {
    var payment := Payment(db.orders[orderId].owner, orderId, db.orders[orderId].total, AwaitingPayment);
    var db' := AddPayment(db, id, payment);
    forall p | p in db'.payments ensures PaymentAgrees(db', p) {
      assert p != id ==> PaymentAgrees(db, p);
    }
    forall o | HasPayment(db, o) ensures HasPayment(db', o) {
      var p :| p in db.payments && db.payments[p].orderId == o;
      assert p in db'.payments && db'.payments[p].orderId == o;
    }
  }

  lemma SetStatusKeeps(db: Db, id: Id, status: PayStatus)
    requires PaymentsOk(db) && id in db.payments
    ensures PaymentsOk(SetStatus(db, id, status))
  {
    var db' := SetStatus(db, id, status);
    assert PaymentAgrees(db, id);
    forall p | p in db'.payments ensures PaymentAgrees(db', p) {
      assert PaymentAgrees(db, p);
    }
    forall o | HasPayment(db, o) ensures HasPayment(db', o) {
      var p :| p in db.payments && db.payments[p].orderId == o;
      assert p in db'.payments && db'.payments[p].orderId == o;
    }
  }

  /** Only payments, order status and receipts differ. */
  ghost predicate OnlyStatus(a: Db, b: Db) {
    && b == a.(orders := b.orders, payments := b.payments, receipts := b.receipts)
    && a.orders.Keys == b.orders.Keys
    && forall o :: o in a.orders ==> b.orders[o] == a.orders[o].(status := b.orders[o].status)
  }

  lemma OnlyStatusLinks(a: Db, b: Db)
    requires LinksOk(a) && OnlyStatus(a, b)
    ensures LinksOk(b)
  {
    hide Subtotal;
    forall q | q in b.quotes ensures QuoteLinked(b, q) {
      assert QuoteLinked(a, q);
    }
    forall o | o in b.orders ensures OrderLinked(b, o) {
      assert OrderLinked(a, o);
    }
    forall c | c in b.carts ensures CartLinked(b, c) {
      assert CartLinked(a, c);
      assert StoredLines(b, c) == StoredLines(a, c);
    }
  }

  lemma OnlyStatusLines(a: Db, b: Db)
    requires LinesOk(a) && OnlyStatus(a, b)
    ensures LinesOk(b)
  {
    hide Subtotal, AllCanonical, QuoteLines;
    assert forall c :: StoredLines(b, c) == StoredLines(a, c);
    assert forall q :: q in b.quotes ==> Current(b, q) == Current(a, q);
  }

  /** Changing only payments, order status and receipts leaves everything else of the invariant. */
  lemma PaymentFrame(m: Market, a: Db, b: Db, clock: Time)
    requires Inv(m, a, clock) && PaymentsOk(b) && OnlyStatus(a, b)
    ensures Inv(m, b, clock)
  {
    hide PaymentsOk, LinksOk, LinesOk, StockOk, AllWithinCap;
    assert forall c :: StoredLines(b, c) == StoredLines(a, c);
    forall i | 0 <= i < |a.orderIds| ensures OrderLines(a, a.orderIds[i]) == OrderLines(b, a.orderIds[i]) {
      assert a.orderIds[i] in a.orderIds;
    }
    StockFrame(m, a, b);
    OnlyStatusLinks(a, b);
    OnlyStatusLines(a, b);
  }

  lemma CreatePaymentKeeps(m: Market, db: Db, owner: int, orderId: Id, env: Env, clock: Time)
    requires Inv(m, db, clock)
    requires CreatePaymentWork(db, owner, orderId, env).Ok?
    ensures Inv(m, CreatePaymentWork(db, owner, orderId, env).value.0, clock)
  {
    hide StockOk, RowsOk, LinksOk, LinesOk, OneOffer, PaymentsOk, CapsOk, Timed;
    AddPaymentKeeps(db, "pay_" + env.uuid, orderId);
    PaymentFrame(m, db, CreatePaymentWork(db, owner, orderId, env).value.0, clock);
  }

  lemma SetStatusFrame(m: Market, db: Db, id: Id, status: PayStatus, clock: Time)
    requires Inv(m, db, clock) && id in db.payments
    ensures Inv(m, SetStatus(db, id, status), clock)
  {
    hide StockOk, RowsOk, LinksOk, LinesOk, OneOffer, PaymentsOk, CapsOk, Timed;
    SetStatusKeeps(db, id, status);
    PaymentFrame(m, db, SetStatus(db, id, status), clock);
  }

  // --- every mutation -------------------------------------------------------------

  /** Every committed work keeps the invariant. */
  lemma WorkKeeps(m: Market, db: Db, call: Call, env: Env)
    requires Sku.Faithful(m.rules) && Inv(m, db, env.now) && Fresh(db, env.uuid)
    requires Work(m, db, call, env).Ok?
    ensures Inv(m, Work(m, db, call, env).value.0, env.now)
  {
    hide Inv, Sku.Faithful, UpdateCartWork, PrepareCheckoutWork, CreateOrderWork, CreatePaymentWork;
    match call.op
    case UpdateCartLines(cartId, expected, sels) =>
      UpdateCartKeeps(m, db, call.owner, cartId, expected, sels, env, env.now);
    case PrepareCheckout(cartId, expected) => PrepareCheckoutKeeps(m, db, call.owner, cartId, expected, env);
    case CreateOrder(quoteId) => CreateOrderKeeps(m, db, call.owner, quoteId, env, env.now);
    case CreatePayment(orderId) => CreatePaymentKeeps(m, db, call.owner, orderId, env, env.now);
    case MockPay(paymentId) => SetStatusFrame(m, db, paymentId, if env.processing then Processing else Paid, env.now);
  }

  /** No INSERT of any mutation meets a primary key already present. */
  lemma WorkNeverBreaksAKey(m: Market, db: Db, call: Call, env: Env)
    requires Sku.Faithful(m.rules) && Inv(m, db, env.now) && Fresh(db, env.uuid)
    ensures Work(m, db, call, env) != Err(Integrity)
  {
    hide UpdateCartWork, PrepareCheckoutWork, CreateOrderWork, Inv;
    match call.op
    case UpdateCartLines(cartId, expected, sels) =>
      ValidationErrors(m, env.shelf, db.deltas, sels);
      CartKeyFree(m, db, call.owner, cartId, expected, sels, env);
    case PrepareCheckout(cartId, expected) => QuoteKeyFree(m, db, call.owner, cartId, expected, env);
    case CreateOrder(quoteId) => OrderKeysFree(m, db, call.owner, quoteId, env);
    case CreatePayment(orderId) =>
    case MockPay(paymentId) =>
  }

  lemma CartKeyFree(m: Market, db: Db, owner: int, cartId: Option<Id>, expected: Option<int>, sels: seq<Selection>,
                    env: Env)
    requires Fresh(db, env.uuid) && ValidatedLines(m, env.shelf, db.deltas, sels) != Err(Integrity)
    ensures UpdateCartWork(m, db, owner, cartId, expected, sels, env) != Err(Integrity)
  {
    hide ValidatedLines, PutCart, Subtotal;
  }

  lemma QuoteKeyFree(m: Market, db: Db, owner: int, cartId: Id, expected: int, env: Env)
    requires Fresh(db, env.uuid)
    ensures PrepareCheckoutWork(m, db, owner, cartId, expected, env) != Err(Integrity)
  {
    hide ValidatedLines, AddQuote, Subtotal, OpenQuote, StoredLines, SamePrices;
    ValidationErrors(m, env.shelf, db.deltas, Selections(StoredLines(db, cartId)));
    OpenQuoteFinds(db.quotes, db.quoteIds, owner, cartId, expected, env.now);
  }

  lemma OrderKeysFree(m: Market, db: Db, owner: int, quoteId: Id, env: Env)
    requires Sku.Faithful(m.rules) && Inv(m, db, env.now) && Fresh(db, env.uuid)
    ensures CreateOrderWork(m, db, owner, quoteId, env) != Err(Integrity)
  {
    hide ValidatedLines, PlaceOrder, SamePrices, DistinctKeys, StockRows, Sku.Faithful;
    hide StockOk, LinksOk, OneOffer, PaymentsOk, CapsOk, Timed, RowsOk, AllCanonical, DistinctSkus;
    if quoteId in db.quotes {
      var lines := db.quotes[quoteId].lines;
      ValidationErrors(m, env.shelf, db.deltas, Selections(lines));
      assert QuoteLines(db.quotes[quoteId]);
      if ValidatedLines(m, env.shelf, db.deltas, Selections(lines)).Ok? {
        Revalidated(m, env.shelf, db.deltas, lines);
        StockRowsFit(db, lines, "o_" + env.uuid);
      }
    }
  }

  lemma {:induction false} ValidationErrors(m: Market, shelf: Shelf, deltas: seq<Delta>, sels: seq<Selection>)
    ensures ValidatedLines(m, shelf, deltas, sels) != Err(Integrity)
  {
    hide Sku.ParseSkuId, Sku.SkuId;
    if sels != [] {
      ValidationErrors(m, shelf, deltas, sels[..|sels| - 1]);
    }
  }

  // --- what a mutation leaves alone -----------------------------------------------

  /** History is append-only: receipts, orders and what quotes offered never change,
      an ordered cart is frozen, and a failed payment stays failed. */
  ghost predicate Grows(a: Db, b: Db) {
    && (forall k :: k in a.receipts ==> k in b.receipts && b.receipts[k] == a.receipts[k])
    && a.deltas <= b.deltas
    && a.orderIds <= b.orderIds
    && (forall o :: o in a.orders ==> o in b.orders && b.orders[o] == a.orders[o].(status := b.orders[o].status))
    && (forall q :: q in a.quotes ==> q in b.quotes && QuoteGrows(a.quotes[q], b.quotes[q]))
    && (forall c :: c in a.carts ==> c in b.carts && CartGrows(a, b, c))
    && (forall p :: p in a.payments ==> p in b.payments && PaymentGrows(a.payments[p], b.payments[p]))
  }

  ghost predicate QuoteGrows(a: Quote, b: Quote) {
    && b == a.(status := b.status, order := b.order)
    && (a.status == Consumed ==> b == a)
  }

  ghost predicate CartGrows(a: Db, b: Db, c: Id)
    requires c in a.carts && c in b.carts
  {
    && a.carts[c].owner == b.carts[c].owner
    && a.carts[c].version <= b.carts[c].version
    && (a.carts[c].version == b.carts[c].version || a.carts[c].ordered.Some? ==>
          b.carts[c] == a.carts[c] && StoredLines(b, c) == StoredLines(a, c))
  }

  ghost predicate PaymentGrows(a: Payment, b: Payment) {
    && b == a.(status := b.status)
    && (a.status == Failed ==> b.status == Failed)
    && (b.status == AwaitingPayment ==> a.status == AwaitingPayment)
  }

  /** Every paid payment of `a` is still paid in `b`. */
  ghost predicate PaidStays(a: Db, b: Db) {
    forall p :: p in a.payments && a.payments[p].status == Paid ==> p in b.payments && b.payments[p].status == Paid
  }

  lemma GrowsTransitive(a: Db, b: Db, c: Db)
    requires Grows(a, b) && Grows(b, c)
    ensures Grows(a, c)
  {
    forall q | q in a.quotes ensures q in c.quotes && QuoteGrows(a.quotes[q], c.quotes[q]) {
      assert QuoteGrows(a.quotes[q], b.quotes[q]) && QuoteGrows(b.quotes[q], c.quotes[q]);
    }
    forall p | p in a.payments ensures p in c.payments && PaymentGrows(a.payments[p], c.payments[p]) {
      assert PaymentGrows(a.payments[p], b.payments[p]) && PaymentGrows(b.payments[p], c.payments[p]);
    }
    forall x | x in a.carts ensures x in c.carts && CartGrows(a, c, x) {
      assert CartGrows(a, b, x) && CartGrows(b, c, x);
    }
  }

  lemma PaidTransitive(a: Db, b: Db, c: Db)
    requires PaidStays(a, b) && PaidStays(b, c)
    ensures PaidStays(a, c)
  {
  }

  lemma SetStatusGrows(db: Db, id: Id, status: PayStatus)
    requires id in db.payments && db.payments[id].status != Failed && status != AwaitingPayment
    ensures Grows(db, SetStatus(db, id, status))
    ensures (db.payments[id].status == Paid ==> status == Paid) ==> PaidStays(db, SetStatus(db, id, status))
  {
    var db' := SetStatus(db, id, status);
    assert forall c :: StoredLines(db', c) == StoredLines(db, c);
  }

  lemma PutCartGrows(db: Db, id: Id, cart: Cart, lines: seq<Line>)
    requires id in db.carts ==>
      db.carts[id].ordered.None? && cart.owner == db.carts[id].owner && cart.version > db.carts[id].version
    ensures Grows(db, PutCart(db, id, cart, lines)) && PaidStays(db, PutCart(db, id, cart, lines))
  {
    var db' := PutCart(db, id, cart, lines);
    forall c | c in db.carts ensures CartGrows(db, db', c) {
      assert c != id ==> StoredLines(db', c) == StoredLines(db, c);
    }
  }

  lemma AddQuoteGrows(db: Db, id: Id, q: Quote)
    requires id !in db.quotes
    ensures Grows(db, AddQuote(db, id, q)) && PaidStays(db, AddQuote(db, id, q))
  {
    var db' := AddQuote(db, id, q);
    assert forall c :: StoredLines(db', c) == StoredLines(db, c);
  }

  lemma PlaceOrderGrows(db: Db, quoteId: Id, id: Id, lines: seq<Line>)
    requires quoteId in db.quotes && db.quotes[quoteId].cartId in db.carts && id !in db.orders
    requires db.quotes[quoteId].status == Open && db.carts[db.quotes[quoteId].cartId].ordered.None?
    ensures Grows(db, PlaceOrder(db, quoteId, id, lines)) && PaidStays(db, PlaceOrder(db, quoteId, id, lines))
  {
    var db' := PlaceOrder(db, quoteId, id, lines);
    assert forall c :: StoredLines(db', c) == StoredLines(db, c);
  }

  lemma AddPaymentGrows(db: Db, id: Id, payment: Payment)
    requires id !in db.payments
    ensures Grows(db, AddPayment(db, id, payment)) && PaidStays(db, AddPayment(db, id, payment))
  {
    var db' := AddPayment(db, id, payment);
    assert forall c :: StoredLines(db', c) == StoredLines(db, c);
  }

  lemma SameGrows(db: Db)
    ensures Grows(db, db) && PaidStays(db, db)
  {
  }

  /** A mutation only grows the database, and un-pays a payment only by paying it
      again while a processing fault is in force. */
  lemma WorkGrows(m: Market, db: Db, call: Call, env: Env)
    requires Fresh(db, env.uuid)
    requires Work(m, db, call, env).Ok?
    ensures Grows(db, Work(m, db, call, env).value.0)
    ensures env.processing || PaidStays(db, Work(m, db, call, env).value.0)
    ensures Work(m, db, call, env).value.0.receipts == db.receipts
  {
    hide Sku.ParseSkuId, Sku.SkuId, ValidatedLines, Grows, PaidStays;
    match call.op
    case UpdateCartLines(cartId, expected, sels) =>
      var lines := ValidatedLines(m, env.shelf, db.deltas, sels).value;
      match cartId {
        case None => PutCartGrows(db, "c_" + env.uuid, Cart(call.owner, 1, None, Subtotal(lines)), lines);
        case Some(id) =>
          var cart := db.carts[id];
          PutCartGrows(db, id, cart.(version := cart.version + 1, subtotal := Subtotal(lines)), lines);
      }
    case PrepareCheckout(cartId, expected) =>
      SameGrows(db);
      var lines := ValidatedLines(m, env.shelf, db.deltas, Selections(StoredLines(db, cartId))).value;
      AddQuoteGrows(db, "q_" + env.uuid, Quote(call.owner, cartId, expected, lines, Subtotal(lines),
                                               env.now + QuoteLife(m), Open, None));
    case CreateOrder(quoteId) =>
      var lines := ValidatedLines(m, env.shelf, db.deltas, Selections(db.quotes[quoteId].lines)).value;
      PlaceOrderGrows(db, quoteId, "o_" + env.uuid, lines);
    case CreatePayment(orderId) =>
      AddPaymentGrows(db, "pay_" + env.uuid, Payment(call.owner, orderId, db.orders[orderId].total, AwaitingPayment));
    case MockPay(paymentId) =>
      SetStatusGrows(db, paymentId, if env.processing then Processing else Paid);
  }
}
