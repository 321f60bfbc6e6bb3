/** What holds of every committed database, and that each mutation's work keeps it. */
module CommerceInvariant {
  import opened Wrappers
  import opened CommerceModel
  import opened CommerceStock
  import Sku

  ghost predicate ListsKeys<V>(ids: seq<Id>, table: map<Id, V>) {
    && (forall i, j :: 0 <= i < j < |ids| ==> ids[i] != ids[j])
    && (forall id :: id in ids <==> id in table)
  }

  /** The lines an order bought: those of the quote it consumed. */
  function OrderLines(db: Db, o: Id): seq<Line> {
    if o in db.orders && db.orders[o].quoteId in db.quotes then db.quotes[db.orders[o].quoteId].lines else []
  }

  /** Units of one SKU bought by the listed orders. */
  function Sold(db: Db, ids: seq<Id>, sku: string): nat {
    if ids == [] then 0
    else Sold(db, ids[..|ids| - 1], sku) + Quantity(OrderLines(db, ids[|ids| - 1]), sku)
  }

  /** Conservation and no oversell. */
  ghost predicate StockOk(m: Market, db: Db) {
    && (forall sku :: Sum(db.deltas, sku) == 0 - Sold(db, db.orderIds, sku))
    && (forall n: nat :: m.base(n) + Sum(db.deltas, Sku.SkuId(n)) >= 0)
  }

  ghost predicate RowsOk(db: Db) {
    && ListsKeys(db.quoteIds, db.quotes)
    && ListsKeys(db.orderIds, db.orders)
    && DistinctKeys(db.deltas)
    && (forall i :: 0 <= i < |db.deltas| ==> db.deltas[i].orderId in db.orders && db.deltas[i].delta <= 0)
    && db.carts.Keys == db.cartLines.Keys
  }

  ghost predicate QuoteLinked(db: Db, q: Id)
    requires q in db.quotes
  {
    var quote := db.quotes[q];
    && (quote.status == Consumed <==> quote.order.Some?)
    && (quote.order.Some? ==> quote.order.value in db.orders && db.orders[quote.order.value].quoteId == q)
    && quote.cartId in db.carts
    && quote.owner == db.carts[quote.cartId].owner
    && quote.cartVersion <= db.carts[quote.cartId].version
  }

  ghost predicate OrderLinked(db: Db, o: Id)
    requires o in db.orders
  {
    var order := db.orders[o];
    && order.quoteId in db.quotes
    && db.quotes[order.quoteId].order == Some(o)
    && db.quotes[order.quoteId].owner == order.owner
    && db.quotes[order.quoteId].cartId in db.carts
    && db.carts[db.quotes[order.quoteId].cartId].ordered == Some(o)
    && order.total == Subtotal(db.quotes[order.quoteId].lines)
  }

  ghost predicate CartLinked(db: Db, c: Id)
    requires c in db.carts
  {
    var cart := db.carts[c];
    cart.ordered.Some? ==>
      && cart.ordered.value in db.orders
      && db.orders[cart.ordered.value].quoteId in db.quotes
      && var quote := db.quotes[db.orders[cart.ordered.value].quoteId];
         quote.cartId == c && cart.version == quote.cartVersion + 1 && StoredLines(db, c) == quote.lines
  }

  /** Orders, quotes and carts point at each other one to one. */
  ghost predicate LinksOk(db: Db) {
    && (forall q :: q in db.quotes ==> QuoteLinked(db, q))
    && (forall o :: o in db.orders ==> OrderLinked(db, o))
    && (forall c :: c in db.carts ==> CartLinked(db, c))
  }

  ghost predicate QuoteLines(quote: Quote) {
    && quote.lines != [] && AllCanonical(quote.lines) && DistinctSkus(quote.lines)
    && quote.total == Subtotal(quote.lines)
  }

  /** The quote was made for its cart's present version, and the cart is not ordered. */
  ghost predicate Current(db: Db, q: Id)
    requires q in db.quotes
  {
    var quote := db.quotes[q];
    && quote.cartId in db.carts
    && db.carts[quote.cartId].ordered.None?
    && db.carts[quote.cartId].version == quote.cartVersion
  }

  /** Line contents: canonical, summed, and a quote of an unchanged live cart equals it. */
  ghost predicate LinesOk(db: Db) {
    && (forall c :: c in db.carts ==>
          AllCanonical(StoredLines(db, c)) && db.carts[c].subtotal == Subtotal(StoredLines(db, c)))
    && (forall q :: q in db.quotes ==> QuoteLines(db.quotes[q]))
    && (forall q :: q in db.quotes && Current(db, q) ==> db.quotes[q].lines == StoredLines(db, db.quotes[q].cartId))
  }

  /** Purchase caps hold on every cart and quote. */
  ghost predicate CapsOk(m: Market, db: Db) {
    && (forall c :: c in db.carts ==> AllWithinCap(m, StoredLines(db, c)))
    && (forall q :: q in db.quotes ==> AllWithinCap(m, db.quotes[q].lines))
  }

  /** No quote outlives the configured lifetime from now. */
  ghost predicate Timed(m: Market, db: Db, clock: Time) {
    forall q :: q in db.quotes ==> db.quotes[q].expiresAt <= clock + QuoteLife(m)
  }

  ghost predicate SameOffer(p: Quote, q: Quote) {
    p.owner == q.owner && p.cartId == q.cartId && p.cartVersion == q.cartVersion && p.status == Open && q.status == Open
  }

  /** At most one open unexpired quote per owner, cart and version. */
  ghost predicate OneOffer(db: Db, clock: Time) {
    forall p, q :: p in db.quotes && q in db.quotes && p != q && SameOffer(db.quotes[p], db.quotes[q]) ==>
      db.quotes[p].expiresAt <= clock || db.quotes[q].expiresAt <= clock
  }

  ghost predicate PaymentAgrees(db: Db, p: Id)
    requires p in db.payments
  {
    var pay := db.payments[p];
    && pay.orderId in db.orders
    && pay.owner == db.orders[pay.orderId].owner
    && pay.total == db.orders[pay.orderId].total
    && pay.status == db.orders[pay.orderId].status
  }

  ghost predicate HasPayment(db: Db, o: Id) {
    exists p :: p in db.payments && db.payments[p].orderId == o
  }

  /** A payment mirrors its order; an order has at most one, and without one awaits payment. */
  ghost predicate PaymentsOk(db: Db) {
    && (forall p :: p in db.payments ==> PaymentAgrees(db, p))
    && (forall p, q :: p in db.payments && q in db.payments && p != q ==>
          db.payments[p].orderId != db.payments[q].orderId)
    && (forall o :: o in db.orders && !HasPayment(db, o) ==> db.orders[o].status == AwaitingPayment)
  }

  ghost predicate Inv(m: Market, db: Db, clock: Time) {
    && StockOk(m, db) && RowsOk(db) && LinksOk(db) && LinesOk(db) && OneOffer(db, clock) && PaymentsOk(db)
    && CapsOk(m, db) && Timed(m, db, clock)
  }

  lemma EmptyInv(m: Market, clock: Time)
    ensures Inv(m, EMPTY, clock)
  {
  }

  // --- sums over orders -------------------------------------------------------

  lemma {:induction false} SoldFrame(a: Db, b: Db, ids: seq<Id>, sku: string)
    requires forall i :: 0 <= i < |ids| ==> OrderLines(a, ids[i]) == OrderLines(b, ids[i])
    ensures Sold(a, ids, sku) == Sold(b, ids, sku)
  {
    if ids != [] {
      SoldFrame(a, b, ids[..|ids| - 1], sku);
    }
  }

  /** Stock facts survive any step that adds no rows and keeps what orders bought. */
  lemma StockFrame(m: Market, a: Db, b: Db)
    requires StockOk(m, a) && a.deltas == b.deltas && a.orderIds == b.orderIds
    requires forall i :: 0 <= i < |a.orderIds| ==> OrderLines(a, a.orderIds[i]) == OrderLines(b, a.orderIds[i])
    ensures StockOk(m, b)
  {
    forall sku ensures Sum(b.deltas, sku) == 0 - Sold(b, b.orderIds, sku) {
      SoldFrame(a, b, a.orderIds, sku);
    }
  }

  // --- update_cart_lines ---------------------------------------------------------

  /** A live cart gets new lines and a higher version, or a new cart appears. */
  ghost predicate Puts(db: Db, id: Id, cart: Cart, lines: seq<Line>) {
    && cart.ordered.None? && cart.subtotal == Subtotal(lines) && AllCanonical(lines)
    && (id in db.carts ==>
          db.carts[id].ordered.None? && cart.owner == db.carts[id].owner && cart.version > db.carts[id].version)
  }

  lemma PutCartLinks(db: Db, id: Id, cart: Cart, lines: seq<Line>)
    requires LinksOk(db) && Puts(db, id, cart, lines)
    ensures LinksOk(PutCart(db, id, cart, lines))
  {
    hide AllCanonical, Subtotal;
    var db' := PutCart(db, id, cart, lines);
    forall q | q in db'.quotes ensures QuoteLinked(db', q) {
      assert QuoteLinked(db, q);
    }
    forall o | o in db'.orders ensures OrderLinked(db', o) {
      assert OrderLinked(db, o);
    }
    forall c | c in db'.carts ensures CartLinked(db', c) {
      if c != id {
        assert CartLinked(db, c);
        assert StoredLines(db', c) == StoredLines(db, c);
      }
    }
  }

  lemma PutCartLines(db: Db, id: Id, cart: Cart, lines: seq<Line>)
    requires LinksOk(db) && LinesOk(db) && Puts(db, id, cart, lines)
    ensures LinesOk(PutCart(db, id, cart, lines))
  {
    hide AllCanonical, Subtotal, QuoteLines;
    var db' := PutCart(db, id, cart, lines);
    forall q | q in db'.quotes && Current(db', q)
      ensures db'.quotes[q].lines == StoredLines(db', db'.quotes[q].cartId)
    {
      assert QuoteLinked(db, q);
      assert Current(db, q);
    }
  }

  lemma SamePaymentTables(a: Db, b: Db)
    requires PaymentsOk(a) && a.payments == b.payments && a.orders == b.orders
    ensures PaymentsOk(b)
  {
    forall p | p in b.payments ensures PaymentAgrees(b, p) {
      assert PaymentAgrees(a, p);
    }
    assert forall o :: HasPayment(b, o) == HasPayment(a, o);
  }

  lemma PutCartKeeps(m: Market, db: Db, id: Id, cart: Cart, lines: seq<Line>, clock: Time)
    requires Inv(m, db, clock) && Puts(db, id, cart, lines) && AllWithinCap(m, lines)
    ensures Inv(m, PutCart(db, id, cart, lines), clock)
  {
    hide LinksOk, LinesOk, PaymentsOk, StockOk, Sum, Sold, AllWithinCap;
    var db' := PutCart(db, id, cart, lines);
    StockFrame(m, db, db');
    PutCartLinks(db, id, cart, lines);
    PutCartLines(db, id, cart, lines);
    SamePaymentTables(db, db');
    assert forall c :: c != id ==> StoredLines(db', c) == StoredLines(db, c);
  }

  lemma UpdateCartKeeps(m: Market, db: Db, owner: int, cartId: Option<Id>, expected: Option<int>,
                        sels: seq<Selection>, env: Env, clock: Time)
    requires Sku.Faithful(m.rules) && Inv(m, db, clock) && Fresh(db, env.uuid)
    requires UpdateCartWork(m, db, owner, cartId, expected, sels, env).Ok?
    ensures Inv(m, UpdateCartWork(m, db, owner, cartId, expected, sels, env).value.0, clock)
  {
    hide StockOk, RowsOk, LinksOk, OneOffer, PaymentsOk, CapsOk, Timed;
    hide Sku.SkuId, Sku.ParseSkuId, Sku.Faithful, ValidatedLines, Canonical, AllWithinCap;
    ValidatedCanonical(m, env.shelf, db.deltas, sels);
    ValidatedWithinCap(m, env.shelf, db.deltas, sels);
    var lines := ValidatedLines(m, env.shelf, db.deltas, sels).value;
    match cartId
    case None =>
      PutCartKeeps(m, db, "c_" + env.uuid, Cart(owner, 1, None, Subtotal(lines)), lines, clock);
    case Some(id) =>
      var cart := db.carts[id];
      PutCartKeeps(m, db, id, cart.(version := cart.version + 1, subtotal := Subtotal(lines)), lines, clock);
  }

  // --- prepare_checkout -------------------------------------------------------------

  lemma {:induction false} OpenQuoteFinds(quotes: map<Id, Quote>, ids: seq<Id>, owner: int, cartId: Id,
                                          version: int, now: Time)
    ensures match OpenQuote(quotes, ids, owner, cartId, version, now)
            case Some(id) => id in quotes && id in ids && Offers(quotes[id], owner, cartId, version, now)
            case None => forall id :: id in ids && id in quotes ==> !Offers(quotes[id], owner, cartId, version, now)
  {
    if ids != [] {
      var k := |ids| - 1;
      OpenQuoteFinds(quotes, ids[..k], owner, cartId, version, now);
      assert ids == ids[..k] + [ids[k]];
    }
  }

  /** A first open quote for the present version of a live cart. */
  ghost predicate Quotes(db: Db, id: Id, q: Quote, clock: Time) {
    && id !in db.quotes
    && q.status == Open && q.order.None? && QuoteLines(q)
    && q.cartId in db.carts
    && q.owner == db.carts[q.cartId].owner && q.cartVersion == db.carts[q.cartId].version
    && q.lines == StoredLines(db, q.cartId)
    && forall p :: p in db.quotes ==> !Offers(db.quotes[p], q.owner, q.cartId, q.cartVersion, clock)
  }

  lemma AddQuoteLinks(db: Db, id: Id, q: Quote, clock: Time)
    requires LinksOk(db) && Quotes(db, id, q, clock)
    ensures LinksOk(AddQuote(db, id, q))
  {
    hide QuoteLines, Subtotal;
    var db' := AddQuote(db, id, q);
    forall p | p in db'.quotes ensures QuoteLinked(db', p) {
      assert p != id ==> QuoteLinked(db, p);
    }
    forall o | o in db'.orders ensures OrderLinked(db', o) {
      assert OrderLinked(db, o);
    }
    forall c | c in db'.carts ensures CartLinked(db', c) {
      assert CartLinked(db, c);
      assert StoredLines(db', c) == StoredLines(db, c);
    }
  }

  lemma AddQuoteLines(db: Db, id: Id, q: Quote, clock: Time)
    requires LinesOk(db) && Quotes(db, id, q, clock)
    ensures LinesOk(AddQuote(db, id, q))
  {
    hide AllCanonical, Subtotal, QuoteLines;
    var db' := AddQuote(db, id, q);
    forall p | p in db'.quotes && Current(db', p)
      ensures db'.quotes[p].lines == StoredLines(db', db'.quotes[p].cartId)
    {
      assert p != id ==> Current(db, p);
    }
  }

  lemma AddQuoteStock(m: Market, db: Db, id: Id, q: Quote)
    requires StockOk(m, db) && RowsOk(db) && LinksOk(db) && id !in db.quotes
    ensures StockOk(m, AddQuote(db, id, q))
  {
    hide StockOk, DistinctKeys, Subtotal;
    var db' := AddQuote(db, id, q);
    forall i | 0 <= i < |db.orderIds|
      ensures OrderLines(db, db.orderIds[i]) == OrderLines(db', db.orderIds[i])
    {
      assert db.orderIds[i] in db.orderIds;
      assert OrderLinked(db, db.orderIds[i]);
    }
    StockFrame(m, db, db');
  }

  lemma AddQuoteRows(m: Market, db: Db, id: Id, q: Quote, clock: Time)
    requires RowsOk(db) && OneOffer(db, clock) && CapsOk(m, db) && Timed(m, db, clock) && Quotes(db, id, q, clock)
    requires AllWithinCap(m, q.lines) && q.expiresAt <= clock + QuoteLife(m)
    ensures var db' := AddQuote(db, id, q);
            RowsOk(db') && OneOffer(db', clock) && CapsOk(m, db') && Timed(m, db', clock)
  {
    hide QuoteLines, AllWithinCap, DistinctKeys;
    var db' := AddQuote(db, id, q);
    assert forall c :: StoredLines(db', c) == StoredLines(db, c);
    assert ListsKeys(db'.quoteIds, db'.quotes);
  }

  lemma AddQuoteKeeps(m: Market, db: Db, id: Id, q: Quote, clock: Time)
    requires Inv(m, db, clock) && Quotes(db, id, q, clock)
    requires AllWithinCap(m, q.lines) && q.expiresAt <= clock + QuoteLife(m)
    ensures Inv(m, AddQuote(db, id, q), clock)
  {
    hide StockOk, RowsOk, LinksOk, LinesOk, OneOffer, PaymentsOk, CapsOk, Timed, QuoteLines, AllWithinCap;
    AddQuoteStock(m, db, id, q);
    AddQuoteRows(m, db, id, q, clock);
    AddQuoteLinks(db, id, q, clock);
    AddQuoteLines(db, id, q, clock);
    SamePaymentTables(db, AddQuote(db, id, q));
  }

  /** A cart that passes `prepare_checkout`'s checks is offered exactly its own lines. */
  lemma CheckoutChecks(m: Market, db: Db, owner: int, cartId: Id, expected: int, env: Env)
    requires Sku.Faithful(m.rules) && LinesOk(db) && CapsOk(m, db) && RowsOk(db) && "q_" + env.uuid !in db.quotes
    requires cartId in db.carts && db.carts[cartId].owner == owner && db.carts[cartId].version == expected
    requires OpenQuote(db.quotes, db.quoteIds, owner, cartId, expected, env.now).None? && StoredLines(db, cartId) != []
    requires var r := ValidatedLines(m, env.shelf, db.deltas, Selections(StoredLines(db, cartId)));
             r.Ok? && SamePrices(StoredLines(db, cartId), r.value)
    ensures var lines := ValidatedLines(m, env.shelf, db.deltas, Selections(StoredLines(db, cartId))).value;
            && AllWithinCap(m, lines)
            && Quotes(db, "q_" + env.uuid, Quote(owner, cartId, expected, lines, Subtotal(lines),
                                                 env.now + QuoteLife(m), Open, None), env.now)
  {
    hide Sku.SkuId, Sku.ParseSkuId, Sku.Faithful, ValidatedLines, OpenQuote, InStock, Canonical, WithinCap;
    OpenQuoteFinds(db.quotes, db.quoteIds, owner, cartId, expected, env.now);
    Revalidated(m, env.shelf, db.deltas, StoredLines(db, cartId));
  }

  lemma PrepareCheckoutKeeps(m: Market, db: Db, owner: int, cartId: Id, expected: int, env: Env)
    requires Sku.Faithful(m.rules) && Inv(m, db, env.now) && Fresh(db, env.uuid)
    requires PrepareCheckoutWork(m, db, owner, cartId, expected, env).Ok?
    ensures Inv(m, PrepareCheckoutWork(m, db, owner, cartId, expected, env).value.0, env.now)
  {
    hide StockOk, RowsOk, LinksOk, LinesOk, OneOffer, PaymentsOk, CapsOk, Timed, Quotes, AllWithinCap;
    hide Sku.Faithful, ValidatedLines, OpenQuote, Subtotal, SamePrices, StoredLines;
    if OpenQuote(db.quotes, db.quoteIds, owner, cartId, expected, env.now).None? {
      CheckoutChecks(m, db, owner, cartId, expected, env);
      var lines := ValidatedLines(m, env.shelf, db.deltas, Selections(StoredLines(db, cartId))).value;
      AddQuoteKeeps(m, db, "q_" + env.uuid, Quote(owner, cartId, expected, lines, Subtotal(lines),
                                                  env.now + QuoteLife(m), Open, None), env.now);
    }
  }
}
