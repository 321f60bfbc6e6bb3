/** The provider's database updated in place, statement by statement, as the work
    closures of core.py do inside one `_run_write` (storage.py). Each method is
    tied to the function of CommerceModel that the run theorems are about; row
    counts and duplicate keys are checked where the source checks them. */
module CommerceStore {
  import opened Wrappers
  import opened CommerceModel
  import Sku

  class ProviderDatabase {
    const market: Market
    var carts: map<Id, Cart>
    var cartLines: map<Id, seq<Line>>
    var quotes: map<Id, Quote>
    var quoteIds: seq<Id>
    var orders: map<Id, Order>
    var orderIds: seq<Id>
    var payments: map<Id, Payment>
    var deltas: seq<Delta>
    var receipts: map<string, Receipt>

    function Snapshot(): Db
      reads this
    {
      Db(carts, cartLines, quotes, quoteIds, orders, orderIds, payments, deltas, receipts)
    }

    constructor (market: Market)
      ensures Snapshot() == EMPTY && this.market == market
    {
      this.market := market;
      carts, cartLines, quotes, quoteIds := map[], map[], map[], [];
      orders, orderIds, payments, deltas, receipts := map[], [], map[], [], map[];
    }

    /** `_fetch_receipt` */
    method FetchReceipt(key: string) returns (found: Option<Receipt>)
      ensures found == if key in receipts then Some(receipts[key]) else None
    {
      return if key in receipts then Some(receipts[key]) else None;
    }

    /** `COALESCE(SUM(delta), 0)` over the rows of one SKU text. */
    method StockDelta(sku: string) returns (total: int)
      ensures total == Sum(deltas, sku)
    {
      total := 0;
      for i := 0 to |deltas|
        invariant total == Sum(deltas[..i], sku)
      {
        assert deltas[..i + 1][..i] == deltas[..i];
        if deltas[i].sku == sku {
          total := total + deltas[i].delta;
        }
      }
      assert deltas[..|deltas|] == deltas;
    }

    /** `_validated_lines` */
    method ValidateLines(shelf: Shelf, sels: seq<Selection>) returns (r: Result<seq<Line>, Error>)
      ensures r == ValidatedLines(market, shelf, deltas, sels)
    {
      hide Sku.ParseSkuId, Sku.SkuId, Sum, ValidatedLines, ValidatedLine;
      var validated: seq<Line> := [];
      assert sels[..0] == [];
      NothingValidated(shelf);
      var seen: set<string> := {};
      for i := 0 to |sels|
        invariant ValidatedLines(market, shelf, deltas, sels[..i]) == Ok(validated)
        invariant forall t :: t in seen <==> exists j :: 0 <= j < i && sels[j].sku == t
      {
        var sel := sels[i];
        NextLine(shelf, sels, i, validated);
        LineOf(shelf, sels, i, seen);
        var n := Sku.ParseSkuId(market.rules, shelf.total, sel.sku);
        var delta := StockDelta(sel.sku);
        if n.None? {
          ErrorSticks(shelf, sels, i + 1);
          return Err(NotFound);
        }
        if sel.sku in seen {
          ErrorSticks(shelf, sels, i + 1);
          return Err(Rejected);
        }
        seen := seen + {sel.sku};
        var price := shelf.price(n.value);
        if price.None? || sel.quantity > market.cap(n.value)
           || sel.quantity > Max0(market.base(n.value) + delta)
        {
          ErrorSticks(shelf, sels, i + 1);
          return Err(Rejected);
        }
        validated := validated + [Line(Sku.SkuId(n.value), sel.quantity, price.value)];
      }
      assert sels[..|sels|] == sels;
      return Ok(validated);
    }

    lemma NothingValidated(shelf: Shelf)
      ensures ValidatedLines(market, shelf, deltas, []) == Ok([])
    {
    }

    lemma NextLine(shelf: Shelf, sels: seq<Selection>, i: nat, validated: seq<Line>)
      requires i < |sels| && ValidatedLines(market, shelf, deltas, sels[..i]) == Ok(validated)
      ensures ValidatedLines(market, shelf, deltas, sels[..i + 1]) ==
              match ValidatedLine(market, shelf, deltas, sels[..i], sels[i])
              case Err(e) => Err(e)
              case Ok(line) => Ok(validated + [line])
    {
      hide ValidatedLine;
      assert sels[..i + 1][..i] == sels[..i];
    }

    lemma LineOf(shelf: Shelf, sels: seq<Selection>, i: nat, seen: set<string>)
      requires i < |sels| && forall t :: t in seen <==> exists j :: 0 <= j < i && sels[j].sku == t
      ensures ValidatedLine(market, shelf, deltas, sels[..i], sels[i]) ==
              var sel := sels[i];
              match Sku.ParseSkuId(market.rules, shelf.total, sel.sku)
              case None => Err(NotFound)
              case Some(n) =>
                if sel.sku in seen || shelf.price(n).None? || sel.quantity > market.cap(n)
                   || sel.quantity > Max0(market.base(n) + Sum(deltas, sel.sku))
                then Err(Rejected) else Ok(Line(Sku.SkuId(n), sel.quantity, shelf.price(n).value))
    {
      hide Sku.ParseSkuId, Sku.SkuId, Sum;
      assert forall j :: 0 <= j < i ==> sels[..i][j] == sels[j];
    }

    lemma {:induction false} ErrorSticks(shelf: Shelf, sels: seq<Selection>, k: nat)
      requires k <= |sels| && ValidatedLines(market, shelf, deltas, sels[..k]).Err?
      ensures ValidatedLines(market, shelf, deltas, sels) == ValidatedLines(market, shelf, deltas, sels[..k])
      decreases |sels|
    {
      if k == |sels| {
        assert sels[..k] == sels;
      } else {
        assert sels[..|sels| - 1][..k] == sels[..k];
        ErrorSticks(shelf, sels[..|sels| - 1], k);
      }
    }

    method SubtotalOf(lines: seq<Line>) returns (total: nat)
      ensures total == Subtotal(lines)
    {
      total := 0;
      for i := 0 to |lines|
        invariant total == Subtotal(lines[..i])
      {
        assert lines[..i + 1][..i] == lines[..i];
        total := total + lines[i].quantity * lines[i].unitPrice;
      }
      assert lines[..|lines|] == lines;
    }

    /** The first open, unexpired quote in row order. */
    method FindOpenQuote(owner: int, cartId: Id, version: int, now: Time) returns (r: Option<Id>)
      ensures r == OpenQuote(quotes, quoteIds, owner, cartId, version, now)
    {
      r := None;
      for i := 0 to |quoteIds|
        invariant r == OpenQuote(quotes, quoteIds[..i], owner, cartId, version, now)
      {
        assert quoteIds[..i + 1][..i] == quoteIds[..i];
        if r.None? && quoteIds[i] in quotes && Offers(quotes[quoteIds[i]], owner, cartId, version, now) {
          r := Some(quoteIds[i]);
        }
      }
      assert quoteIds[..|quoteIds|] == quoteIds;
    }

    method WriteCart(owner: int, cartId: Option<Id>, expected: Option<int>, sels: seq<Selection>, env: Env)
      returns (r: Result<Reply, Error>)
      modifies this
      ensures Matches(old(Snapshot()), Snapshot(), r,
                      UpdateCartWork(market, old(Snapshot()), owner, cartId, expected, sels, env))
    {
      hide ValidatedLines, Subtotal;
      var v := ValidateLines(env.shelf, sels);
      if v.Err? { return Err(v.error); }
      var lines := v.value;
      var subtotal := SubtotalOf(lines);
      var id; var version;
      if cartId.None? {
        if expected.Some? { return Err(Rejected); }
        id, version := "c_" + env.uuid, 1;
        if id in carts { return Err(Integrity); }
        carts := carts[id := Cart(owner, 1, None, subtotal)];
      } else {
        id := cartId.value;
        if id !in carts || carts[id].owner != owner { return Err(NotFound); }
        var row := carts[id];
        if row.ordered.Some? { return Err(Rejected); }
        if expected.None? || row.version != expected.value { return Err(Rejected); }
        version := expected.value + 1;
        var changed := 0;
        if id in carts && carts[id].version == expected.value {
          carts := carts[id := carts[id].(version := version, subtotal := subtotal)];
          changed := 1;
        }
        if changed != 1 { return Err(Rejected); }
      }
      cartLines := cartLines[id := []];
      cartLines := cartLines[id := cartLines[id] + lines];
      assert [] + lines == lines;
      assert cartLines == old(cartLines)[id := lines];
      return Ok(CartReply(id, version, lines, subtotal));
    }

    method WriteQuote(owner: int, cartId: Id, expected: int, env: Env) returns (r: Result<Reply, Error>)
      modifies this
      ensures Matches(old(Snapshot()), Snapshot(), r,
                      PrepareCheckoutWork(market, old(Snapshot()), owner, cartId, expected, env))
    {
      hide ValidatedLines, Subtotal, OpenQuote;
      if cartId !in carts || carts[cartId].owner != owner { return Err(NotFound); }
      var row := carts[cartId];
      if row.ordered.Some? { return Err(Rejected); }
      if row.version != expected { return Err(Rejected); }
      var stored := if cartId in cartLines then cartLines[cartId] else [];
      if stored == [] { return Err(Rejected); }
      var v := ValidateLines(env.shelf, Selections(stored));
      if v.Err? { return Err(v.error); }
      var lines := v.value;
      var same := PricesMatch(stored, lines);
      if !same { return Err(Rejected); }
      var open := FindOpenQuote(owner, cartId, expected, env.now);
      if open.Some? {
        if open.value !in quotes { return Err(Integrity); }
        return Ok(QuoteReplyOf(open.value, quotes[open.value]));
      }
      var subtotal := SubtotalOf(lines);
      var id := "q_" + env.uuid;
      var quote := Quote(owner, cartId, expected, lines, subtotal, env.now + QuoteLife(market), Open, None);
      if id in quotes { return Err(Integrity); }
      quotes, quoteIds := quotes[id := quote], quoteIds + [id];
      return Ok(QuoteReplyOf(id, quote));
    }

    method PricesMatch(stored: seq<Line>, current: seq<Line>) returns (same: bool)
      requires |stored| == |current|
      ensures same == SamePrices(stored, current)
    {
      for i := 0 to |stored|
        invariant forall j :: 0 <= j < i ==> stored[j].unitPrice == current[j].unitPrice
      {
        if stored[i].unitPrice != current[i].unitPrice { return false; }
      }
      return true;
    }

    /** `executemany` of the stock rows; it stops at a duplicate key. */
    method InsertStockRows(lines: seq<Line>, orderId: Id) returns (ok: bool)
      requires DistinctKeys(deltas)
      modifies this`deltas
      ensures ok == DistinctKeys(old(deltas) + StockRows(lines, orderId))
      ensures ok ==> deltas == old(deltas) + StockRows(lines, orderId)
    {
      var rows := StockRows(lines, orderId);
      assert deltas + rows[..0] == deltas;
      for i := 0 to |rows|
        invariant deltas == old(deltas) + rows[..i] && DistinctKeys(deltas)
      {
        ghost var all := old(deltas) + rows;
        assert all[|deltas|] == rows[i];
        for j := 0 to |deltas|
          invariant forall k :: 0 <= k < j ==> deltas[k].sku != rows[i].sku || deltas[k].orderId != rows[i].orderId
        {
          if deltas[j].sku == rows[i].sku && deltas[j].orderId == rows[i].orderId {
            assert all[j] == deltas[j];
            return false;
          }
        }
        deltas := deltas + [rows[i]];
        assert rows[..i + 1] == rows[..i] + [rows[i]];
      }
      assert rows[..|rows|] == rows;
      return true;
    }

    method WriteOrder(owner: int, quoteId: Id, env: Env) returns (r: Result<Reply, Error>)
      requires DistinctKeys(deltas)
      modifies this
      ensures Matches(old(Snapshot()), Snapshot(), r,
                      CreateOrderWork(market, old(Snapshot()), owner, quoteId, env))
    {
      hide ValidatedLines, DistinctKeys, StockRows, SamePrices, Selections;
      if quoteId !in quotes || quotes[quoteId].owner != owner { return Err(NotFound); }
      var quote := quotes[quoteId];
      if quote.status != Open { return Err(Rejected); }
      if quote.expiresAt <= env.now { return Err(Rejected); }
      if quote.cartId !in carts || carts[quote.cartId].owner != owner { return Err(NotFound); }
      if carts[quote.cartId].version != quote.cartVersion || carts[quote.cartId].ordered.Some? { return Err(Rejected); }
      var v := ValidateLines(env.shelf, Selections(quote.lines));
      if v.Err? { return Err(v.error); }
      var lines := v.value;
      var same := PricesMatch(quote.lines, lines);
      if !same { return Err(Rejected); }
      var id := "o_" + env.uuid;
      if id in orders { return Err(Integrity); }
      r := PlaceRows(quoteId, id, lines);
    }

    /** The statements of an order whose quote and cart were just read: the row, the two
        guarded updates, the stock rows. */
    method PlaceRows(quoteId: Id, id: Id, lines: seq<Line>) returns (r: Result<Reply, Error>)
      requires quoteId in quotes && quotes[quoteId].cartId in carts && DistinctKeys(deltas)
      requires var quote := quotes[quoteId];
               var cart := carts[quote.cartId];
               quote.status == Open && cart.version == quote.cartVersion && cart.ordered.None?
      modifies this
      ensures if DistinctKeys(old(deltas) + StockRows(lines, id)) then
                && r == Ok(OrderReply(id, quoteId, old(quotes[quoteId]).total, AwaitingPayment))
                && Snapshot() == PlaceOrder(old(Snapshot()), quoteId, id, lines)
              else r == Err(Integrity)
    {
      hide DistinctKeys, StockRows;
      var quote := quotes[quoteId];
      orders, orderIds := orders[id := Order(quote.owner, quoteId, quote.total, AwaitingPayment)], orderIds + [id];
      var consumed := 0;
      if quotes[quoteId].status == Open {
        quotes := quotes[quoteId := quotes[quoteId].(status := Consumed, order := Some(id))];
        consumed := 1;
      }
      if consumed != 1 { return Err(Rejected); }
      var ordered := 0;
      var cart := carts[quote.cartId];
      if cart.version == quote.cartVersion && cart.ordered.None? {
        carts := carts[quote.cartId := cart.(ordered := Some(id), version := cart.version + 1)];
        ordered := 1;
      }
      if ordered != 1 { return Err(Rejected); }
      var ok := InsertStockRows(lines, id);
      if !ok { return Err(Integrity); }
      return Ok(OrderReply(id, quoteId, quote.total, AwaitingPayment));
    }

    method WritePayment(owner: int, orderId: Id, env: Env) returns (r: Result<Reply, Error>)
      modifies this
      ensures Matches(old(Snapshot()), Snapshot(), r, CreatePaymentWork(old(Snapshot()), owner, orderId, env))
    {
      if orderId !in orders || orders[orderId].owner != owner { return Err(NotFound); }
      if orders[orderId].status != AwaitingPayment { return Err(Rejected); }
      if exists p :: p in payments && payments[p].orderId == orderId { return Err(Rejected); }
      var id := "pay_" + env.uuid;
      if id in payments { return Err(Integrity); }
      payments := payments[id := Payment(owner, orderId, orders[orderId].total, AwaitingPayment)];
      return Ok(PaymentReply(id, orderId, orders[orderId].total, AwaitingPayment));
    }

    /** The two UPDATEs shared by `mock_pay` and `settle_payment`. */
    method UpdateStatus(paymentId: Id, status: PayStatus)
      requires paymentId in payments
      modifies this`payments, this`orders
      ensures Snapshot() == SetStatus(old(Snapshot()), paymentId, status)
    {
      var orderId := payments[paymentId].orderId;
      payments := payments[paymentId := payments[paymentId].(status := status)];
      if orderId in orders {
        orders := orders[orderId := orders[orderId].(status := status)];
      }
    }

    method Pay(owner: int, paymentId: Id, env: Env) returns (r: Result<Reply, Error>)
      modifies this
      ensures Matches(old(Snapshot()), Snapshot(), r, MockPayWork(old(Snapshot()), owner, paymentId, env))
    {
      if paymentId !in payments || payments[paymentId].owner != owner { return Err(NotFound); }
      var row := payments[paymentId];
      if row.status == Processing || row.status == Failed { return Err(Rejected); }
      var status := if env.processing then Processing else Paid;
      UpdateStatus(paymentId, status);
      return Ok(PaymentReply(paymentId, row.orderId, row.total, status));
    }

    /** `settle_payment` runs in its own write transaction, without a receipt. */
    method Settle(owner: int, paymentId: Id, paid: bool) returns (r: Result<Reply, Error>)
      modifies this
      ensures Matches(old(Snapshot()), Snapshot(), r, SettleWork(old(Snapshot()), owner, paymentId, paid))
      ensures r.Err? ==> Snapshot() == old(Snapshot())
    {
      if paymentId !in payments || payments[paymentId].owner != owner { return Err(NotFound); }
      var row := payments[paymentId];
      if row.status != Processing { return Err(Rejected); }
      var status := if paid then Paid else Failed;
      UpdateStatus(paymentId, status);
      return Ok(PaymentReply(paymentId, row.orderId, row.total, status));
    }

    method DoWork(call: Call, env: Env) returns (r: Result<Reply, Error>)
      requires DistinctKeys(deltas)
      modifies this
      ensures Matches(old(Snapshot()), Snapshot(), r, Work(market, old(Snapshot()), call, env))
    {
      hide UpdateCartWork, PrepareCheckoutWork, CreateOrderWork, CreatePaymentWork, MockPayWork, DistinctKeys;
      match call.op
      case UpdateCartLines(cartId, expected, sels) => r := WriteCart(call.owner, cartId, expected, sels, env);
      case PrepareCheckout(cartId, expected) => r := WriteQuote(call.owner, cartId, expected, env);
      case CreateOrder(quoteId) => r := WriteOrder(call.owner, quoteId, env);
      case CreatePayment(orderId) => r := WritePayment(call.owner, orderId, env);
      case MockPay(paymentId) => r := Pay(call.owner, paymentId, env);
    }

    /** ROLLBACK to the state at BEGIN IMMEDIATE. */
    method Rollback(saved: Db)
      modifies this
      ensures Snapshot() == saved
    {
      carts, cartLines, quotes, quoteIds := saved.carts, saved.cartLines, saved.quotes, saved.quoteIds;
      orders, orderIds, payments, deltas, receipts :=
        saved.orders, saved.orderIds, saved.payments, saved.deltas, saved.receipts;
    }

    /** `database.write(transaction)`: all of the work and its receipt, or nothing. */
    method RunWrite(call: Call, env: Env) returns (r: Result<Reply, Error>)
      requires DistinctKeys(deltas)
      modifies this
      ensures match Transaction(market, old(Snapshot()), call, env)
              case Ok((db, reply)) => r == Ok(reply) && Snapshot() == db
              case Err(e) => r == Err(e) && Snapshot() == old(Snapshot())
    {
      hide Work, DistinctKeys;
      var saved := Snapshot();
      if call.key in receipts {
        r := Replay(receipts[call.key], call);
        return;
      }
      r := DoWork(call, env);
      if r.Ok? && call.key in receipts {
        r := Err(Integrity);
      }
      if r.Err? {
        Rollback(saved);
        return;
      }
      receipts := receipts[call.key := Receipt(call.owner, call.op, r.value)];
    }
  }

  /** A work closure ended as its function says; after an error the tables may be
      half written, until the caller rolls back. */
  ghost predicate Matches(before: Db, after: Db, r: Result<Reply, Error>, spec: Outcome) {
    match spec
    case Ok((db, reply)) => r == Ok(reply) && after == db
    case Err(e) => r == Err(e)
  }
}
