/** The commerce provider's database and the work of its five mutations
    (core.py and storage.py), as functions from one committed database to the next. */
module CommerceModel {
  import opened Wrappers
  import Sku

  type Id = string
  type Time = int  // microseconds

  datatype Error = NotFound | Rejected | Conflict | Unknown | Integrity

  // --- tables -------------------------------------------------------------

  datatype Selection = Selection(sku: string, quantity: nat)

  datatype Line = Line(sku: string, quantity: nat, unitPrice: nat)

  datatype Cart = Cart(owner: int, version: int, ordered: Option<Id>, subtotal: nat)

  datatype QuoteStatus = Open | Consumed

  datatype Quote = Quote(
    owner: int, cartId: Id, cartVersion: int, lines: seq<Line>, total: nat,
    expiresAt: Time, status: QuoteStatus, order: Option<Id>)

  datatype PayStatus = AwaitingPayment | Processing | Paid | Failed

  datatype Order = Order(owner: int, quoteId: Id, total: nat, status: PayStatus)

  datatype Payment = Payment(owner: int, orderId: Id, total: nat, status: PayStatus)

  datatype Delta = Delta(sku: string, orderId: Id, delta: int)

  datatype Op =
    | UpdateCartLines(cartId: Option<Id>, expected: Option<int>, selections: seq<Selection>)
    | PrepareCheckout(checkoutCart: Id, checkoutVersion: int)
    | CreateOrder(quoteId: Id)
    | CreatePayment(orderId: Id)
    | MockPay(paymentId: Id)

  datatype Reply =
    | CartReply(cartId: Id, version: int, lines: seq<Line>, subtotal: nat)
    | QuoteReply(quoteId: Id, cartId: Id, version: int, lines: seq<Line>, total: nat, expiresAt: Time)
    | OrderReply(orderId: Id, quoteId: Id, total: nat, status: PayStatus)
    | PaymentReply(paymentId: Id, orderId: Id, total: nat, status: PayStatus)

  /** A row of `operations`. The digest of kind and arguments is taken to be
      injective, so the operation itself stands for it. */
  datatype Receipt = Receipt(owner: int, op: Op, reply: Reply)

  /** `quoteIds` and `orderIds` list the keys in row order. */
  datatype Db = Db(
    carts: map<Id, Cart>,
    cartLines: map<Id, seq<Line>>,
    quotes: map<Id, Quote>,
    quoteIds: seq<Id>,
    orders: map<Id, Order>,
    orderIds: seq<Id>,
    payments: map<Id, Payment>,
    deltas: seq<Delta>,
    receipts: map<string, Receipt>)

  const EMPTY := Db(map[], map[], map[], [], map[], [], map[], [], map[])

  // --- what the catalog and the surroundings supply ------------------------

  /** The catalog as one transaction sees it: its size, and for each index the price
      of the described item (none where a style slot does not exist). */
  datatype Shelf = Shelf(total: nat, price: nat -> Option<nat>)

  /** Facts fixed for a whole run: an index's base availability and purchase cap are
      hashes of the index. */
  datatype Market = Market(rules: Sku.TextRules, base: nat -> nat, cap: nat -> nat, quoteTtl: nat)

  datatype Env = Env(shelf: Shelf, now: Time, uuid: string, processing: bool)

  datatype Call = Call(key: string, owner: int, op: Op)

  type Outcome = Result<(Db, Reply), Error>

  // --- stock ----------------------------------------------------------------

  /** `SELECT COALESCE(SUM(delta), 0) ... WHERE sku_id = ?` */
  function Sum(deltas: seq<Delta>, sku: string): int {
    if deltas == [] then 0
    else
      var d := deltas[|deltas| - 1];
      Sum(deltas[..|deltas| - 1], sku) + if d.sku == sku then d.delta else 0
  }

  function Quantity(lines: seq<Line>, sku: string): nat {
    if lines == [] then 0
    else
      var l := lines[|lines| - 1];
      Quantity(lines[..|lines| - 1], sku) + if l.sku == sku then l.quantity else 0
  }

  function Subtotal(lines: seq<Line>): nat {
    if lines == [] then 0
    else
      var l := lines[|lines| - 1];
      Subtotal(lines[..|lines| - 1]) + l.quantity * l.unitPrice
  }

  function Max0(x: int): nat { if x < 0 then 0 else x }

  /** One iteration of `_validated_lines`: the line, or why it is refused. */
  function ValidatedLine(m: Market, shelf: Shelf, deltas: seq<Delta>, earlier: seq<Selection>,
                         sel: Selection): Result<Line, Error>
  {
    match Sku.ParseSkuId(m.rules, shelf.total, sel.sku)
    case None => Err(NotFound)
    case Some(n) =>
      if exists i :: 0 <= i < |earlier| && earlier[i].sku == sel.sku then Err(Rejected)
      else
        match shelf.price(n)
        case None => Err(Rejected)
        case Some(price) =>
          if sel.quantity > m.cap(n) then Err(Rejected)
          else if sel.quantity > Max0(m.base(n) + Sum(deltas, sel.sku)) then Err(Rejected)
          else Ok(Line(Sku.SkuId(n), sel.quantity, price))
  }

  function ValidatedLines(m: Market, shelf: Shelf, deltas: seq<Delta>, sels: seq<Selection>)
    : (r: Result<seq<Line>, Error>)
    ensures r.Ok? ==> |r.value| == |sels|
  {
    if sels == [] then Ok([])
    else
      var k := |sels| - 1;
      match ValidatedLines(m, shelf, deltas, sels[..k])
      case Err(e) => Err(e)
      case Ok(lines) =>
        match ValidatedLine(m, shelf, deltas, sels[..k], sels[k])
        case Err(e) => Err(e)
        case Ok(line) => Ok(lines + [line])
  }

  function Selections(lines: seq<Line>): (r: seq<Selection>)
    ensures |r| == |lines|
  {
    seq(|lines|, i requires 0 <= i < |lines| => Selection(lines[i].sku, lines[i].quantity))
  }

  predicate SamePrices(stored: seq<Line>, current: seq<Line>) {
    && |stored| == |current|
    && forall i :: 0 <= i < |stored| ==> stored[i].unitPrice == current[i].unitPrice
  }

  // --- the work of each mutation ---------------------------------------------

  function FetchCart(db: Db, owner: int, cartId: Id): Result<Cart, Error> {
    if cartId in db.carts && db.carts[cartId].owner == owner then Ok(db.carts[cartId])
    else Err(NotFound)
  }

  function StoredLines(db: Db, cartId: Id): seq<Line> {
    if cartId in db.cartLines then db.cartLines[cartId] else []
  }

  function PutCart(db: Db, id: Id, cart: Cart, lines: seq<Line>): Db {
    db.(carts := db.carts[id := cart], cartLines := db.cartLines[id := lines])
  }

  function UpdateCartWork(m: Market, db: Db, owner: int, cartId: Option<Id>, expected: Option<int>,
                          sels: seq<Selection>, env: Env): Outcome
  {
    match ValidatedLines(m, env.shelf, db.deltas, sels)
    case Err(e) => Err(e)
    case Ok(lines) =>
      match cartId
      case None =>
        if expected.Some? then Err(Rejected)
        else
          var id := "c_" + env.uuid;
          if id in db.carts then Err(Integrity)
          else Ok((PutCart(db, id, Cart(owner, 1, None, Subtotal(lines)), lines),
                   CartReply(id, 1, lines, Subtotal(lines))))
      case Some(id) =>
        match FetchCart(db, owner, id)
        case Err(e) => Err(e)
        case Ok(cart) =>
          if cart.ordered.Some? then Err(Rejected)
          else if expected != Some(cart.version) then Err(Rejected)
          else
            Ok((PutCart(db, id, cart.(version := cart.version + 1, subtotal := Subtotal(lines)), lines),
                CartReply(id, cart.version + 1, lines, Subtotal(lines))))
  }

  predicate Offers(q: Quote, owner: int, cartId: Id, version: int, now: Time) {
    q.cartId == cartId && q.cartVersion == version && q.owner == owner && q.status == Open && q.expiresAt > now
  }

  /** `SELECT ... FROM quotes WHERE ... AND status = 'open' AND expires_at > ?`, `fetchone()`. */
  function OpenQuote(quotes: map<Id, Quote>, ids: seq<Id>, owner: int, cartId: Id, version: int, now: Time)
    : Option<Id>
  {
    if ids == [] then None
    else
      var k := |ids| - 1;
      var first := OpenQuote(quotes, ids[..k], owner, cartId, version, now);
      if first.Some? then first
      else if ids[k] in quotes && Offers(quotes[ids[k]], owner, cartId, version, now) then Some(ids[k])
      else None
  }

  function QuoteReplyOf(id: Id, q: Quote): Reply {
    QuoteReply(id, q.cartId, q.cartVersion, q.lines, q.total, q.expiresAt)
  }

  function AddQuote(db: Db, id: Id, q: Quote): Db {
    db.(quotes := db.quotes[id := q], quoteIds := db.quoteIds + [id])
  }

  function PrepareCheckoutWork(m: Market, db: Db, owner: int, cartId: Id, expected: int, env: Env): Outcome {
    match FetchCart(db, owner, cartId)
    case Err(e) => Err(e)
    case Ok(cart) =>
      var stored := StoredLines(db, cartId);
      if cart.ordered.Some? || cart.version != expected || stored == [] then Err(Rejected)
      else
        match ValidatedLines(m, env.shelf, db.deltas, Selections(stored))
        case Err(e) => Err(e)
        case Ok(lines) =>
          if !SamePrices(stored, lines) then Err(Rejected)
          else
            match OpenQuote(db.quotes, db.quoteIds, owner, cartId, expected, env.now)
            case Some(id) =>
              if id in db.quotes then Ok((db, QuoteReplyOf(id, db.quotes[id]))) else Err(Integrity)
            case None =>
              var id := "q_" + env.uuid;
              var q := Quote(owner, cartId, expected, lines, Subtotal(lines),
                             env.now + QuoteLife(m), Open, None);
              if id in db.quotes then Err(Integrity)
              else Ok((AddQuote(db, id, q), QuoteReplyOf(id, q)))
  }

  function StockRows(lines: seq<Line>, orderId: Id): seq<Delta> {
    seq(|lines|, i requires 0 <= i < |lines| => Delta(lines[i].sku, orderId, 0 - lines[i].quantity))
  }

  /** The primary key (sku_id, order_id) of `stock_deltas`. */
  predicate DistinctKeys(deltas: seq<Delta>) {
    forall i, j :: 0 <= i < j < |deltas| ==>
      deltas[i].sku != deltas[j].sku || deltas[i].orderId != deltas[j].orderId
  }

  /** The writes of `create_order`: the order, the consumed quote, the closed cart, the stock rows. */
  function PlaceOrder(db: Db, quoteId: Id, id: Id, lines: seq<Line>): Db
    requires quoteId in db.quotes && db.quotes[quoteId].cartId in db.carts
  {
    var q := db.quotes[quoteId];
    var cart := db.carts[q.cartId];
    db.(orders := db.orders[id := Order(q.owner, quoteId, q.total, AwaitingPayment)],
        orderIds := db.orderIds + [id],
        quotes := db.quotes[quoteId := q.(status := Consumed, order := Some(id))],
        carts := db.carts[q.cartId := cart.(ordered := Some(id), version := cart.version + 1)],
        deltas := db.deltas + StockRows(lines, id))
  }

  function QuoteLife(m: Market): nat { 1_000_000 * m.quoteTtl }

  function CreateOrderWork(m: Market, db: Db, owner: int, quoteId: Id, env: Env): Outcome {
    if quoteId !in db.quotes || db.quotes[quoteId].owner != owner then Err(NotFound)
    else
      var q := db.quotes[quoteId];
      if q.status != Open || q.expiresAt <= env.now then Err(Rejected)
      else
        match FetchCart(db, owner, q.cartId)
        case Err(e) => Err(e)
        case Ok(cart) =>
          if cart.version != q.cartVersion || cart.ordered.Some? then Err(Rejected)
          else
            match ValidatedLines(m, env.shelf, db.deltas, Selections(q.lines))
            case Err(e) => Err(e)
            case Ok(lines) =>
              var id := "o_" + env.uuid;
              if !SamePrices(q.lines, lines) then Err(Rejected)
              else if id in db.orders then Err(Integrity)
              else
                if !DistinctKeys(db.deltas + StockRows(lines, id)) then Err(Integrity)
                else Ok((PlaceOrder(db, quoteId, id, lines), OrderReply(id, quoteId, q.total, AwaitingPayment)))
  }

  function AddPayment(db: Db, id: Id, payment: Payment): Db {
    db.(payments := db.payments[id := payment])
  }

  function CreatePaymentWork(db: Db, owner: int, orderId: Id, env: Env): Outcome {
    if orderId !in db.orders || db.orders[orderId].owner != owner then Err(NotFound)
    else if db.orders[orderId].status != AwaitingPayment then Err(Rejected)
    else if exists p :: p in db.payments && db.payments[p].orderId == orderId then Err(Rejected)
    else
      var id := "pay_" + env.uuid;
      var total := db.orders[orderId].total;
      if id in db.payments then Err(Integrity)
      else Ok((AddPayment(db, id, Payment(owner, orderId, total, AwaitingPayment)),
               PaymentReply(id, orderId, total, AwaitingPayment)))
  }

  /** The two UPDATE statements of `mock_pay` and `settle_payment`. */
  function SetStatus(db: Db, paymentId: Id, status: PayStatus): Db
    requires paymentId in db.payments
  {
    var p := db.payments[paymentId];
    db.(payments := db.payments[paymentId := p.(status := status)],
        orders := if p.orderId in db.orders
                  then db.orders[p.orderId := db.orders[p.orderId].(status := status)] else db.orders)
  }

  function MockPayWork(db: Db, owner: int, paymentId: Id, env: Env): Outcome {
    if paymentId !in db.payments || db.payments[paymentId].owner != owner then Err(NotFound)
    else
      var p := db.payments[paymentId];
      if p.status == Processing || p.status == Failed then Err(Rejected)
      else
        var status := if env.processing then Processing else Paid;
        Ok((SetStatus(db, paymentId, status), PaymentReply(paymentId, p.orderId, p.total, status)))
  }

  /** `settle_payment` writes without a receipt. */
  function SettleWork(db: Db, owner: int, paymentId: Id, paid: bool): Outcome {
    if paymentId !in db.payments || db.payments[paymentId].owner != owner then Err(NotFound)
    else
      var p := db.payments[paymentId];
      if p.status != Processing then Err(Rejected)
      else
        var status := if paid then Paid else Failed;
        Ok((SetStatus(db, paymentId, status), PaymentReply(paymentId, p.orderId, p.total, status)))
  }

  function Work(m: Market, db: Db, call: Call, env: Env): Outcome {
    match call.op
    case UpdateCartLines(cartId, expected, sels) => UpdateCartWork(m, db, call.owner, cartId, expected, sels, env)
    case PrepareCheckout(cartId, expected) => PrepareCheckoutWork(m, db, call.owner, cartId, expected, env)
    case CreateOrder(quoteId) => CreateOrderWork(m, db, call.owner, quoteId, env)
    case CreatePayment(orderId) => CreatePaymentWork(db, call.owner, orderId, env)
    case MockPay(paymentId) => MockPayWork(db, call.owner, paymentId, env)
  }

  /** `_replay_or_conflict`. */
  function Replay(receipt: Receipt, call: Call): Result<Reply, Error> {
    if receipt.owner == call.owner && receipt.op == call.op then Ok(receipt.reply) else Err(Conflict)
  }

  /** One write transaction of `_mutate`: re-check the receipt, run the work,
      insert the receipt. An error rolls everything back. */
  function Transaction(m: Market, db: Db, call: Call, env: Env): Outcome {
    if call.key in db.receipts then
      match Replay(db.receipts[call.key], call)
      case Err(e) => Err(e)
      case Ok(reply) => Ok((db, reply))
    else
      match Work(m, db, call, env)
      case Err(e) => Err(e)
      case Ok((db', reply)) =>
        if call.key in db'.receipts then Err(Integrity)
        else Ok((db'.(receipts := db'.receipts[call.key := Receipt(call.owner, call.op, reply)]), reply))
  }

  /** uuid4 never repeats: none of the ids it could give is in use. */
  ghost predicate Fresh(db: Db, uuid: string) {
    && "c_" + uuid !in db.carts
    && "q_" + uuid !in db.quotes
    && "o_" + uuid !in db.orders
    && "pay_" + uuid !in db.payments
  }
}
