/** A run that ends with a stale cache: a cart, a checkout, and an order between a
    search's read and its store. It needs one SKU on sale, and nothing to fail. */
module CommerceExample {
  import opened Wrappers
  import opened CommerceModel
  import opened CommerceStock
  import opened CommerceInvariant
  import opened CommerceProtocol
  import opened CommerceRuns
  import opened CommerceTheorems
  import opened CommerceHistory
  import opened CommerceCache
  import Sku

  lemma {:induction false} RunConcat(m: Market, s: System, a: seq<Label>, b: seq<Label>)
    ensures Run(m, s, a + b) == Run(m, Run(m, s, a), b)
  {
    hide Step;
    if b == [] {
      assert a + b == a;
    } else {
      assert (a + b)[..|a + b| - 1] == a + b[..|b| - 1];
      RunConcat(m, s, a, b[..|b| - 1]);
    }
  }

  lemma RunOne(m: Market, s: System, l: Label)
    ensures Run(m, s, [l]) == Step(m, s, l)
  {
    hide Step;
    assert [l][..0] == [];
  }

  /** No call is under way, nothing is cached or being read, no fault is planned. */
  ghost predicate Calm(s: System, clock: Time) {
    s.calls == map[] && s.cache == None && s.pending == map[] && s.rules == [] && s.clock == clock
  }

  function UpToWrite(id: nat, call: Call): seq<Label> { [Begin(id, call), ReadReceipt(id), TakePreFault(id, false)] }

  /** A new call with an unused key comes to its write. */
  lemma ReachesWrite(m: Market, s: System, id: nat, call: Call, clock: Time)
    requires Calm(s, clock) && id !in s.used && Admissible(call) && call.key !in s.db.receipts
    ensures Run(m, s, UpToWrite(id, call))
            == s.(calls := map[id := Running(call, Writing(false))], used := s.used + {id})
  {
    hide Admissible, Run, Consume;
    var ls := UpToWrite(id, call);
    RunConcat(m, s, [ls[0]], [ls[1]]);
    RunConcat(m, s, [ls[0], ls[1]], [ls[2]]);
    assert [ls[0]] + [ls[1]] == [ls[0], ls[1]] && [ls[0], ls[1]] + [ls[2]] == ls;
    RunOne(m, s, ls[0]);
    var s1 := s.(calls := map[id := Running(call, Reading)], used := s.used + {id});
    RunOne(m, s1, ls[1]);
    var s2 := s1.(calls := map[id := Running(call, PreFault)]);
    assert Step(m, s1, ls[1]) == s2;
    RunOne(m, s2, ls[2]);
    ConsumeNone([], call.op, {Reject, ProcessingPayment});
    assert Step(m, s2, ls[2]) == s2.(calls := map[id := Running(call, Writing(false))]);
  }

  function FromWrite(id: nat, shelf: Shelf, uuid: string): seq<Label> {
    [Write(id, shelf, uuid, false), Invalidate(id), TakePostFault(id, false)]
  }

  /** From there it commits, drops the cache and answers. */
  lemma Finishes(m: Market, s: System, id: nat, call: Call, shelf: Shelf, uuid: string, clock: Time)
    requires s.calls == map[id := Running(call, Writing(false))] && Calm(s.(calls := map[]), clock)
    requires Fresh(s.db, uuid) && Transaction(m, s.db, call, Env(shelf, clock, uuid, false)).Ok?
    ensures var t := Run(m, s, FromWrite(id, shelf, uuid));
            && Calm(t, clock) && t.used == s.used
            && t.db == Transaction(m, s.db, call, Env(shelf, clock, uuid, false)).value.0
  {
    hide Transaction, Run, Consume, Fresh;
    var ls := FromWrite(id, shelf, uuid);
    RunConcat(m, s, [ls[0]], [ls[1]]);
    RunConcat(m, s, [ls[0], ls[1]], [ls[2]]);
    assert [ls[0]] + [ls[1]] == [ls[0], ls[1]] && [ls[0], ls[1]] + [ls[2]] == ls;
    var reply := Transaction(m, s.db, call, Env(shelf, clock, uuid, false)).value.1;
    RunOne(m, s, ls[0]);
    var s1 := Step(m, s, ls[0]);
    assert s1.calls == map[id := Running(call, Invalidating(reply))];
    RunOne(m, s1, ls[1]);
    var s2 := Step(m, s1, ls[1]);
    assert s2.calls == map[id := Running(call, PostFault(reply))] && s2.cache == None;
    RunOne(m, s2, ls[2]);
    ConsumeNone([], call.op, {UnknownAfterCommit});
    assert Step(m, s2, ls[2]).calls == map[];
  }

  function WholeCall(id: nat, call: Call, shelf: Shelf, uuid: string): seq<Label> {
    UpToWrite(id, call) + FromWrite(id, shelf, uuid)
  }

  lemma Completes(m: Market, s: System, id: nat, call: Call, shelf: Shelf, uuid: string, clock: Time)
    requires Calm(s, clock) && id !in s.used && Admissible(call) && call.key !in s.db.receipts
    requires Fresh(s.db, uuid) && Transaction(m, s.db, call, Env(shelf, clock, uuid, false)).Ok?
    ensures var t := Run(m, s, WholeCall(id, call, shelf, uuid));
            && Calm(t, clock) && t.used == s.used + {id}
            && t.db == Transaction(m, s.db, call, Env(shelf, clock, uuid, false)).value.0
  {
    hide Transaction, Run, Fresh, Admissible;
    RunConcat(m, s, UpToWrite(id, call), FromWrite(id, shelf, uuid));
    ReachesWrite(m, s, id, call, clock);
    Finishes(m, Run(m, s, UpToWrite(id, call)), id, call, shelf, uuid, clock);
  }

  /** SKU 0 is on sale: on the shelf, priced, in stock, and quotes last at all. */
  ghost predicate OnSale(m: Market, shelf: Shelf) {
    && Sku.Faithful(m.rules) && shelf.total > 0 && shelf.price(0).Some?
    && m.base(0) >= 1 && m.cap(0) >= 1 && m.quoteTtl >= 1
  }

  function FirstLine(shelf: Shelf): Line
    requires shelf.price(0).Some?
  {
    Line(Sku.SkuId(0), 1, shelf.price(0).value)
  }

  function CartCall(): Call {
    Call("k1", 1, UpdateCartLines(None, None, [Selection(Sku.SkuId(0), 1)]))
  }

  function CheckoutCall(cartId: Id): Call { Call("k2", 1, PrepareCheckout(cartId, 1)) }

  function OrderCall(quoteId: Id): Call { Call("k3", 1, CreateOrder(quoteId)) }

  lemma FirstStillOffered(m: Market, shelf: Shelf)
    requires OnSale(m, shelf)
    ensures StillOffered(m, shelf, [], FirstLine(shelf))
    ensures ValidatedLines(m, shelf, [], [Selection(Sku.SkuId(0), 1)]) == Ok([FirstLine(shelf)])
  {
    hide Sku.SkuId, Sku.ParseSkuId, Sku.Faithful;
    Sku.ParseOfSkuId(m.rules, shelf.total, 0);
    var sels := [Selection(Sku.SkuId(0), 1)];
    assert sels[..0] == [];
    assert Sum([], Sku.SkuId(0)) == 0;
    assert ValidatedLine(m, shelf, [], sels[..0], sels[0]) == Ok(FirstLine(shelf));
    assert ValidatedLines(m, shelf, [], sels[..0]) == Ok([]);
    assert [] + [FirstLine(shelf)] == [FirstLine(shelf)];
  }

  function CartDb(shelf: Shelf): Db
    requires shelf.price(0).Some?
  {
    var lines := [FirstLine(shelf)];
    var reply := CartReply("c_1", 1, lines, Subtotal(lines));
    PutCart(EMPTY, "c_1", Cart(1, 1, None, Subtotal(lines)), lines)
      .(receipts := map["k1" := Receipt(1, CartCall().op, reply)])
  }

  lemma CartCommits(m: Market, shelf: Shelf, clock: Time)
    requires OnSale(m, shelf)
    ensures Fresh(EMPTY, "1") && Transaction(m, EMPTY, CartCall(), Env(shelf, clock, "1", false)).Ok?
    ensures Transaction(m, EMPTY, CartCall(), Env(shelf, clock, "1", false)).value.0 == CartDb(shelf)
  {
    hide ValidatedLines, Subtotal, Sku.SkuId, OnSale, StillOffered;
    FirstStillOffered(m, shelf);
    assert "c_" + "1" == "c_1";
  }

  /** The checkout of that cart commits a quote that is open and not expired. */
  lemma CheckoutCommits(m: Market, shelf: Shelf, clock: Time)
    requires OnSale(m, shelf) && Inv(m, CartDb(shelf), clock)
    ensures var env := Env(shelf, clock, "2", false);
            var r := Transaction(m, CartDb(shelf), CheckoutCall("c_1"), env);
            && Fresh(CartDb(shelf), "2") && r.Ok? && r.value.1.QuoteReply?
            && var db := r.value.0;
               var q := r.value.1.quoteId;
               && q in db.quotes && db.quotes[q].owner == 1 && db.quotes[q].status == Open
               && db.quotes[q].expiresAt > clock && Current(db, q) && db.quotes[q].lines == [FirstLine(shelf)]
               && db.deltas == [] && db.receipts.Keys == {"k1", "k2"} && db.orders == map[]
               && db.carts.Keys == {"c_1"} && db.payments == map[] && db.quotes.Keys == {"q_2"}
  {
    hide Subtotal, Sku.SkuId, StillOffered, Inv, Sku.Faithful, PrepareCheckoutWork, ValidatedLines;
    var db := CartDb(shelf);
    var env := Env(shelf, clock, "2", false);
    assert "c_1" != "c_2" && "q_2"[0] == 'q';
    FirstStillOffered(m, shelf);
    assert DistinctSkus(StoredLines(db, "c_1"));
    CheckoutSucceedsExactly(m, db, 1, "c_1", 1, env);
    CheckoutOffers(m, db, 1, "c_1", 1, env);
    assert Selections([FirstLine(shelf)]) == [Selection(Sku.SkuId(0), 1)];
    CheckoutWrites(m, shelf, env);
    assert "q_" + "2" == "q_2";
  }

  lemma CheckoutWrites(m: Market, shelf: Shelf, env: Env)
    requires shelf.price(0).Some?
    requires PrepareCheckoutWork(m, CartDb(shelf), 1, "c_1", 1, env).Ok?
    requires ValidatedLines(m, env.shelf, [], Selections([FirstLine(shelf)])) == Ok([FirstLine(shelf)])
    ensures var (db, reply) := PrepareCheckoutWork(m, CartDb(shelf), 1, "c_1", 1, env).value;
            && db == CartDb(shelf).(quotes := db.quotes, quoteIds := db.quoteIds)
            && reply.QuoteReply? && reply.quoteId !in CartDb(shelf).quotes
            && db.quotes.Keys == {"q_" + env.uuid}
            && reply.quoteId in db.quotes && db.quotes[reply.quoteId].lines == [FirstLine(shelf)]
  {
    hide ValidatedLines, Subtotal, Sku.SkuId, SamePrices;
  }

  /** The order of that quote commits and takes stock. */
  lemma OrderCommits(m: Market, db: Db, q: Id, shelf: Shelf, clock: Time)
    requires OnSale(m, shelf) && Inv(m, db, clock)
    requires q in db.quotes && db.quotes[q].owner == 1 && db.quotes[q].status == Open
    requires db.quotes[q].expiresAt > clock && Current(db, q) && db.quotes[q].lines == [FirstLine(shelf)]
    requires db.deltas == [] && "k3" !in db.receipts && Fresh(db, "3")
    ensures var r := Transaction(m, db, OrderCall(q), Env(shelf, clock, "3", false));
            r.Ok? && r.value.0.deltas != []
  {
    hide Subtotal, Sku.SkuId, StillOffered, Inv, Sku.Faithful, Current, Fresh, CreateOrderWork;
    FirstStillOffered(m, shelf);
    OrderSucceedsExactly(m, db, 1, q, Env(shelf, clock, "3", false));
    assert StillOffered(m, shelf, db.deltas, db.quotes[q].lines[0]);
    assert CreateOrderWork(m, db, 1, q, Env(shelf, clock, "3", false)).Ok?;
    OrderReceipts(m, db, q, Env(shelf, clock, "3", false));
    OrderTakes(m, db, q, Env(shelf, clock, "3", false));
  }

  lemma OrderReceipts(m: Market, db: Db, q: Id, env: Env)
    requires CreateOrderWork(m, db, 1, q, env).Ok?
    ensures CreateOrderWork(m, db, 1, q, env).value.0.receipts == db.receipts
  {
    hide ValidatedLines, DistinctKeys, StockRows;
  }

  lemma OrderTakes(m: Market, db: Db, q: Id, env: Env)
    requires CreateOrderWork(m, db, 1, q, env).Ok? && q in db.quotes && db.quotes[q].lines != []
    ensures CreateOrderWork(m, db, 1, q, env).value.0.deltas != []
  {
    hide ValidatedLines, Subtotal, DistinctKeys;
  }

  /** The labels of a cart and its checkout, one call after the other. */
  function Shopping(shelf: Shelf): seq<Label> {
    WholeCall(1, CartCall(), shelf, "1") + WholeCall(2, CheckoutCall("c_1"), shelf, "2")
  }

  /** The database the checkout leaves. */
  ghost function QuoteDb(m: Market, shelf: Shelf, clock: Time): Db
    requires OnSale(m, shelf) && Inv(m, CartDb(shelf), clock)
  {
    CheckoutCommits(m, shelf, clock);
    Transaction(m, CartDb(shelf), CheckoutCall("c_1"), Env(shelf, clock, "2", false)).value.0
  }

  lemma CartShopped(m: Market, faults: bool, shelf: Shelf, clock: Time)
    requires OnSale(m, shelf)
    ensures var s := Run(m, Initial(faults, clock), WholeCall(1, CartCall(), shelf, "1"));
            Calm(s, clock) && s.used == {1} && s.db == CartDb(shelf) && Inv(m, s.db, clock)
  {
    hide Run, Transaction, WholeCall, Inv, Serial, LogOk, CallsOk, CacheOk, OnSale, CartDb;
    CartCommits(m, shelf, clock);
    assert Sku.Faithful(m.rules) by { Faithfully(m, shelf); }
    Completes(m, Initial(faults, clock), 1, CartCall(), shelf, "1", clock);
    Reachable(m, faults, clock, WholeCall(1, CartCall(), shelf, "1"));
  }

  lemma QuoteShopped(m: Market, faults: bool, shelf: Shelf, clock: Time)
    requires OnSale(m, shelf) && Inv(m, CartDb(shelf), clock)
    ensures var s := Run(m, Initial(faults, clock), Shopping(shelf));
            Calm(s, clock) && s.used == {1, 2} && s.db == QuoteDb(m, shelf, clock) && Inv(m, s.db, clock)
  {
    hide Run, Transaction, WholeCall, Inv, Serial, LogOk, CallsOk, CacheOk, OnSale;
    assert Sku.Faithful(m.rules) by { Faithfully(m, shelf); }
    CartShopped(m, faults, shelf, clock);
    var first := WholeCall(1, CartCall(), shelf, "1");
    var s1 := Run(m, Initial(faults, clock), first);
    CheckoutCommits(m, shelf, clock);
    Completes(m, s1, 2, CheckoutCall("c_1"), shelf, "2", clock);
    RunConcat(m, Initial(faults, clock), first, WholeCall(2, CheckoutCall("c_1"), shelf, "2"));
    Reachable(m, faults, clock, Shopping(shelf));
  }

  /** They leave a calm provider with one open quote, ready to be ordered. */
  lemma Shops(m: Market, faults: bool, shelf: Shelf, clock: Time) returns (q: Id)
    requires OnSale(m, shelf)
    ensures var s := Run(m, Initial(faults, clock), Shopping(shelf));
            && Calm(s, clock) && s.used == {1, 2} && Fresh(s.db, "3") && s.db.receipts.Keys == {"k1", "k2"}
            && s.db.carts.Keys == {"c_1"} && s.db.quotes.Keys == {"q_2"}
            && s.db.orders == map[] && s.db.payments == map[]
            && var r := Transaction(m, s.db, OrderCall(q), Env(shelf, clock, "3", false));
               r.Ok? && r.value.0.deltas != s.db.deltas
  {
    hide Run, Transaction, OnSale, Shopping, Inv, Current, CartDb, Fresh;
    CartShopped(m, faults, shelf, clock);
    QuoteShopped(m, faults, shelf, clock);
    CheckoutCommits(m, shelf, clock);
    assert shelf.price(0).Some? by { Priced(m, shelf); }
    q := Transaction(m, CartDb(shelf), CheckoutCall("c_1"), Env(shelf, clock, "2", false)).value.1.quoteId;
    var db := QuoteDb(m, shelf, clock);
    NewThird(db, q);
    OrderCommits(m, db, q, shelf, clock);
  }

  lemma Faithfully(m: Market, shelf: Shelf)
    requires OnSale(m, shelf)
    ensures Sku.Faithful(m.rules)
  {
  }

  lemma Priced(m: Market, shelf: Shelf)
    requires OnSale(m, shelf)
    ensures shelf.price(0).Some?
  {
  }

  lemma NewThird(db: Db, q: Id)
    requires db.carts.Keys == {"c_1"} && db.orders == map[] && db.payments == map[] && db.quotes.Keys == {"q_2"}
    ensures "c_" + "3" != "c_1" && Fresh(db, "3")
  {
    assert ("c_" + "3")[2] != "c_1"[2] && ("q_" + "3")[2] != "q_2"[2];
  }

  /** With anything on sale, a stale cache that nothing is due to drop can be reached. */
  lemma StaleReachable(m: Market, shelf: Shelf, clock: Time)
    requires OnSale(m, shelf)
    ensures exists labels :: !CacheFresh(Run(m, Initial(false, clock), labels))
  {
    hide Run, Transaction, OnSale, Shopping, SystemInv, CacheFresh;
    var q := Shops(m, false, shelf, clock);
    var s0 := Initial(false, clock);
    var s := Run(m, s0, Shopping(shelf));
    ReachesWrite(m, s, 3, OrderCall(q), clock);
    RunConcat(m, s0, Shopping(shelf), UpToWrite(3, OrderCall(q)));
    var t := Run(m, s, UpToWrite(3, OrderCall(q)));
    assert !DropDue(t);
    StaleRace(m, t, 0, 3, shelf, "3");
    var race := [ReadStock(0), Write(3, shelf, "3", false), Invalidate(3), StoreStock(0)];
    RunConcat(m, s0, Shopping(shelf) + UpToWrite(3, OrderCall(q)), race);
    assert !CacheFresh(Run(m, s0, Shopping(shelf) + UpToWrite(3, OrderCall(q)) + race));
  }
}
