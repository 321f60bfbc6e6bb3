/** A run in which a paid payment stops being paid: cart, checkout, order, payment and
    pay; then a processing fault is planned and the owner pays again with a new key. */
module CommercePaidAgain {
  import opened Wrappers
  import opened CommerceModel
  import opened CommerceProtocol
  import opened CommerceRuns
  import opened CommerceTheorems
  import opened CommerceCache
  import opened CommerceExample
  import Sku

  const PROCESSING := Rule("mock_pay", ProcessingPayment, None)

  function PayingAgain(id: nat, call: Call, shelf: Shelf, uuid: string): seq<Label> {
    [PlanFault(PROCESSING, 1)] + UpToWrite(id, call) + [Write(id, shelf, uuid, false)]
  }

  lemma TakesProcessing(op: Op, p: Id)
    requires op == MockPay(p)
    ensures Consume([PROCESSING], op, {Reject, ProcessingPayment}) == (Some(ProcessingPayment), [])
  {
    hide Consume;
    ConsumeFirst([PROCESSING], op, {Reject, ProcessingPayment}, 0);
    assert [PROCESSING][..0] + [PROCESSING][1..] == [];
  }

  lemma ReachesFaultyWrite(m: Market, s: System, id: nat, call: Call, p: Id)
    requires s.faultsEnabled && s.rules == [PROCESSING] && id !in s.used && id !in s.calls
    requires Admissible(call) && call.op == MockPay(p) && call.key !in s.db.receipts
    ensures var t := Run(m, s, UpToWrite(id, call));
            t.db == s.db && t.clock == s.clock && id in t.calls && t.calls[id] == Running(call, Writing(true))
  {
    hide Admissible, Run, Consume, Applies;
    var ls := UpToWrite(id, call);
    RunConcat(m, s, [ls[0]], [ls[1]]);
    RunConcat(m, s, [ls[0], ls[1]], [ls[2]]);
    assert [ls[0]] + [ls[1]] == [ls[0], ls[1]] && [ls[0], ls[1]] + [ls[2]] == ls;
    RunOne(m, s, ls[0]);
    var s1 := Step(m, s, ls[0]);
    RunOne(m, s1, ls[1]);
    var s2 := Step(m, s1, ls[1]);
    RunOne(m, s2, ls[2]);
    TakesProcessing(call.op, p);
  }

  /** From any state with a paid payment and no fault queued: plan a processing fault, and
      let its owner pay it again with a new key. The payment is processing. */
  lemma PaidAgain(m: Market, s: System, id: nat, call: Call, p: Id, shelf: Shelf, uuid: string)
    requires IsPaid(s, p) && s.faultsEnabled && s.rules == [] && id !in s.used && id !in s.calls
    requires Admissible(call) && call.op == MockPay(p) && call.owner == s.db.payments[p].owner
    requires call.key !in s.db.receipts && Fresh(s.db, uuid)
    ensures var t := Run(m, s, PayingAgain(id, call, shelf, uuid));
            p in t.db.payments && t.db.payments[p].status == Processing
  {
    hide Admissible, Run, Fresh, Transaction;
    var planned := s.(rules := [PROCESSING]);
    RunOne(m, s, PlanFault(PROCESSING, 1));
    assert s.rules + seq(1, _ => PROCESSING) == [PROCESSING];
    ReachesFaultyWrite(m, planned, id, call, p);
    var t := Run(m, planned, UpToWrite(id, call));
    RunConcat(m, s, [PlanFault(PROCESSING, 1)], UpToWrite(id, call));
    RunConcat(m, s, [PlanFault(PROCESSING, 1)] + UpToWrite(id, call), [Write(id, shelf, uuid, false)]);
    RunOne(m, t, Write(id, shelf, uuid, false));
    var env := Env(shelf, t.clock, uuid, true);
    PayAgainCommits(m, t.db, call, env, p);
    WriteCommits(m, t, id, env);
  }

  // --- up to paid -----------------------------------------------------------------------

  function PaymentCall(): Call { Call("k4", 1, CreatePayment("o_3")) }

  function PayCall(): Call { Call("k5", 1, MockPay("pay_4")) }

  function PayAgainCall(): Call { Call("k6", 1, MockPay("pay_4")) }

  /** The ids and keys this run has used, at most. */
  ghost predicate Named(db: Db) {
    && db.carts.Keys <= {"c_1"} && db.quotes.Keys <= {"q_2"} && db.orders.Keys <= {"o_3"}
    && db.payments.Keys <= {"pay_4"} && db.receipts.Keys <= {"k1", "k2", "k3", "k4", "k5"}
  }

  lemma NamedFresh(db: Db, digit: char)
    requires Named(db) && digit !in "1234"
    ensures Fresh(db, [digit])
  {
    assert ("c_" + [digit])[2] != "c_1"[2] && ("q_" + [digit])[2] != "q_2"[2];
    assert ("o_" + [digit])[2] != "o_3"[2] && ("pay_" + [digit])[4] != "pay_4"[4];
  }

  /** The order stands, awaiting payment. */
  ghost predicate Ordered(db: Db) {
    && Named(db) && "o_3" in db.orders && db.orders["o_3"].owner == 1 && db.orders["o_3"].status == AwaitingPayment
    && db.payments == map[] && "k4" !in db.receipts && "k5" !in db.receipts
  }

  lemma OrderStands(m: Market, db: Db, q: Id, env: Env)
    requires Transaction(m, db, OrderCall(q), env).Ok? && env.uuid == "3" && "k3" !in db.receipts
    requires db.carts.Keys == {"c_1"} && db.quotes.Keys == {"q_2"} && db.orders == map[] && db.payments == map[]
    requires db.receipts.Keys == {"k1", "k2"}
    ensures Ordered(Transaction(m, db, OrderCall(q), env).value.0)
  {
    hide ValidatedLines, DistinctKeys, StockRows, SamePrices, Subtotal;
    assert "o_" + "3" == "o_3";
  }

  lemma PaymentStands(m: Market, db: Db, env: Env)
    requires Ordered(db) && env.uuid == "4"
    ensures var r := Transaction(m, db, PaymentCall(), env);
            && r.Ok? && Named(r.value.0) && "pay_4" in r.value.0.payments && "k5" !in r.value.0.receipts
            && r.value.0.payments["pay_4"].owner == 1 && r.value.0.payments["pay_4"].status == AwaitingPayment
    ensures Fresh(db, "4")
  {
    assert "pay_" + "4" == "pay_4";
    assert ("c_" + "4")[2] != "c_1"[2] && ("q_" + "4")[2] != "q_2"[2] && ("o_" + "4")[2] != "o_3"[2];
  }

  lemma PaidStands(m: Market, db: Db, env: Env)
    requires Named(db) && "pay_4" in db.payments && "k5" !in db.receipts && !env.processing
    requires db.payments["pay_4"].owner == 1 && db.payments["pay_4"].status == AwaitingPayment
    ensures var r := Transaction(m, db, PayCall(), env);
            && r.Ok? && Named(r.value.0) && "pay_4" in r.value.0.payments
            && r.value.0.payments["pay_4"].owner == 1 && r.value.0.payments["pay_4"].status == Paid
  {
    var p := db.payments["pay_4"];
    assert SetStatus(db, "pay_4", Paid).orders.Keys == db.orders.Keys;
  }

  function Buying(shelf: Shelf, q: Id): seq<Label> {
    Shopping(shelf) + WholeCall(3, OrderCall(q), shelf, "3") + WholeCall(4, PaymentCall(), shelf, "4")
    + WholeCall(5, PayCall(), shelf, "5")
  }

  /** From an empty database to a paid payment, one call after the other. */
  lemma Buys(m: Market, faults: bool, shelf: Shelf, clock: Time) returns (q: Id)
    requires OnSale(m, shelf)
    ensures var s := Run(m, Initial(faults, clock), Buying(shelf, q));
            && Calm(s, clock) && Named(s.db) && IsPaid(s, "pay_4") && s.db.payments["pay_4"].owner == 1
            && 6 !in s.used && s.faultsEnabled == faults
  {
    hide Run, Transaction, OnSale, Shopping, WholeCall, Ordered, Named, Fresh;
    var s0 := Initial(faults, clock);
    q := Shops(m, faults, shelf, clock);
    var s2 := Run(m, s0, Shopping(shelf));
    OrderStands(m, s2.db, q, Env(shelf, clock, "3", false));
    Completes(m, s2, 3, OrderCall(q), shelf, "3", clock);
    var s3 := Run(m, s2, WholeCall(3, OrderCall(q), shelf, "3"));
    PaymentStands(m, s3.db, Env(shelf, clock, "4", false));
    assert "k4" !in s3.db.receipts by { OrderedKeys(s3.db); }
    Completes(m, s3, 4, PaymentCall(), shelf, "4", clock);
    var s4 := Run(m, s3, WholeCall(4, PaymentCall(), shelf, "4"));
    NamedFresh(s4.db, '5');
    PaidStands(m, s4.db, Env(shelf, clock, "5", false));
    Completes(m, s4, 5, PayCall(), shelf, "5", clock);
    var ls := Shopping(shelf);
    RunConcat(m, s0, ls, WholeCall(3, OrderCall(q), shelf, "3"));
    RunConcat(m, s0, ls + WholeCall(3, OrderCall(q), shelf, "3"), WholeCall(4, PaymentCall(), shelf, "4"));
    RunConcat(m, s0, ls + WholeCall(3, OrderCall(q), shelf, "3") + WholeCall(4, PaymentCall(), shelf, "4"),
              WholeCall(5, PayCall(), shelf, "5"));
    FaultsStay(m, faults, shelf, clock, Buying(shelf, q));
  }

  lemma OrderedKeys(db: Db)
    requires Ordered(db)
    ensures "k4" !in db.receipts
  {
  }

  lemma FaultsStay(m: Market, faults: bool, shelf: Shelf, clock: Time, labels: seq<Label>)
    requires OnSale(m, shelf)
    ensures Run(m, Initial(faults, clock), labels).faultsEnabled == faults
  {
    hide Run, SystemInv, Sku.Faithful, OnSale;
    Faithfully(m, shelf);
    Reachable(m, faults, clock, labels);
  }

  /** With anything on sale and faults enabled, a payment can be paid and later not paid. */
  lemma UnpaidReachable(m: Market, shelf: Shelf, clock: Time)
    requires OnSale(m, shelf)
    ensures exists labels, k: nat :: k <= |labels| && IsPaid(Run(m, Initial(true, clock), labels[..k]), "pay_4")
              && !IsPaid(Run(m, Initial(true, clock), labels), "pay_4")
  {
    hide Run, OnSale, Named, Fresh, Buying, PayingAgain;
    var q := Buys(m, true, shelf, clock);
    var s := Run(m, Initial(true, clock), Buying(shelf, q));
    NamedFresh(s.db, '6');
    assert "k6" !in s.db.receipts by { NamedKeys(s.db); }
    PaidAgain(m, s, 6, PayAgainCall(), "pay_4", shelf, "6");
    var again := PayingAgain(6, PayAgainCall(), shelf, "6");
    RunConcat(m, Initial(true, clock), Buying(shelf, q), again);
    var labels := Buying(shelf, q) + again;
    assert labels[..|Buying(shelf, q)|] == Buying(shelf, q);
  }

  lemma NamedKeys(db: Db)
    requires Named(db)
    ensures "k6" !in db.receipts
  {
  }
}
