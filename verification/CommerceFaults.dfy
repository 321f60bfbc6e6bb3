/** Whom a planned fault hits (faults.py, `consume`): calls of its kind that name its
    target, and over whole runs no others. */
module CommerceFaults {
  import opened Wrappers
  import opened CommerceModel
  import opened CommerceProtocol

  /** The rule is meant for this operation: its own name, and no target or the cart,
      quote, order or payment it names. */
  predicate MeantFor(rule: Rule, op: Op) {
    match op
    case UpdateCartLines(cartId, _, _) =>
      rule.kind == "update_cart_lines" && (rule.target.None? || (cartId.Some? && rule.target.value == cartId.value))
    case PrepareCheckout(cartId, _) =>
      rule.kind == "prepare_checkout" && (rule.target.None? || rule.target.value == cartId)
    case CreateOrder(quoteId) => rule.kind == "create_order" && (rule.target.None? || rule.target.value == quoteId)
    case CreatePayment(orderId) => rule.kind == "create_payment" && (rule.target.None? || rule.target.value == orderId)
    case MockPay(paymentId) => rule.kind == "mock_pay" && (rule.target.None? || rule.target.value == paymentId)
  }

  lemma AppliesMeans(rule: Rule, op: Op, modes: set<Mode>)
    ensures Applies(rule, op, modes) <==> rule.mode in modes && MeantFor(rule, op)
  {
  }

  /** Exactly the first rule of a wanted mode that is meant for the operation is taken,
      whatever stands before and after it; and something is taken if and only if one is queued. */
  lemma ConsumedIsMeant(rules: seq<Rule>, op: Op, modes: set<Mode>)
    ensures Consume(rules, op, modes).0.Some? <==>
            exists i :: 0 <= i < |rules| && rules[i].mode in modes && MeantFor(rules[i], op)
    ensures Consume(rules, op, modes).0.Some? ==>
              exists i :: 0 <= i < |rules| && rules[i].mode in modes && MeantFor(rules[i], op)
                && Consume(rules, op, modes) == (Some(rules[i].mode), rules[..i] + rules[i + 1..])
                && forall j :: 0 <= j < i ==> !(rules[j].mode in modes && MeantFor(rules[j], op))
  {
    hide Applies, MeantFor, Consume;
    forall i | 0 <= i < |rules|
      ensures Applies(rules[i], op, modes) <==> rules[i].mode in modes && MeantFor(rules[i], op)
    {
      AppliesMeans(rules[i], op, modes);
    }
    ConsumeTakesOldest(rules, op, modes);
  }

  // --- a rule for somebody else ---------------------------------------------------------------

  /** The queue without a rule, wherever and however often it is planned. */
  function Sans(rules: seq<Rule>, x: Rule): seq<Rule> {
    if rules == [] then []
    else if rules[0] == x then Sans(rules[1..], x)
    else [rules[0]] + Sans(rules[1..], x)
  }

  lemma {:induction false} SansConcat(a: seq<Rule>, b: seq<Rule>, x: Rule)
    ensures Sans(a + b, x) == Sans(a, x) + Sans(b, x)
  {
    if a == [] {
      assert a + b == b;
    } else {
      assert (a + b)[1..] == a[1..] + b;
      SansConcat(a[1..], b, x);
    }
  }

  lemma {:induction false} SansPlanned(rule: Rule, times: nat, x: Rule)
    ensures Sans(seq(times, _ => rule), x) == if rule == x then [] else seq(times, _ => rule)
  {
    if times > 0 {
      assert seq(times, _ => rule)[1..] == seq(times - 1, _ => rule);
      SansPlanned(rule, times - 1, x);
      assert [rule] + seq(times - 1, _ => rule) == seq(times, _ => rule);
    }
  }

  /** A rule not meant for an operation does not change what it takes. */
  lemma {:induction false} ConsumeSans(rules: seq<Rule>, x: Rule, op: Op, modes: set<Mode>)
    requires !MeantFor(x, op)
    ensures Consume(Sans(rules, x), op, modes)
            == (Consume(rules, op, modes).0, Sans(Consume(rules, op, modes).1, x))
  {
    hide Applies, MeantFor;
    if rules != [] {
      AppliesMeans(rules[0], op, modes);
      ConsumeSans(rules[1..], x, op, modes);
      var left := Consume(rules[1..], op, modes).1;
      assert ([rules[0]] + left)[1..] == left;
      if rules[0] != x {
        assert ([rules[0]] + Sans(rules[1..], x))[1..] == Sans(rules[1..], x);
      }
    }
  }

  /** The same system but for that rule. */
  ghost predicate Alike(s: System, t: System, x: Rule) { t == s.(rules := Sans(s.rules, x)) }

  /** No call under way is meant. */
  ghost predicate Spared(s: System, x: Rule) {
    forall id :: id in s.calls ==> !MeantFor(x, s.calls[id].call.op)
  }

  /** No call begun along these labels is meant. */
  ghost predicate NoneMeant(labels: seq<Label>, x: Rule) {
    forall i :: 0 <= i < |labels| && labels[i].Begin? ==> !MeantFor(x, labels[i].call.op)
  }

  /** The same step with the rule not planned. */
  function Unplanned(l: Label, x: Rule): Label {
    if l.PlanFault? && l.rule == x then PlanFault(x, 0) else l
  }

  lemma SpareCallStep(s: System, t: System, x: Rule, id: nat, open: bool)
    requires Alike(s, t, x) && Spared(s, x) && id in s.calls
    ensures Alike(PreFaultStep(s, id, open), PreFaultStep(t, id, open), x)
    ensures s.calls[id].phase.PostFault? ==>
              Alike(PostFaultStep(s, id, s.calls[id].phase.reply, open),
                    PostFaultStep(t, id, s.calls[id].phase.reply, open), x)
  {
    hide Consume, MeantFor;
    var op := s.calls[id].call.op;
    ConsumeSans(s.rules, x, op, {Reject, ProcessingPayment});
    ConsumeSans(s.rules, x, op, {UnknownAfterCommit});
  }

  lemma SparePlan(s: System, t: System, x: Rule, rule: Rule, times: nat, m: Market)
    requires Alike(s, t, x)
    ensures Alike(Step(m, s, PlanFault(rule, times)), Step(m, t, Unplanned(PlanFault(rule, times), x)), x)
  {
    SansConcat(s.rules, seq(times, _ => rule), x);
    SansPlanned(rule, times, x);
    assert Sans(s.rules, x) + [] == Sans(s.rules, x);
    assert seq(0, _ => x) == [];
  }

  lemma SpareWrite(m: Market, s: System, t: System, x: Rule, id: nat, env: Env, busy: bool)
    requires Alike(s, t, x) && id in s.calls
    ensures Alike(WriteStep(m, s, id, env, busy), WriteStep(m, t, id, env, busy), x)
  {
    hide Transaction;
  }

  lemma SpareReads(s: System, t: System, x: Rule, id: nat)
    requires Alike(s, t, x) && id in s.calls
    ensures Alike(ReadReceiptStep(s, id), ReadReceiptStep(t, id), x) && Alike(RecoverStep(s, id), RecoverStep(t, id), x)
  {
    hide Replay;
  }

  lemma SpareOther(m: Market, s: System, t: System, l: Label, x: Rule)
    requires Alike(s, t, x) && !l.PlanFault? && !l.TakePreFault? && !l.TakePostFault?
    ensures Alike(Step(m, s, l), Step(m, t, l), x)
  {
    hide WriteStep, ReadReceiptStep, RecoverStep, SettleWork, Fresh, Admissible;
    match l
    case ReadReceipt(id) => if id in s.calls { SpareReads(s, t, x, id); }
    case Recover(id) => if id in s.calls { SpareReads(s, t, x, id); }
    case Write(id, shelf, uuid, busy) =>
      if id in s.calls && s.calls[id].phase.Writing? {
        SpareWrite(m, s, t, x, id, Env(shelf, s.clock, uuid, s.calls[id].phase.processing), busy);
      }
    case _ =>
  }

  lemma SpareStep(m: Market, s: System, t: System, l: Label, x: Rule)
    requires Alike(s, t, x) && Spared(s, x)
    ensures Alike(Step(m, s, l), Step(m, t, Unplanned(l, x)), x)
  {
    hide PreFaultStep, PostFaultStep, Alike, Spared;
    assert t.calls == s.calls by { SameCalls(s, t, x); }
    match l
    case TakePreFault(id, open) => if id in s.calls { SpareCallStep(s, t, x, id, open); }
    case TakePostFault(id, open) => if id in s.calls { SpareCallStep(s, t, x, id, open); }
    case PlanFault(rule, times) => SparePlan(s, t, x, rule, times, m);
    case _ => SpareOther(m, s, t, l, x);
  }

  lemma SameCalls(s: System, t: System, x: Rule)
    requires Alike(s, t, x)
    ensures t.calls == s.calls
  {
  }

  lemma StaysSpared(m: Market, s: System, l: Label, x: Rule)
    requires Spared(s, x) && (l.Begin? ==> !MeantFor(x, l.call.op))
    ensures Spared(Step(m, s, l), x)
  {
    hide Transaction, SettleWork, Fresh, Admissible, Replay, Consume, MeantFor;
  }

  /** Over any run whose calls a rule is not meant for, planning it, however often and
      whenever, changes no answer, no row, no commit, no call and no other rule. */
  lemma {:induction false} OthersUnharmed(m: Market, faults: bool, clock: Time, labels: seq<Label>, x: Rule)
    requires NoneMeant(labels, x)
    ensures var s := Run(m, Initial(faults, clock), labels);
            var without := seq(|labels|, i requires 0 <= i < |labels| => Unplanned(labels[i], x));
            Run(m, Initial(faults, clock), without) == s.(rules := Sans(s.rules, x)) && Spared(s, x)
  {
    hide Step, MeantFor, Unplanned;
    var without := seq(|labels|, i requires 0 <= i < |labels| => Unplanned(labels[i], x));
    if labels == [] {
    } else {
      var k := |labels| - 1;
      OthersUnharmed(m, faults, clock, labels[..k], x);
      var s := Run(m, Initial(faults, clock), labels[..k]);
      assert without[..k] == seq(k, i requires 0 <= i < k => Unplanned(labels[..k][i], x));
      SpareStep(m, s, s.(rules := Sans(s.rules, x)), labels[k], x);
      StaysSpared(m, s, labels[k], x);
    }
  }

  // --- what a fault does ------------------------------------------------------------------

  /** A rule is plannable exactly for the five operations, each under its own name. */
  lemma PlannableKinds(kind: string)
    ensures kind in FAULT_KINDS <==> exists op, mode :: MeantFor(Rule(kind, mode, None), op)
  {
    assert kind == "update_cart_lines" ==> MeantFor(Rule(kind, Reject, None), UpdateCartLines(None, None, []));
    assert kind == "prepare_checkout" ==> MeantFor(Rule(kind, Reject, None), PrepareCheckout("", 0));
    assert kind == "create_order" ==> MeantFor(Rule(kind, Reject, None), CreateOrder(""));
    assert kind == "create_payment" ==> MeantFor(Rule(kind, Reject, None), CreatePayment(""));
    assert kind == "mock_pay" ==> MeantFor(Rule(kind, Reject, None), MockPay(""));
  }

  /** And for the three modes, each under its own name. */
  lemma PlannableModes(text: string)
    ensures ParseMode("reject") == Some(Reject) && ParseMode("unknown_after_commit") == Some(UnknownAfterCommit)
    ensures ParseMode("processing_payment") == Some(ProcessingPayment)
    ensures ParseMode(text).Some? <==> text in {"reject", "unknown_after_commit", "processing_payment"}
  {
    assert "reject"[0] != "unknown_after_commit"[0] && "reject"[0] != "processing_payment"[0];
    assert "unknown_after_commit"[0] != "processing_payment"[0];
  }

  /** The first queued rule of a wanted mode that is meant for the operation has this mode. */
  ghost predicate FirstMeant(rules: seq<Rule>, op: Op, modes: set<Mode>, mode: Mode) {
    exists i :: 0 <= i < |rules| && rules[i].mode == mode && mode in modes && MeantFor(rules[i], op)
      && forall j :: 0 <= j < i ==> !(rules[j].mode in modes && MeantFor(rules[j], op))
  }

  lemma FirstMeantTaken(rules: seq<Rule>, op: Op, modes: set<Mode>, mode: Mode)
    ensures FirstMeant(rules, op, modes, mode) <==> Consume(rules, op, modes).0 == Some(mode)
  {
    hide Applies, MeantFor, Consume;
    ConsumedIsMeant(rules, op, modes);
    if FirstMeant(rules, op, modes, mode) {
      var i :| 0 <= i < |rules| && rules[i].mode == mode && mode in modes && MeantFor(rules[i], op)
        && forall j :: 0 <= j < i ==> !(rules[j].mode in modes && MeantFor(rules[j], op));
      assert forall j :: 0 <= j < i ==> !Applies(rules[j], op, modes) by {
        forall j | 0 <= j < i ensures !Applies(rules[j], op, modes) { AppliesMeans(rules[j], op, modes); }
      }
      AppliesMeans(rules[i], op, modes);
      ConsumeFirst(rules, op, modes, i);
    }
  }

  /** Before the write: a call is rejected there and then, with nothing written, exactly if
      faults are on, the look does not fail, and the first rule meant for it is a
      rejection; it writes with a processing fault exactly if that is a processing one. */
  lemma PreFaultExactly(m: Market, s: System, id: nat, open: bool)
    requires id in s.calls && s.calls[id].phase.PreFault?
    ensures var t := Step(m, s, TakePreFault(id, open));
            var modes := {Reject, ProcessingPayment};
            var op := s.calls[id].call.op;
            var on := s.faultsEnabled && !open;
            && t.db == s.db && t.log == s.log
            && (id !in t.calls <==> on && FirstMeant(s.rules, op, modes, Reject))
            && (id !in t.calls ==> t.answers == s.answers + [Answer(id, s.calls[id].call, Err(Rejected))])
            && (id in t.calls ==>
                  && t.answers == s.answers && t.calls[id].phase.Writing?
                  && (t.calls[id].phase.processing <==> on && FirstMeant(s.rules, op, modes, ProcessingPayment)))
            && t.rules == if on then Consume(s.rules, op, modes).1 else s.rules
  {
    hide FirstMeant, Consume;
    FirstMeantTaken(s.rules, s.calls[id].call.op, {Reject, ProcessingPayment}, Reject);
    FirstMeantTaken(s.rules, s.calls[id].call.op, {Reject, ProcessingPayment}, ProcessingPayment);
  }

  /** After the commit: the caller is told the outcome is unknown exactly if a rule for
      that is meant for it, and otherwise the committed answer; the commit stands. */
  lemma PostFaultExactly(m: Market, s: System, id: nat, open: bool)
    requires id in s.calls && s.calls[id].phase.PostFault?
    ensures var t := Step(m, s, TakePostFault(id, open));
            var told := if s.faultsEnabled && !open
                           && FirstMeant(s.rules, s.calls[id].call.op, {UnknownAfterCommit}, UnknownAfterCommit)
                        then Err(Unknown) else Ok(s.calls[id].phase.reply);
            && t.db == s.db && t.log == s.log && id !in t.calls
            && t.answers == s.answers + [Answer(id, s.calls[id].call, told)]
            && t.rules == if s.faultsEnabled && !open
                          then Consume(s.rules, s.calls[id].call.op, {UnknownAfterCommit}).1 else s.rules
  {
    hide FirstMeant, Consume;
    FirstMeantTaken(s.rules, s.calls[id].call.op, {UnknownAfterCommit}, UnknownAfterCommit);
    ConsumedIsMeant(s.rules, s.calls[id].call.op, {UnknownAfterCommit});
  }

  /** A busy database answers unknown and writes nothing. */
  lemma BusyIsUnknown(m: Market, s: System, id: nat, shelf: Shelf, uuid: string)
    requires id in s.calls && s.calls[id].phase.Writing? && Fresh(s.db, uuid)
    ensures var t := Step(m, s, Write(id, shelf, uuid, true));
            t.db == s.db && t.log == s.log && t.answers == s.answers + [Answer(id, s.calls[id].call, Err(Unknown))]
  {
    hide Fresh, Transaction;
  }

  /** A new call is refused at once exactly for an owner that is none or a cart of more than fifty lines. */
  lemma RefusedAtOnceExactly(m: Market, s: System, id: nat, call: Call)
    requires id !in s.used && id !in s.calls
    ensures var t := Step(m, s, Begin(id, call));
            var tooMany := call.op.UpdateCartLines? && |call.op.selections| > 50;
            t == if call.owner <= 0 || tooMany
                 then s.(answers := s.answers + [Answer(id, call, Err(Rejected))], used := s.used + {id})
                 else s.(calls := s.calls[id := Running(call, Reading)], used := s.used + {id})
  {
  }

  /** What no caller does: the clock moves to any later time and never back, a restart drops
      every call, and clearing the faults empties the queue exactly if faults are on. */
  lemma SurroundingSteps(m: Market, s: System, time: Time)
    ensures Step(m, s, Tick(time)) == s.(clock := if time > s.clock then time else s.clock)
    ensures Step(m, s, Restart).calls == map[] && Step(m, s, Restart).db == s.db
    ensures Step(m, s, ClearFaults) == s.(rules := if s.faultsEnabled then [] else s.rules)
  {
  }

  /** A settlement takes effect exactly for some owner's processing payment. */
  lemma SettlesExactly(m: Market, s: System, owner: int, p: Id, paid: bool)
    ensures var t := Step(m, s, Settle(owner, p, paid));
            if owner > 0 && p in s.db.payments && s.db.payments[p].owner == owner
               && s.db.payments[p].status == Processing
            then p in t.db.payments && t.db.payments[p].status == (if paid then Paid else Failed)
                 && t.log == s.log + [Settled(owner, p, paid)]
            else t == s
  {
  }
}
