/** `_mutate` as a protocol: any number of callers move through its steps in any
    interleaving, with injected faults, a busy database, lost callers and restarts.
    Faults follow faults.py; the search stock cache follows core.py. */
module CommerceProtocol {
  import opened Wrappers
  import opened CommerceModel

  const MAX_CART_LINES := 50

  // --- faults ------------------------------------------------------------------

  datatype Mode = Reject | UnknownAfterCommit | ProcessingPayment

  datatype Rule = Rule(kind: string, mode: Mode, target: Option<Id>)

  function Kind(op: Op): string {
    match op
    case UpdateCartLines(_, _, _) => "update_cart_lines"
    case PrepareCheckout(_, _) => "prepare_checkout"
    case CreateOrder(_) => "create_order"
    case CreatePayment(_) => "create_payment"
    case MockPay(_) => "mock_pay"
  }

  const FAULT_KINDS := {"update_cart_lines", "prepare_checkout", "create_order", "create_payment", "mock_pay"}

  function ParseMode(text: string): Option<Mode> {
    if text == "reject" then Some(Reject)
    else if text == "unknown_after_commit" then Some(UnknownAfterCommit)
    else if text == "processing_payment" then Some(ProcessingPayment)
    else None
  }

  function Target(op: Op): Option<Id> {
    match op
    case UpdateCartLines(cartId, _, _) => cartId
    case PrepareCheckout(cartId, _) => Some(cartId)
    case CreateOrder(quoteId) => Some(quoteId)
    case CreatePayment(orderId) => Some(orderId)
    case MockPay(paymentId) => Some(paymentId)
  }

  predicate Applies(rule: Rule, op: Op, modes: set<Mode>) {
    rule.kind == Kind(op) && rule.mode in modes && (rule.target.None? || rule.target == Target(op))
  }

  /** Rule `i` is the first that applies, and only it goes. */
  ghost predicate TakesAt(rules: seq<Rule>, op: Op, modes: set<Mode>, i: int, mode: Mode, left: seq<Rule>) {
    && 0 <= i < |rules|
    && Applies(rules[i], op, modes) && mode == rules[i].mode
    && left == rules[..i] + rules[i + 1..]
    && forall j :: 0 <= j < i ==> !Applies(rules[j], op, modes)
  }

  /** `FaultController.consume` */
  function Consume(rules: seq<Rule>, op: Op, modes: set<Mode>): (Option<Mode>, seq<Rule>) {
    if rules == [] then (None, [])
    else if Applies(rules[0], op, modes) then (Some(rules[0].mode), rules[1..])
    else
      var rest := Consume(rules[1..], op, modes);
      (rest.0, [rules[0]] + rest.1)
  }

  lemma TakesFirst(rules: seq<Rule>, op: Op, modes: set<Mode>)
    requires rules != [] && Applies(rules[0], op, modes)
    ensures TakesAt(rules, op, modes, 0, rules[0].mode, rules[1..])
  {
    hide Applies;
    assert rules[..0] + rules[1..] == rules[1..];
  }

  lemma TakesLater(rules: seq<Rule>, op: Op, modes: set<Mode>, i: int, mode: Mode, left: seq<Rule>)
    requires rules != [] && !Applies(rules[0], op, modes) && TakesAt(rules[1..], op, modes, i, mode, left)
    ensures TakesAt(rules, op, modes, i + 1, mode, [rules[0]] + left)
  {
    hide Applies;
    assert [rules[0]] + left == rules[..i + 1] + rules[i + 2..];
    forall j | 0 <= j < i + 1 ensures !Applies(rules[j], op, modes) {
      assert j > 0 ==> rules[j] == rules[1..][j - 1];
    }
  }

  /** The oldest rule that applies is taken out, or no rule applies and none is touched. */
  lemma {:induction false} ConsumeTakesOldest(rules: seq<Rule>, op: Op, modes: set<Mode>)
    ensures var (mode, left) := Consume(rules, op, modes);
            match mode
            case None => left == rules && forall i :: 0 <= i < |rules| ==> !Applies(rules[i], op, modes)
            case Some(taken) => exists i :: TakesAt(rules, op, modes, i, taken, left)
  {
    hide Applies, TakesAt;
    if rules != [] {
      if Applies(rules[0], op, modes) {
        TakesFirst(rules, op, modes);
      } else {
        ConsumeTakesOldest(rules[1..], op, modes);
        match Consume(rules[1..], op, modes)
        case (None, _) => assert forall i :: 0 < i < |rules| ==> rules[i] == rules[1..][i - 1];
        case (Some(mode), left) =>
          var i :| TakesAt(rules[1..], op, modes, i, mode, left);
          TakesLater(rules, op, modes, i, mode, left);
      }
    }
  }

  /** Where the first rule that applies stands, it is the one taken. */
  lemma {:induction false} ConsumeFirst(rules: seq<Rule>, op: Op, modes: set<Mode>, i: nat)
    requires i < |rules| && Applies(rules[i], op, modes)
    requires forall j :: 0 <= j < i ==> !Applies(rules[j], op, modes)
    ensures Consume(rules, op, modes) == (Some(rules[i].mode), rules[..i] + rules[i + 1..])
  {
    hide Applies;
    if i == 0 {
      assert rules[..0] + rules[1..] == rules[1..];
    } else {
      var tail := rules[1..];
      assert tail[i - 1] == rules[i];
      assert forall j :: 0 <= j < i - 1 ==> tail[j] == rules[j + 1];
      ConsumeFirst(tail, op, modes, i - 1);
      assert !Applies(rules[0], op, modes);
      assert [rules[0]] + (tail[..i - 1] + tail[i..]) == rules[..i] + rules[i + 1..];
    }
  }

  lemma {:induction false} ConsumeNone(rules: seq<Rule>, op: Op, modes: set<Mode>)
    requires forall j :: 0 <= j < |rules| ==> !Applies(rules[j], op, modes)
    ensures Consume(rules, op, modes) == (None, rules)
  {
    hide Applies;
    if rules != [] {
      assert forall j :: 0 <= j < |rules| - 1 ==> rules[1..][j] == rules[j + 1];
      ConsumeNone(rules[1..], op, modes);
      assert [rules[0]] + rules[1..] == rules;
    }
  }

  // --- states ------------------------------------------------------------------

  /** Where a call stands inside `_mutate`. */
  datatype Phase =
    | Reading                     // before the first receipt lookup
    | PreFault                    // before taking a reject or processing fault
    | Writing(processing: bool)   // before the write transaction
    | Recovering                  // after an integrity error
    | Invalidating(reply: Reply)  // committed, stock cache not yet dropped
    | PostFault(reply: Reply)     // before taking an unknown-after-commit fault

  datatype Running = Running(call: Call, phase: Phase)

  /** What caller `id` was told. */
  datatype Answer = Answer(id: nat, call: Call, result: Result<Reply, Error>)

  /** What changed the database, in commit order. */
  datatype Event = Committed(id: nat, call: Call, env: Env) | Settled(owner: int, paymentId: Id, paid: bool)

  /** `cache` and the searches' `pending` reads hold the stock rows whose sums were, or
      will be, cached. A caller's id names one call: `used` holds all ids so far. */
  datatype System = System(
    db: Db, rules: seq<Rule>, faultsEnabled: bool, clock: Time,
    calls: map<nat, Running>, answers: seq<Answer>, log: seq<Event>,
    cache: Option<seq<Delta>>, pending: map<nat, seq<Delta>>, used: set<nat>)

  function Initial(faultsEnabled: bool, clock: Time): System {
    System(EMPTY, [], faultsEnabled, clock, map[], [], [], None, map[], {})
  }

  datatype Label =
    | Tick(time: Time)
    | Begin(id: nat, call: Call)
    | ReadReceipt(id: nat)
    | TakePreFault(id: nat, failOpen: bool)
    | Write(id: nat, shelf: Shelf, uuid: string, busy: bool)
    | Recover(id: nat)
    | Invalidate(id: nat)
    | TakePostFault(id: nat, failOpen: bool)
    | Lose(id: nat)
    | Restart
    | PlanFault(rule: Rule, times: nat)
    | ClearFaults
    | Settle(owner: int, paymentId: Id, paid: bool)
    | ReadStock(reader: nat)
    | StoreStock(reader: nat)

  // --- steps -------------------------------------------------------------------

  /** `_require_owner`, and the length check before `update_cart_lines` mutates. */
  predicate Admissible(call: Call) {
    && call.owner > 0
    && (call.op.UpdateCartLines? ==> |call.op.selections| <= MAX_CART_LINES)
  }

  function Finish(s: System, id: nat, result: Result<Reply, Error>): System
    requires id in s.calls
  {
    s.(calls := s.calls - {id}, answers := s.answers + [Answer(id, s.calls[id].call, result)])
  }

  function Move(s: System, id: nat, phase: Phase): System
    requires id in s.calls
  {
    s.(calls := s.calls[id := s.calls[id].(phase := phase)])
  }

  function ReadReceiptStep(s: System, id: nat): System
    requires id in s.calls
  {
    var call := s.calls[id].call;
    if call.key in s.db.receipts then Finish(s, id, Replay(s.db.receipts[call.key], call))
    else Move(s, id, PreFault)
  }

  function PreFaultStep(s: System, id: nat, failOpen: bool): System
    requires id in s.calls
  {
    if !s.faultsEnabled || failOpen then Move(s, id, Writing(false))
    else
      var (mode, rules) := Consume(s.rules, s.calls[id].call.op, {Reject, ProcessingPayment});
      if mode == Some(Reject) then Finish(s.(rules := rules), id, Err(Rejected))
      else Move(s.(rules := rules), id, Writing(mode == Some(ProcessingPayment)))
  }

  function WriteStep(m: Market, s: System, id: nat, env: Env, busy: bool): System
    requires id in s.calls
  {
    var call := s.calls[id].call;
    if busy then Finish(s, id, Err(Unknown))
    else
      match Transaction(m, s.db, call, env)
      case Err(Integrity) => Move(s, id, Recovering)
      case Err(e) => Finish(s, id, Err(e))
      case Ok((db, reply)) =>
        Move(s.(db := db, log := if call.key in s.db.receipts then s.log else s.log + [Committed(id, call, env)]),
             id, Invalidating(reply))
  }

  function RecoverStep(s: System, id: nat): System
    requires id in s.calls
  {
    var call := s.calls[id].call;
    if call.key in s.db.receipts then Finish(s, id, Replay(s.db.receipts[call.key], call))
    else Finish(s, id, Err(Unknown))
  }

  function PostFaultStep(s: System, id: nat, reply: Reply, failOpen: bool): System
    requires id in s.calls
  {
    if !s.faultsEnabled || failOpen then Finish(s, id, Ok(reply))
    else
      var (mode, rules) := Consume(s.rules, s.calls[id].call.op, {UnknownAfterCommit});
      Finish(s.(rules := rules), id, if mode.Some? then Err(Unknown) else Ok(reply))
  }

  /** One step; a label that does not apply to the state changes nothing. */
  ghost function Step(m: Market, s: System, l: Label): System {
    match l
    case Tick(t) => if t >= s.clock then s.(clock := t) else s
    case Begin(id, call) =>
      if id in s.used || id in s.calls then s
      else if !Admissible(call) then
        s.(answers := s.answers + [Answer(id, call, Err(Rejected))], used := s.used + {id})
      else s.(calls := s.calls[id := Running(call, Reading)], used := s.used + {id})
    case ReadReceipt(id) =>
      if id in s.calls && s.calls[id].phase.Reading? then ReadReceiptStep(s, id) else s
    case TakePreFault(id, failOpen) =>
      if id in s.calls && s.calls[id].phase.PreFault? then PreFaultStep(s, id, failOpen) else s
    case Write(id, shelf, uuid, busy) =>
      if id in s.calls && s.calls[id].phase.Writing? && Fresh(s.db, uuid) then
        WriteStep(m, s, id, Env(shelf, s.clock, uuid, s.calls[id].phase.processing), busy)
      else s
    case Recover(id) => if id in s.calls && s.calls[id].phase.Recovering? then RecoverStep(s, id) else s
    case Invalidate(id) =>
      if id in s.calls && s.calls[id].phase.Invalidating? then
        Move(s, id, PostFault(s.calls[id].phase.reply)).(cache := None)
      else s
    case TakePostFault(id, failOpen) =>
      if id in s.calls && s.calls[id].phase.PostFault? then PostFaultStep(s, id, s.calls[id].phase.reply, failOpen)
      else s
    case Lose(id) => s.(calls := s.calls - {id})
    case Restart => s.(calls := map[], cache := None, pending := map[])
    case PlanFault(rule, times) =>
      if s.faultsEnabled && rule.kind in FAULT_KINDS then s.(rules := s.rules + seq(times, _ => rule)) else s
    case ClearFaults => if s.faultsEnabled then s.(rules := []) else s
    case Settle(owner, paymentId, paid) =>
      if owner <= 0 then s
      else
        (match SettleWork(s.db, owner, paymentId, paid)
         case Err(_) => s
         case Ok((db, _)) => s.(db := db, log := s.log + [Settled(owner, paymentId, paid)]))
    case ReadStock(r) => if s.cache.None? then s.(pending := s.pending[r := s.db.deltas]) else s
    case StoreStock(r) => if r in s.pending then s.(cache := Some(s.pending[r]), pending := s.pending - {r}) else s
  }

  ghost function Run(m: Market, s: System, labels: seq<Label>): System {
    if labels == [] then s else Step(m, Run(m, s, labels[..|labels| - 1]), labels[|labels| - 1])
  }

  // --- serial replay -------------------------------------------------------------

  /** Apply one event to a database on its own; a second commit of a key has no meaning. */
  ghost function Apply(m: Market, db: Db, e: Event): Option<Db> {
    match e
    case Committed(_, call, env) =>
      if call.key in db.receipts then None
      else
        (match Transaction(m, db, call, env)
         case Err(_) => None
         case Ok((db', _)) => Some(db'))
    case Settled(owner, paymentId, paid) =>
      match SettleWork(db, owner, paymentId, paid)
      case Err(_) => None
      case Ok((db', _)) => Some(db')
  }

  /** Running the events one after the other from the empty database. */
  ghost function Serial(m: Market, log: seq<Event>): Option<Db> {
    if log == [] then Some(EMPTY)
    else
      match Serial(m, log[..|log| - 1])
      case None => None
      case Some(db) => Apply(m, db, log[|log| - 1])
  }
}
