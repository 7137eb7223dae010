/** The trading engine's public methods as steps on the tables (trading_engine.py), and runs of them. */
module EngineSpec {
  import opened Wrappers
  import opened PyText
  import opened OrderStatuses
  import opened Tables
  import opened TradingSafety
  import opened OrderMachine
  import PaperLedger
  import Risk

  /** `broker.get_quote`: a price, or None when it raises. */
  type Quote = Option<real>

  datatype Outcome = Outcome(store: Store, reply: Reply)

  function ConfirmationText(id: nat): string {
    "APPROVE " + DecimalText(id)
  }

  lemma ConfirmationStrips(id: nat)
    ensures Strip(ConfirmationText(id)) == ConfirmationText(id)
  {
    DecimalRoundTrip(id);
    var text := DecimalText(id);
    assert IsDigit(text[|text| - 1]);
    assert ConfirmationText(id)[|ConfirmationText(id)| - 1] == text[|text| - 1];
    StripKeepsEnds(ConfirmationText(id));
  }

  predicate Owns(s: Store, user: nat, id: nat) {
    id in s.orders && s.orders[id].terms.user == user
  }

  /** The row and the new events and calls of one order put back into the tables. */
  function Commit(s: Store, id: nat, w: Work): Store {
    s.(orders := s.orders[id := w.row], events := s.events + w.events, calls := s.calls + w.calls)
  }

  lemma CommitThen(s: Store, id: nat, w: Work, next: Work)
    ensures Commit(Commit(s, id, w), id, next) == Commit(s, id, Then(w, next))
  {
    assert s.events + w.events + next.events == s.events + (w.events + next.events);
    assert s.calls + w.calls + next.calls == s.calls + (w.calls + next.calls);
    assert s.orders[id := w.row][id := next.row] == s.orders[id := next.row];
  }

  lemma CommitNothing(s: Store, id: nat)
    requires id in s.orders
    ensures Commit(s, id, Work(s.orders[id], [], [])) == s
  {
    assert s.orders[id := s.orders[id]] == s.orders;
  }

  function WithNewOrder(s: Store, id: nat, terms: OrderTerms, kind: EventKind): Store {
    s.(orders := s.orders[id := FreshRow(terms)],
       events := s.events + [OrderEvent(id, None, PendingApproval, kind)])
  }

  /** The order's terms as the commit stores them. */
  function Settled(s: Store, id: nat): Store
    requires id in s.orders
  {
    s.(orders := s.orders[id := s.orders[id].(terms := Stored(s.orders[id].terms))])
  }

  /** A fill is booked where approve_order and refresh_order_status do it: not in cancel_order. */
  predicate Books(sys: Settings, before: OrderRow, act: Act, after: OrderRow) {
    && sys.mode == Paper && (act.Submit? || act.Refresh?)
    && before.status != Filled && after.status == Filled
  }

  /** One method run to its end on an existing order. */
  function Finish(sys: Settings, s: Store, id: nat, act: Act): (t: Store)
    requires id in s.orders
    ensures t.safety == s.safety && t.orders.Keys == s.orders.Keys
  {
    var w := Perform(id, s.orders[id], act).value;
    var t := Commit(s, id, w);
    if Books(sys, s.orders[id], act, w.row) then PaperLedger.WithFill(t, w.row.terms.user, w.row.terms) else t
  }

  lemma FinishNoted(sys: Settings, s: Store, id: nat, act: Act)
    requires id in s.orders && (act.Preview? || (act.Mismatch? && CanApprove(s.orders[id].status)))
    ensures Finish(sys, s, id, act)
         == Commit(s, id, Noted(id, s.orders[id], if act.Preview? then ApprovalPreviewed else ConfirmationFailed))
  {
  }

  lemma FinishBlocked(sys: Settings, s: Store, id: nat)
    requires id in s.orders && CanApprove(s.orders[id].status)
    ensures Finish(sys, s, id, Block) == Commit(s, id, Shifted(id, s.orders[id], Rejected, RejectedBySafety, None))
  {
  }

  lemma FinishSubmitted(sys: Settings, s: Store, id: nat, placed: BrokerAnswer, called: Work, w: Work)
    requires id in s.orders && CanApprove(s.orders[id].status) && called.row.terms == s.orders[id].terms
    requires PerformSubmit(id, Work(s.orders[id], [], []), placed) == AdvanceByPlacement(id, called, placed) == Success(w)
    ensures Finish(sys, s, id, Submit(placed)) ==
      if sys.mode == Paper && w.row.status == Filled then PaperLedger.WithFill(Commit(s, id, w), w.row.terms.user, w.row.terms)
      else Commit(s, id, w)
  {
  }

  lemma FinishBy(sys: Settings, s: Store, id: nat, act: Act, w: Work)
    requires id in s.orders && Perform(id, s.orders[id], act) == Success(w)
    ensures Finish(sys, s, id, act) ==
      if Books(sys, s.orders[id], act, w.row) then PaperLedger.WithFill(Commit(s, id, w), w.row.terms.user, w.row.terms)
      else Commit(s, id, w)
  {
  }

  lemma FinishUntouched(sys: Settings, s: Store, id: nat, act: Act)
    requires id in s.orders && Perform(id, s.orders[id], act) == Success(Work(s.orders[id], [], []))
    ensures Finish(sys, s, id, act) == s
  {
    CommitNothing(s, id);
  }

  /** The limit price, even when it is 0, or else a quote. */
  function ApprovalPrice(terms: OrderTerms, quote: Quote): Option<real> {
    if terms.limitPrice.Some? then Some(terms.limitPrice.value) else quote
  }

  function Notional(terms: OrderTerms, price: real): real {
    terms.quantity as real * price
  }

  /** `_order_safety_reasons` gives at least one reason. */
  predicate SafetyBlocks(sys: Settings, row: SafetyRow, terms: OrderTerms, price: real) {
    || Notional(terms, price) > EffectiveMaxOrder(row, sys) as real
    || (sys.Live() && !EffectiveLive(row, sys))
  }

  /** What approve_order does with an approvable order, which may be safe to submit or not. */
  function ActFor(id: nat, text: string, safe: bool, placed: BrokerAnswer): Act {
    if Strip(text) != ConfirmationText(id) then Mismatch else if !safe then Block else Submit(placed)
  }

  function ApprovalAct(sys: Settings, row: SafetyRow, id: nat, terms: OrderTerms, text: string, price: real, placed: BrokerAnswer): Act {
    ActFor(id, text, !SafetyBlocks(sys, row, terms, price), placed)
  }

  function Acted(sys: Settings, s: Store, id: nat, act: Act): (r: Outcome)
    requires id in s.orders
    ensures r.store.safety == s.safety && r.store.orders.Keys == s.orders.Keys
  {
    Outcome(Finish(sys, s, id, act), if act.Mismatch? then ConfirmationMismatch else Returned)
  }

  /** The request body of a manual order. */
  datatype OrderCreate = OrderCreate(
    symbol: string, side: Side, quantity: Quantity, orderType: OrderType, limitPrice: Option<Price>)

  function ManualTerms(user: nat, create: OrderCreate): OrderTerms {
    OrderTerms(user, Upper(create.symbol), create.side, create.quantity, create.orderType, create.limitPrice)
  }

  function ManualOrder(s: Store, user: nat, id: nat, create: OrderCreate): Outcome {
    if id in s.orders then Outcome(s, DuplicateId)
    else Outcome(Settled(WithNewOrder(s, id, ManualTerms(user, create), ManualOrderStaged), id), Returned)
  }

  function PreviewApproval(sys: Settings, s: Store, user: nat, id: nat, quote: Quote): (r: Outcome)
    ensures r.store.safety in {s.safety, WithSafety(sys, s, user).safety}
  {
    if !Owns(s, user, id) then Outcome(s, NotFound)
    else if ApprovalPrice(s.orders[id].terms, quote).None? then Outcome(s, QuoteFailed)
    else Outcome(Finish(sys, WithSafety(sys, s, user), id, Preview), Returned)
  }

  function Approve(sys: Settings, s: Store, user: nat, id: nat, text: string, quote: Quote, placed: BrokerAnswer): (r: Outcome)
    ensures r.store.safety in {s.safety, WithSafety(sys, s, user).safety} && r.store.orders.Keys == s.orders.Keys
  {
    if !Owns(s, user, id) then Outcome(s, NotFound)
    else if !CanApprove(s.orders[id].status) then Outcome(s, Returned)
    else
      match ApprovalPrice(s.orders[id].terms, quote)
      case None => Outcome(s, QuoteFailed)
      case Some(price) =>
        Acted(sys, WithSafety(sys, s, user), id, ApprovalAct(sys, SafetyOf(sys, s, user), id, s.orders[id].terms, text, price, placed))
  }

  lemma ApprovePriced(sys: Settings, s: Store, user: nat, id: nat, text: string, quote: Quote, placed: BrokerAnswer, price: real, safe: bool)
    requires Owns(s, user, id) && CanApprove(s.orders[id].status) && ApprovalPrice(s.orders[id].terms, quote) == Some(price)
    requires safe <==> !SafetyBlocks(sys, SafetyOf(sys, s, user), s.orders[id].terms, price)
    ensures Approve(sys, s, user, id, text, quote, placed) == Acted(sys, WithSafety(sys, s, user), id, ActFor(id, text, safe, placed))
  {
  }

  function CancelOrder(sys: Settings, s: Store, user: nat, id: nat, answer: BrokerAnswer): Outcome {
    if !Owns(s, user, id) then Outcome(s, NotFound) else Outcome(Finish(sys, s, id, Act.Cancel(answer)), Returned)
  }

  function RefreshStatus(sys: Settings, s: Store, user: nat, id: nat, answer: BrokerAnswer): Outcome {
    if !Owns(s, user, id) then Outcome(s, NotFound) else Outcome(Finish(sys, s, id, Act.Refresh(answer)), Returned)
  }

  /** A decision that is executed without a person: the switch is on, the gate says APPROVED, and
      it trades. */
  predicate AutoExecutes(sys: Settings, c: Risk.RiskCase) {
    sys.autoExecute && c.Verdict() == Risk.Approved && c.decision.action.Trade?
  }

  lemma ApprovedTradeHasShares(c: Risk.RiskCase)
    requires c.Verdict() == Risk.Approved && c.decision.action.Trade?
    ensures c.decision.quantity > 0
  {
    assert c.decision.quantity == 0 ==> c.Applies(Risk.QuantityNotPositive);
  }

  function DecidedTerms(user: nat, c: Risk.RiskCase): OrderTerms
    requires c.Verdict() == Risk.Approved && c.decision.action.Trade?
  {
    ApprovedTradeHasShares(c);
    var d := c.decision;
    OrderTerms(user, d.symbol, d.action.side, d.quantity, d.orderType, d.limitPrice)
  }

  /** The approval of a new order and the commit that ends it. */
  function ApproveAndSettle(sys: Settings, s: Store, user: nat, id: nat, quote: Quote, placed: BrokerAnswer): (r: Outcome)
    requires id in s.orders
    ensures r.store.safety in {s.safety, WithSafety(sys, s, user).safety}
    ensures r.reply == QuoteFailed ==> r.store == s
  {
    var approved := Approve(sys, s, user, id, ConfirmationText(id), quote, placed);
    if approved.reply == QuoteFailed then approved else Outcome(Settled(approved.store, id), approved.reply)
  }

  /** `_create_order_from_decision`: the order is priced, placed and filled at the decision's own
      limit price before the commit rounds it. */
  function Execute(sys: Settings, s: Store, user: nat, id: nat, terms: OrderTerms, quote: Quote, placed: BrokerAnswer): (r: Outcome)
    ensures r.store.safety in {s.safety, WithSafety(sys, s, user).safety}
    ensures r.reply == DuplicateId ==> r.store == s
    ensures r.reply == QuoteFailed ==> id !in s.orders && r.store == WithNewOrder(s, id, terms, AiDecisionOrderCreated)
  {
    if id in s.orders then Outcome(s, DuplicateId)
    else
      ApproveAndSettle(sys, WithNewOrder(s, id, terms, AiDecisionOrderCreated), user, id, quote, placed)
  }

  /** An exception on the way leaves the transaction uncommitted: nothing is kept of what followed
      the given settings. */
  function ExecuteOrRollBack(sys: Settings, s: Store, user: nat, id: nat, terms: OrderTerms, quote: Quote, placed: BrokerAnswer,
                             safety: map<nat, SafetyRow>): Outcome {
    var executed := Execute(sys, s, user, id, terms, quote, placed);
    if executed.reply in {DuplicateId, QuoteFailed} then Outcome(s.(safety := safety), executed.reply) else executed
  }

  function RunDecision(sys: Settings, s: Store, user: nat, id: nat, requested: Option<nat>, d: Risk.Decision,
                       snapshotPrice: real, quote: Quote, placed: BrokerAnswer): (r: Outcome)
    ensures r.store.safety in {s.safety, WithSafety(sys, s, user).safety}
  {
    var t := WithSafety(sys, s, user);
    var c := Risk.CaseFor(sys, SafetyOf(sys, s, user), requested, d, snapshotPrice);
    if !AutoExecutes(sys, c) then Outcome(t, Returned)
    else
      assert WithSafety(sys, t, user).safety == t.safety;
      ExecuteOrRollBack(sys, t, user, id, DecidedTerms(user, c), quote, placed, s.safety)
  }

  function UpdateSafety(sys: Settings, s: Store, user: nat, payload: SafetyRow): Outcome {
    if WithinSystemLimits(payload, sys) then Outcome(s.(safety := s.safety[user := payload]), Returned)
    else Outcome(s, BadSettings)
  }

  /** One request to the engine by a user, with everything its environment answers. */
  datatype Op =
    | CreateManual(user: nat, id: nat, create: OrderCreate)
    | PreviewOrder(user: nat, id: nat, quote: Quote)
    | ApproveOrder(user: nat, id: nat, text: string, quote: Quote, placed: BrokerAnswer)
    | Cancel(user: nat, id: nat, answer: BrokerAnswer)
    | Refresh(user: nat, id: nat, answer: BrokerAnswer)
    | Decide(user: nat, id: nat, requested: Option<nat>, decision: Risk.Decision, snapshotPrice: real, quote: Quote, placed: BrokerAnswer)
    | SetSafety(user: nat, payload: SafetyRow)

  /** The risk gate's view of a decision request. */
  function CaseOf(sys: Settings, s: Store, op: Op): Risk.RiskCase
    requires op.Decide?
  {
    Risk.CaseFor(sys, SafetyOf(sys, s, op.user), op.requested, op.decision, op.snapshotPrice)
  }

  function Step(sys: Settings, s: Store, op: Op): Outcome {
    match op
    case CreateManual(user, id, create) => ManualOrder(s, user, id, create)
    case PreviewOrder(user, id, quote) => PreviewApproval(sys, s, user, id, quote)
    case ApproveOrder(user, id, text, quote, placed) => Approve(sys, s, user, id, text, quote, placed)
    case Cancel(user, id, answer) => CancelOrder(sys, s, user, id, answer)
    case Refresh(user, id, answer) => RefreshStatus(sys, s, user, id, answer)
    case Decide(user, id, requested, d, price, quote, placed) => RunDecision(sys, s, user, id, requested, d, price, quote, placed)
    case SetSafety(user, payload) => UpdateSafety(sys, s, user, payload)
  }

  function Run(sys: Settings, s: Store, ops: seq<Op>): Store {
    if ops == [] then s else Step(sys, Run(sys, s, ops[..|ops| - 1]), ops[|ops| - 1]).store
  }

  const EMPTY: Store := Store(map[], [], map[], map[], [])
}
