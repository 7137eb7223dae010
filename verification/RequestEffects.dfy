/** What each request leaves behind, written out in the columns of the tables (trading_engine.py):
    who may make it, when it happens, and what it does then. */
module RequestEffects {
  import opened Wrappers
  import opened PyText
  import opened OrderStatuses
  import opened Tables
  import opened TradingSafety
  import opened OrderMachine
  import opened EngineSpec
  import opened EngineRuns
  import PaperLedger
  import Risk

  // ---------------------------------------------------------------------------------------------
  // Settings
  // ---------------------------------------------------------------------------------------------

  /** The user's row, or the system's caps with manual approval on and the live opt-in off. */
  function InForce(sys: Settings, s: Store, user: nat): SafetyRow {
    if user in s.safety then s.safety[user] else SafetyRow(sys.maxOrder, sys.maxPosition, sys.minConfidence, true, false)
  }

  /** The caps in force are the smallest, and the floor the largest, of those that apply. */
  lemma EffectiveSettingsExactly(row: SafetyRow, sys: Settings, requested: Option<nat>, n: real)
    ensures n <= EffectiveMaxOrder(row, sys) as real <==> n <= row.maxOrder as real && n <= sys.maxOrder as real
    ensures n <= EffectiveMaxPosition(row, sys, requested) as real <==>
      n <= row.maxPosition as real && n <= sys.maxPosition as real && (requested.Some? ==> n <= requested.value as real)
    ensures EffectiveMinConfidence(row, sys) <= n <==> row.minConfidence <= n && sys.minConfidence <= n
    ensures EffectiveLive(row, sys) <==> sys.mode != Paper && sys.allowLive && sys.understandRisk && row.liveOptIn
  {
  }

  lemma SettingsInForce(sys: Settings, s: Store, user: nat)
    ensures SafetyOf(sys, s, user) == InForce(sys, s, user)
  {
  }

  /** A change of settings is stored exactly when it stays within the system's. */
  lemma SettingsChange(sys: Settings, s: Store, op: Op)
    requires op.SetSafety?
    ensures
      if op.payload.maxOrder <= sys.maxOrder && op.payload.maxPosition <= sys.maxPosition
         && op.payload.minConfidence >= sys.minConfidence
         && (op.payload.liveOptIn ==> sys.mode != Paper && sys.allowLive && sys.understandRisk)
      then Step(sys, s, op) == Outcome(s.(safety := s.safety[op.user := op.payload]), Returned)
      else Step(sys, s, op) == Outcome(s, BadSettings)
  {
  }

  // ---------------------------------------------------------------------------------------------
  // Staging and preview
  // ---------------------------------------------------------------------------------------------

  /** A manual order is stored as it was asked for, with its price rounded, and waits for approval. */
  lemma ManualOrderEffect(sys: Settings, s: Store, op: Op)
    requires op.CreateManual?
    ensures op.id in s.orders ==> Step(sys, s, op) == Outcome(s, DuplicateId)
    ensures op.id !in s.orders ==>
      && Step(sys, s, op).reply == Returned
      && op.id in Step(sys, s, op).store.orders
      && IsManual(op.user, op.create, Step(sys, s, op).store.orders[op.id])
      && Step(sys, s, op).store == s.(
           orders := s.orders[op.id := Step(sys, s, op).store.orders[op.id]],
           events := s.events + [OrderEvent(op.id, None, PendingApproval, ManualOrderStaged)])
  {
  }

  predicate IsManual(user: nat, create: OrderCreate, row: OrderRow) {
    && row.terms.user == user && row.terms.symbol == Upper(create.symbol)
    && row.terms.side == create.side && row.terms.quantity == create.quantity && row.terms.orderType == create.orderType
    && row.terms.limitPrice == (if create.limitPrice.Some? then Some(RoundHundredths(create.limitPrice.value)) else None)
    && row.status == PendingApproval && row.brokerOrderId == None && row.attempts == 0 && row.stamps == {}
  }

  predicate OnOrder(op: Op) {
    op.PreviewOrder? || op.ApproveOrder? || op.Cancel? || op.Refresh?
  }

  /** The order exists and belongs to the requesting user. */
  predicate Owned(s: Store, op: Op)
    requires OnOrder(op)
  {
    op.id in s.orders && s.orders[op.id].terms.user == op.user
  }

  /** Nobody reaches a missing order or another user's. */
  lemma ForeignOrderIsNotFound(sys: Settings, s: Store, op: Op)
    requires OnOrder(op) && !Owned(s, op)
    ensures Step(sys, s, op) == Outcome(s, NotFound)
  {
  }

  /** The price at which an order is approved: its limit price, whatever it is, or else the quote. */
  predicate PricedAt(terms: OrderTerms, quote: Quote, price: real) {
    terms.limitPrice == Some(price) || (terms.limitPrice == None && quote == Some(price))
  }

  lemma PriceExactly(terms: OrderTerms, quote: Quote, price: real)
    ensures PricedAt(terms, quote, price) <==> ApprovalPrice(terms, quote) == Some(price)
  {
  }

  predicate Unpriced(terms: OrderTerms, quote: Quote) {
    terms.limitPrice == None && quote == None
  }

  lemma PreviewEffect(sys: Settings, s: Store, op: Op)
    requires op.PreviewOrder? && Owned(s, op)
    ensures Unpriced(s.orders[op.id].terms, op.quote) ==> Step(sys, s, op) == Outcome(s, QuoteFailed)
    ensures !Unpriced(s.orders[op.id].terms, op.quote) ==> Step(sys, s, op) == Outcome(s.(
      safety := s.safety[op.user := InForce(sys, s, op.user)],
      events := s.events + [OrderEvent(op.id, Some(s.orders[op.id].status), s.orders[op.id].status, ApprovalPreviewed)]), Returned)
  {
    var w := Perform(op.id, s.orders[op.id], Preview).value;
    assert s.orders[op.id := w.row] == s.orders && s.calls + w.calls == s.calls;
  }

  // ---------------------------------------------------------------------------------------------
  // Approval
  // ---------------------------------------------------------------------------------------------

  /** The order may go to the broker at this price: within both order caps, and in the live modes
      with the system's two switches and the user's opt-in on. */
  predicate Safe(sys: Settings, row: SafetyRow, terms: OrderTerms, price: real) {
    && terms.quantity as real * price <= row.maxOrder as real
    && terms.quantity as real * price <= sys.maxOrder as real
    && (sys.mode != Paper ==> sys.allowLive && sys.understandRisk && row.liveOptIn)
  }

  lemma SafeExactly(sys: Settings, row: SafetyRow, terms: OrderTerms, price: real)
    ensures Safe(sys, row, terms, price) <==> !SafetyBlocks(sys, row, terms, price)
  {
    EffectiveSettingsExactly(row, sys, None, Notional(terms, price));
  }

  predicate Waits(row: OrderRow) {
    row.status == PendingApproval || row.status == SubmissionFailed
  }

  predicate Confirms(text: string, id: nat) {
    Strip(text) == "APPROVE " + DecimalText(id)
  }

  /** An approval that must submit: of the user's own order, waiting or failed before, confirmed by
      its text, priced, and safe. */
  ghost predicate MustSubmit(sys: Settings, s: Store, op: Op)
    requires op.ApproveOrder?
  {
    && Owned(s, op) && Waits(s.orders[op.id]) && Confirms(op.text, op.id)
    && exists price :: PricedAt(s.orders[op.id].terms, op.quote, price)
         && Safe(sys, InForce(sys, s, op.user), s.orders[op.id].terms, price)
  }

  /** An approval that does not get as far as the confirmation. */
  lemma ApprovalRefused(sys: Settings, s: Store, op: Op)
    requires op.ApproveOrder? && Owned(s, op)
    ensures !Waits(s.orders[op.id]) ==> Step(sys, s, op) == Outcome(s, Returned)
    ensures Waits(s.orders[op.id]) && Unpriced(s.orders[op.id].terms, op.quote) ==> Step(sys, s, op) == Outcome(s, QuoteFailed)
  {
  }

  /** The store after an approval that got that far and then changed one order to this row. */
  function ApprovalLeaves(sys: Settings, s: Store, op: Op, row: OrderRow, events: seq<OrderEvent>): Store
    requires op.ApproveOrder?
  {
    s.(orders := s.orders[op.id := row], events := s.events + events, safety := s.safety[op.user := InForce(sys, s, op.user)])
  }

  lemma WrongTextEffect(sys: Settings, s: Store, op: Op)
    requires op.ApproveOrder? && Owned(s, op) && Waits(s.orders[op.id]) && !Unpriced(s.orders[op.id].terms, op.quote)
    requires !Confirms(op.text, op.id)
    ensures Step(sys, s, op) == Outcome(ApprovalLeaves(sys, s, op, s.orders[op.id],
      [OrderEvent(op.id, Some(s.orders[op.id].status), s.orders[op.id].status, ConfirmationFailed)]), ConfirmationMismatch)
  {
    var t := WithSafety(sys, s, op.user);
    FinishNoted(sys, t, op.id, Mismatch);
    assert s.calls + [] == s.calls;
  }

  lemma UnsafeEffect(sys: Settings, s: Store, op: Op, price: real)
    requires op.ApproveOrder? && Owned(s, op) && Waits(s.orders[op.id]) && Confirms(op.text, op.id)
    requires PricedAt(s.orders[op.id].terms, op.quote, price) && !Safe(sys, InForce(sys, s, op.user), s.orders[op.id].terms, price)
    ensures Step(sys, s, op) == Outcome(ApprovalLeaves(sys, s, op,
      s.orders[op.id].(status := Rejected, stamps := s.orders[op.id].stamps + {RejectedAt}),
      [OrderEvent(op.id, Some(s.orders[op.id].status), Rejected, RejectedBySafety)]), Returned)
  {
    var t := WithSafety(sys, s, op.user);
    SafeExactly(sys, InForce(sys, s, op.user), s.orders[op.id].terms, price);
    FinishBlocked(sys, t, op.id);
    assert s.calls + [] == s.calls;
  }

  /** The status that a placement ends in. */
  function PlacedStatus(placed: BrokerAnswer): Status {
    if placed.Raised? then SubmissionFailed else NormalizeBrokerStatus(placed.status)
  }

  /** A submitted order: one more attempt, the three stamps, and the broker's id if it gave one. */
  function SubmittedRow(row: OrderRow, placed: BrokerAnswer): OrderRow {
    OrderRow(row.terms, PlacedStatus(placed),
      if placed.Answered? && placed.brokerOrderId.Some? then placed.brokerOrderId else row.brokerOrderId,
      row.attempts + 1, row.stamps + {ApprovedAt, SubmittedAt} + StampFor(PlacedStatus(placed)))
  }

  function SubmissionEvents(id: nat, row: OrderRow, placed: BrokerAnswer): seq<OrderEvent> {
    [OrderEvent(id, Some(row.status), Approved, OrderApproved),
     OrderEvent(id, Some(Approved), Submitting, BrokerSubmitStarted),
     OrderEvent(id, Some(Submitting), PlacedStatus(placed), if placed.Raised? then BrokerSubmitFailed else BrokerSubmitResult)]
  }

  lemma SubmissionWork(id: nat, row: OrderRow, placed: BrokerAnswer)
    requires Waits(row)
    ensures Perform(id, row, Submit(placed)).value
         == Work(SubmittedRow(row, placed), SubmissionEvents(id, row, placed), [PlaceCall(id, row.terms, placed)])
  {
    SubmitStarts(id, row, placed);
  }

  /** A submission makes exactly one call, for the order's own terms, and in paper mode books the
      order if the broker fills it at once. */
  lemma SubmissionEffect(sys: Settings, s: Store, op: Op)
    requires op.ApproveOrder? && MustSubmit(sys, s, op)
    ensures Step(sys, s, op).reply == Returned
    ensures Step(sys, s, op).store.orders == s.orders[op.id := SubmittedRow(s.orders[op.id], op.placed)]
    ensures Step(sys, s, op).store.events == s.events + SubmissionEvents(op.id, s.orders[op.id], op.placed)
    ensures Step(sys, s, op).store.calls == s.calls + [PlaceCall(op.id, s.orders[op.id].terms, op.placed)]
    ensures Step(sys, s, op).store.positions
         == if sys.mode == Paper && PlacedStatus(op.placed) == Filled
            then PaperLedger.WithFill(s, op.user, s.orders[op.id].terms).positions else s.positions
    ensures Step(sys, s, op).store.safety == s.safety[op.user := InForce(sys, s, op.user)]
  {
    var terms := s.orders[op.id].terms;
    var price :| PricedAt(terms, op.quote, price) && Safe(sys, InForce(sys, s, op.user), terms, price);
    SafeExactly(sys, InForce(sys, s, op.user), terms, price);
    ApprovePriced(sys, s, op.user, op.id, op.text, op.quote, op.placed, price, true);
    SubmissionWork(op.id, s.orders[op.id], op.placed);
  }

  /** An approval calls the broker if and only if it must. */
  lemma ApprovalCallsExactly(sys: Settings, s: Store, op: Op)
    requires op.ApproveOrder?
    ensures Step(sys, s, op).store.calls
         == if MustSubmit(sys, s, op) then s.calls + [PlaceCall(op.id, s.orders[op.id].terms, op.placed)] else s.calls
  {
    if !Owned(s, op) {
      ForeignOrderIsNotFound(sys, s, op);
    } else if !Waits(s.orders[op.id]) || Unpriced(s.orders[op.id].terms, op.quote) {
      ApprovalRefused(sys, s, op);
    } else if !Confirms(op.text, op.id) {
      WrongTextEffect(sys, s, op);
    } else if MustSubmit(sys, s, op) {
      SubmissionEffect(sys, s, op);
    } else {
      var terms := s.orders[op.id].terms;
      var price := if terms.limitPrice.Some? then terms.limitPrice.value else op.quote.value;
      assert PricedAt(terms, op.quote, price);
      UnsafeEffect(sys, s, op, price);
    }
  }

  // ---------------------------------------------------------------------------------------------
  // Cancel and refresh
  // ---------------------------------------------------------------------------------------------

  /** The broker knows the order under an id. */
  predicate KnownToBroker(row: OrderRow) {
    row.brokerOrderId != None && row.brokerOrderId != Some("")
  }

  predicate IsFinal(row: OrderRow) {
    row.status == Filled || row.status == Rejected || row.status == Canceled
  }

  /** The store after a cancel or a refresh changed the row and appended one event about it. */
  function PollLeaves(s: Store, id: nat, row: OrderRow, kind: EventKind): Store
    requires id in s.orders
  {
    s.(orders := s.orders[id := row], events := s.events + [OrderEvent(id, Some(s.orders[id].status), row.status, kind)])
  }

  /** A cancel of a final order, or of one whose submission is under way, changes nothing. */
  lemma CancelRefused(sys: Settings, s: Store, op: Op)
    requires op.Cancel? && Owned(s, op) && (IsFinal(s.orders[op.id]) || s.orders[op.id].status == Submitting)
    ensures Step(sys, s, op) == Outcome(s, Returned)
  {
    FinishUntouched(sys, s, op.id, Act.Cancel(op.answer));
  }

  /** An order that the broker has not reliably taken, or has no id for, is canceled at once, and the
      broker is not asked. */
  lemma LocalCancelEffect(sys: Settings, s: Store, op: Op)
    requires op.Cancel? && Owned(s, op)
    requires s.orders[op.id].status == PendingApproval || s.orders[op.id].status == Approved || s.orders[op.id].status == SubmissionFailed
      || ((s.orders[op.id].status == Submitted || s.orders[op.id].status == PartiallyFilled) && !KnownToBroker(s.orders[op.id]))
    ensures Step(sys, s, op) == Outcome(PollLeaves(s, op.id,
      s.orders[op.id].(status := Canceled, stamps := s.orders[op.id].stamps + {CanceledAt}), OrderCanceled), Returned)
  {
    FinishBy(sys, s, op.id, Act.Cancel(op.answer), Shifted(op.id, s.orders[op.id], Canceled, OrderCanceled, None));
    assert s.calls + [] == s.calls;
  }

  /** The row after a broker's answer: the reported status if the table allows it, else the old one,
      and the id if the broker gave one. A call that raises leaves status and id. */
  function AnsweredRow(row: OrderRow, answer: BrokerAnswer): OrderRow {
    var status := if answer.Answered? && CanTransition(row.status, NormalizeBrokerStatus(answer.status))
                  then NormalizeBrokerStatus(answer.status) else row.status;
    OrderRow(row.terms, status,
      if answer.Answered? && answer.brokerOrderId.Some? then answer.brokerOrderId else row.brokerOrderId,
      row.attempts, row.stamps + StampFor(status))
  }

  lemma BrokerCancelEffect(sys: Settings, s: Store, op: Op)
    requires op.Cancel? && Owned(s, op) && KnownToBroker(s.orders[op.id])
    requires s.orders[op.id].status == Submitted || s.orders[op.id].status == PartiallyFilled
    ensures Step(sys, s, op) == Outcome(PollLeaves(s, op.id, AnsweredRow(s.orders[op.id], op.answer),
      if op.answer.Raised? then BrokerCancelFailed else BrokerCancelResult), Returned)
  {
    BrokerWork(op.id, s.orders[op.id], op.answer, BrokerCancelFailed, BrokerCancelResult);
    assert s.calls + [] == s.calls;
  }

  /** A final order is not refreshed; one without a broker id keeps its status. */
  lemma LocalRefreshEffect(sys: Settings, s: Store, op: Op)
    requires op.Refresh? && Owned(s, op)
    ensures IsFinal(s.orders[op.id]) ==> Step(sys, s, op) == Outcome(s, Returned)
    ensures !IsFinal(s.orders[op.id]) && !KnownToBroker(s.orders[op.id]) ==>
      Step(sys, s, op) == Outcome(PollLeaves(s, op.id,
        s.orders[op.id].(stamps := s.orders[op.id].stamps + StampFor(s.orders[op.id].status)), StatusRefreshed), Returned)
  {
    if IsFinal(s.orders[op.id]) {
      FinishUntouched(sys, s, op.id, Act.Refresh(op.answer));
    } else if !KnownToBroker(s.orders[op.id]) {
      FinishBy(sys, s, op.id, Act.Refresh(op.answer), Shifted(op.id, s.orders[op.id], s.orders[op.id].status, StatusRefreshed, None));
      assert s.calls + [] == s.calls;
    }
  }

  /** The other orders take the broker's answer, and in paper mode a fill is booked when it is first
      reported. */
  lemma BrokerRefreshEffect(sys: Settings, s: Store, op: Op)
    requires op.Refresh? && Owned(s, op) && !IsFinal(s.orders[op.id]) && KnownToBroker(s.orders[op.id])
    ensures Step(sys, s, op).reply == Returned
    ensures Step(sys, s, op).store.(positions := s.positions)
         == PollLeaves(s, op.id, AnsweredRow(s.orders[op.id], op.answer),
              if op.answer.Raised? then BrokerRefreshFailed else BrokerStatusRefreshed)
    ensures Step(sys, s, op).store.positions
         == if sys.mode == Paper && AnsweredRow(s.orders[op.id], op.answer).status == Filled
            then PaperLedger.WithFill(s, op.user, s.orders[op.id].terms).positions else s.positions
  {
    PolledByRefresh(sys, s, op.id, op.answer);
  }

  lemma PolledByRefresh(sys: Settings, s: Store, id: nat, answer: BrokerAnswer)
    requires id in s.orders && !IsFinal(s.orders[id]) && KnownToBroker(s.orders[id])
    ensures var t := Finish(sys, s, id, Act.Refresh(answer));
      && t.(positions := s.positions) == PollLeaves(s, id, AnsweredRow(s.orders[id], answer),
           if answer.Raised? then BrokerRefreshFailed else BrokerStatusRefreshed)
      && t.positions == if sys.mode == Paper && AnsweredRow(s.orders[id], answer).status == Filled
           then PaperLedger.WithFill(s, s.orders[id].terms.user, s.orders[id].terms).positions else s.positions
  {
    var row := AnsweredRow(s.orders[id], answer);
    var w := Work(row, [OrderEvent(id, Some(s.orders[id].status), row.status,
      if answer.Raised? then BrokerRefreshFailed else BrokerStatusRefreshed)], []);
    BrokerWork(id, s.orders[id], answer, BrokerRefreshFailed, BrokerStatusRefreshed);
    FinishBy(sys, s, id, Act.Refresh(answer), w);
    assert s.calls + [] == s.calls;
  }

  // ---------------------------------------------------------------------------------------------
  // Decisions
  // ---------------------------------------------------------------------------------------------

  /** The risk gate approves a trade. */
  predicate GateApproves(sys: Settings, s: Store, op: Op)
    requires op.Decide?
  {
    op.decision.action.Trade? && Risk.CaseFor(sys, InForce(sys, s, op.user), op.requested, op.decision, op.snapshotPrice).Verdict() == Risk.Approved
  }

  lemma ExecutesExactly(sys: Settings, s: Store, op: Op)
    requires op.Decide?
    ensures AutoExecutes(sys, CaseOf(sys, s, op)) <==> sys.autoExecute && GateApproves(sys, s, op)
    ensures GateApproves(sys, s, op) ==> op.decision.quantity > 0
    ensures AutoExecutes(sys, CaseOf(sys, s, op)) ==> DecidedTerms(op.user, CaseOf(sys, s, op)) == Ordered(op)
  {
    SettingsInForce(sys, s, op.user);
    if GateApproves(sys, s, op) {
      ApprovedTradeHasShares(CaseOf(sys, s, op));
    }
  }

  /** What the decision orders, with its own unrounded limit price. */
  function Ordered(op: Op): OrderTerms
    requires op.Decide? && op.decision.action.Trade? && op.decision.quantity > 0
  {
    var d := op.decision;
    OrderTerms(op.user, d.symbol, d.action.side, d.quantity, d.orderType, d.limitPrice)
  }

  /** With the switch off, or a gate that does not approve, or nothing to trade, a decision leaves
      nothing but the user's settings row. */
  lemma DecisionWithoutOrder(sys: Settings, s: Store, op: Op)
    requires op.Decide? && (!sys.autoExecute || !GateApproves(sys, s, op))
    ensures Step(sys, s, op) == Outcome(s.(safety := s.safety[op.user := InForce(sys, s, op.user)]), Returned)
  {
    ExecutesExactly(sys, s, op);
  }

  /** A decision that executes but cannot create or price its order leaves nothing at all. */
  lemma DecisionRolledBack(sys: Settings, s: Store, op: Op)
    requires op.Decide? && sys.autoExecute && GateApproves(sys, s, op)
    ensures op.id in s.orders ==> Step(sys, s, op) == Outcome(s, DuplicateId)
    ensures op.id !in s.orders && op.decision.limitPrice == None && op.quote == None ==> Step(sys, s, op) == Outcome(s, QuoteFailed)
  {
    ExecutesExactly(sys, s, op);
  }

  /** A decision that must be placed: the switch is on, the gate approves, the id is new, and the
      order is priced and safe. */
  ghost predicate MustPlace(sys: Settings, s: Store, op: Op)
    requires op.Decide?
  {
    && sys.autoExecute && GateApproves(sys, s, op) && op.decision.quantity > 0 && op.id !in s.orders
    && exists price :: PricedAt(Ordered(op), op.quote, price) && Safe(sys, InForce(sys, s, op.user), Ordered(op), price)
  }

  /** The row of an order that was created and worked on in one transaction. */
  function NewRow(w: OrderRow): OrderRow {
    w.(terms := w.terms.(limitPrice := if w.terms.limitPrice.Some? then Some(RoundHundredths(w.terms.limitPrice.value)) else None))
  }

  lemma StoredExactly(w: OrderRow)
    ensures NewRow(w) == w.(terms := Stored(w.terms))
  {
  }

  lemma ExecutedPlan(sys: Settings, s: Store, op: Op, price: real)
    requires op.Decide? && sys.autoExecute && GateApproves(sys, s, op) && op.decision.quantity > 0 && op.id !in s.orders
    requires PricedAt(Ordered(op), op.quote, price)
    ensures PlanOf(sys, s, op) == StagesAndActs(op.id, Ordered(op),
      if Safe(sys, InForce(sys, s, op.user), Ordered(op), price) then Submit(op.placed) else Block)
  {
    ExecutesExactly(sys, s, op);
    SafeExactly(sys, InForce(sys, s, op.user), Ordered(op), price);
    ConfirmationStrips(op.id);
  }

  /** The new order goes to the broker in the same request, for the terms that were decided. It is
      stored with its price rounded, but a fill in paper mode is booked at the decided price. */
  lemma PlacementEffect(sys: Settings, s: Store, op: Op)
    requires op.Decide? && MustPlace(sys, s, op)
    ensures Step(sys, s, op).store.orders == s.orders[op.id := NewRow(SubmittedRow(FreshRow(Ordered(op)), op.placed))]
    ensures Step(sys, s, op).store.events == s.events + [OrderEvent(op.id, None, PendingApproval, AiDecisionOrderCreated)]
      + SubmissionEvents(op.id, FreshRow(Ordered(op)), op.placed)
    ensures Step(sys, s, op).store.calls == s.calls + [PlaceCall(op.id, Ordered(op), op.placed)]
    ensures Step(sys, s, op).store.positions
         == if sys.mode == Paper && PlacedStatus(op.placed) == Filled
            then PaperLedger.WithFill(s, op.user, Ordered(op)).positions else s.positions
  {
    var price :| PricedAt(Ordered(op), op.quote, price) && Safe(sys, InForce(sys, s, op.user), Ordered(op), price);
    ExecutedPlan(sys, s, op, price);
    StepFollowsPlan(sys, s, op);
    PlacedPlan(sys, s, op.id, Ordered(op), op.placed);
  }

  lemma PlacedPlan(sys: Settings, s: Store, id: nat, terms: OrderTerms, placed: BrokerAnswer)
    requires id !in s.orders
    ensures Applied(sys, s, StagesAndActs(id, terms, Submit(placed))) == s.(
      orders := s.orders[id := NewRow(SubmittedRow(FreshRow(terms), placed))],
      events := s.events + [OrderEvent(id, None, PendingApproval, AiDecisionOrderCreated)] + SubmissionEvents(id, FreshRow(terms), placed),
      calls := s.calls + [PlaceCall(id, terms, placed)],
      positions := if sys.mode == Paper && PlacedStatus(placed) == Filled then PaperLedger.WithFill(s, terms.user, terms).positions else s.positions)
  {
    var staged, row := WithNewOrder(s, id, terms, AiDecisionOrderCreated), SubmittedRow(FreshRow(terms), placed);
    var w := Work(row, SubmissionEvents(id, FreshRow(terms), placed), [PlaceCall(id, terms, placed)]);
    SubmissionWork(id, FreshRow(terms), placed);
    FinishBy(sys, staged, id, Submit(placed), w);
    FillSeesPositionsOnly(s, Commit(staged, id, w), terms.user, terms);
    StoredExactly(row);
    assert staged.orders[id := row][id := NewRow(row)] == s.orders[id := NewRow(row)];
  }

  lemma FillSeesPositionsOnly(s: Store, t: Store, user: nat, terms: OrderTerms)
    requires t.positions == s.positions
    ensures PaperLedger.WithFill(t, user, terms) == t.(positions := PaperLedger.WithFill(s, user, terms).positions)
  {
  }

  /** An unsafe one is created and rejected, and the broker is not called. */
  lemma UnsafeDecisionEffect(sys: Settings, s: Store, op: Op, price: real)
    requires op.Decide? && sys.autoExecute && GateApproves(sys, s, op) && op.decision.quantity > 0 && op.id !in s.orders
    requires PricedAt(Ordered(op), op.quote, price) && !Safe(sys, InForce(sys, s, op.user), Ordered(op), price)
    ensures Step(sys, s, op).store.orders
         == s.orders[op.id := NewRow(FreshRow(Ordered(op)).(status := Rejected, stamps := {RejectedAt}))]
    ensures Step(sys, s, op).store.events == s.events + [OrderEvent(op.id, None, PendingApproval, AiDecisionOrderCreated)]
      + [OrderEvent(op.id, Some(PendingApproval), Rejected, RejectedBySafety)]
    ensures Step(sys, s, op).store.calls == s.calls && Step(sys, s, op).store.positions == s.positions
  {
    ExecutedPlan(sys, s, op, price);
    StepFollowsPlan(sys, s, op);
    BlockedPlan(sys, s, op.id, Ordered(op));
  }

  lemma BlockedPlan(sys: Settings, s: Store, id: nat, terms: OrderTerms)
    requires id !in s.orders
    ensures Applied(sys, s, StagesAndActs(id, terms, Block)) == s.(
      orders := s.orders[id := NewRow(FreshRow(terms).(status := Rejected, stamps := {RejectedAt}))],
      events := s.events + [OrderEvent(id, None, PendingApproval, AiDecisionOrderCreated)]
        + [OrderEvent(id, Some(PendingApproval), Rejected, RejectedBySafety)])
  {
    var staged, row := WithNewOrder(s, id, terms, AiDecisionOrderCreated), FreshRow(terms).(status := Rejected, stamps := {RejectedAt});
    FinishBlocked(sys, staged, id);
    StoredExactly(row);
    assert Shifted(id, staged.orders[id], Rejected, RejectedBySafety, None)
      == Work(row, [OrderEvent(id, Some(PendingApproval), Rejected, RejectedBySafety)], []);
    assert s.calls + [] == s.calls;
    assert staged.orders[id := row][id := NewRow(row)] == s.orders[id := NewRow(row)];
  }

  /** A decision calls the broker if and only if it must be placed. */
  lemma DecisionCallsExactly(sys: Settings, s: Store, op: Op)
    requires op.Decide?
    ensures Step(sys, s, op).store.calls
         == if MustPlace(sys, s, op) then s.calls + [PlaceCall(op.id, Ordered(op), op.placed)] else s.calls
  {
    ExecutesExactly(sys, s, op);
    if !sys.autoExecute || !GateApproves(sys, s, op) {
      DecisionWithoutOrder(sys, s, op);
    } else if op.id in s.orders || (op.decision.limitPrice == None && op.quote == None) {
      DecisionRolledBack(sys, s, op);
    } else if MustPlace(sys, s, op) {
      PlacementEffect(sys, s, op);
    } else {
      var price := if op.decision.limitPrice.Some? then op.decision.limitPrice.value else op.quote.value;
      assert PricedAt(Ordered(op), op.quote, price);
      UnsafeDecisionEffect(sys, s, op, price);
    }
  }

  // ---------------------------------------------------------------------------------------------
  // Runs
  // ---------------------------------------------------------------------------------------------

  /** Who calls the broker: an approval or a decision that must, and nobody else. */
  lemma CallsExactly(sys: Settings, s: Store, op: Op)
    ensures Step(sys, s, op).store.calls != s.calls <==>
      (op.ApproveOrder? && MustSubmit(sys, s, op)) || (op.Decide? && MustPlace(sys, s, op))
  {
    if op.ApproveOrder? {
      ApprovalCallsExactly(sys, s, op);
    } else if op.Decide? {
      DecisionCallsExactly(sys, s, op);
    } else {
      NewCalls(sys, s, op);
    }
  }

  /** With automatic execution switched off, every `place_order` call of every run was made by a
      person's approval that had to make it. */
  lemma {:induction false} SwitchedOffOnlyPeopleCall(sys: Settings, ops: seq<Op>, i: nat) returns (k: nat)
    requires !sys.autoExecute && i < |Run(sys, EMPTY, ops).calls|
    ensures k < |ops| && ops[k].ApproveOrder? && MustSubmit(sys, Run(sys, EMPTY, ops[..k]), ops[k])
    ensures Run(sys, EMPTY, ops).calls[i]
         == PlaceCall(ops[k].id, Run(sys, EMPTY, ops[..k]).orders[ops[k].id].terms, ops[k].placed)
  {
    var front, op := ops[..|ops| - 1], ops[|ops| - 1];
    var s := Run(sys, EMPTY, front);
    CallsExactly(sys, s, op);
    if op.ApproveOrder? {
      ApprovalCallsExactly(sys, s, op);
    }
    if i < |s.calls| {
      k := SwitchedOffOnlyPeopleCall(sys, front, i);
      assert front[..k] == ops[..k];
    } else {
      k := |front|;
    }
  }

  /** And no order was created by a decision. */
  lemma {:induction false} SwitchedOffNoAutomaticOrders(sys: Settings, ops: seq<Op>)
    requires !sys.autoExecute
    ensures forall e :: e in Run(sys, EMPTY, ops).events ==> e.kind != AiDecisionOrderCreated
  {
    if ops != [] {
      var s, op := Run(sys, EMPTY, ops[..|ops| - 1]), ops[|ops| - 1];
      SwitchedOffNoAutomaticOrders(sys, ops[..|ops| - 1]);
      NoDecisionEvent(sys, s, op);
    }
  }

  lemma NoDecisionEvent(sys: Settings, s: Store, op: Op)
    requires !sys.autoExecute && forall e :: e in s.events ==> e.kind != AiDecisionOrderCreated
    ensures forall e :: e in Step(sys, s, op).store.events ==> e.kind != AiDecisionOrderCreated
  {
    if op.Decide? {
      DecisionWithoutOrder(sys, s, op);
    } else {
      StepFollowsPlan(sys, s, op);
      PlanHasNoDecisionEvent(sys, s, PlanOf(sys, s, op));
    }
  }

  lemma PlanHasNoDecisionEvent(sys: Settings, s: Store, plan: Plan)
    requires !plan.StagesAndActs? && forall e :: e in s.events ==> e.kind != AiDecisionOrderCreated
    ensures forall e :: e in Applied(sys, s, plan).events ==> e.kind != AiDecisionOrderCreated
  {
    if plan.Acts? && plan.id in s.orders {
      WorkHasNoDecisionEvent(plan.id, s.orders[plan.id], plan.act);
    }
  }

  lemma WorkHasNoDecisionEvent(id: nat, row: OrderRow, act: Act)
    ensures forall e :: e in Perform(id, row, act).value.events ==> e.kind != AiDecisionOrderCreated
  {
    if act.Submit? && Waits(row) {
      SubmissionWork(id, row, act.placed);
    }
  }
}
