/** Runs of the engine in paper mode after which the positions and the orders disagree
    (trading_engine.py). */
module PaperCounterexamples {
  import opened Wrappers
  import opened PyText
  import opened OrderStatuses
  import opened Tables
  import opened TradingSafety
  import opened OrderMachine
  import opened PaperLedger
  import opened EngineSpec
  import opened EngineRuns
  import opened Approvals
  import opened PaperRuns
  import PaperLedgerFacts
  import Risk

  lemma RunOfTwo(sys: Settings, a: Op, b: Op)
    ensures Run(sys, EMPTY, [a, b]) == Step(sys, Step(sys, EMPTY, a).store, b).store
  {
    assert [a, b][..1] == [a] && [a][..0] == [];
    assert Run(sys, EMPTY, [a]) == Step(sys, EMPTY, a).store;
  }

  // ---------------------------------------------------------------------------------------------
  // A fill that is reported as the answer to a cancel
  // ---------------------------------------------------------------------------------------------

  lemma SubmitOneShare(sys: Settings, user: nat, create: OrderCreate) returns (stage: Op, approve: Op, t: Store)
    requires sys.mode == Paper && sys.maxOrder > 0 && create.quantity == 1 && create.limitPrice == Some(1.0)
    ensures !stage.Cancel? && !approve.Cancel? && !stage.Decide? && !approve.Decide?
    ensures t == Step(sys, Step(sys, EMPTY, stage).store, approve).store
    ensures 1 in t.orders && t.orders[1].terms == ManualTerms(user, create) && t.positions == map[]
    ensures t.orders[1].status == Submitted && t.orders[1].brokerOrderId == Some("B1")
  {
    stage := CreateManual(user, 1, create);
    var s := Step(sys, EMPTY, stage).store;
    PaperLedgerFacts.HundredthsDoNotShow(None, ManualTerms(user, create));
    var placed := Answered(Some("B1"), StatusWord(Submitted));
    approve := ApproveOrder(user, 1, ConfirmationText(1), None, placed);
    t := Step(sys, s, approve).store;
    ConfirmationStrips(1);
    assert PlanOf(sys, s, approve) == Acts(1, Submit(placed));
    StepFollowsPlan(sys, s, approve);
    WordReadsBack(Submitted);
    SubmitResult(1, s.orders[1], Some("B1"), StatusWord(Submitted));
    PerformIsLocal(1, s.orders[1], Submit(placed));
  }

  lemma LateFillBreaksLedger(v: Prices, sys: Settings, s: Store, op: Op)
    requires sys.mode == Paper && Inv(sys, s) && LedgerOK(v, s) && LateFill(s, op) && !SellsNothing(s, s.orders[op.id].terms)
    ensures !LedgerOK(v, Step(sys, s, op).store)
  {
    StepKeepsLedgerExactly(v, sys, s, op);
  }

  lemma CancelIsLateFill(sys: Settings, s: Store, op: Op)
    requires op.Cancel? && Owns(s, op.user, op.id) && s.positions == map[]
    requires s.orders[op.id].status == Submitted && s.orders[op.id].brokerOrderId == Some("B1")
    requires op.answer == Answered(Some("B1"), StatusWord(Filled))
    ensures LateFill(s, op) && !SellsNothing(s, s.orders[op.id].terms)
  {
    WordReadsBack(Filled);
  }

  lemma CancelLosesPosition(sys: Settings, s: Store, op: Op)
    requires sys.mode == Paper && Inv(sys, s) && LedgerOK(AsStored, s) && LedgerOK(AsBooked, s)
    requires op.Cancel? && Owns(s, op.user, op.id) && s.positions == map[]
    requires s.orders[op.id].status == Submitted && s.orders[op.id].brokerOrderId == Some("B1")
    requires op.answer == Answered(Some("B1"), StatusWord(Filled))
    ensures op.id in Step(sys, s, op).store.orders && Step(sys, s, op).store.orders[op.id].status == Filled
    ensures Step(sys, s, op).store.positions == map[]
    ensures !LedgerOK(AsStored, Step(sys, s, op).store) && !LedgerOK(AsBooked, Step(sys, s, op).store)
  {
    CancelIsLateFill(sys, s, op);
    LateFillBooksNothing(sys, s, op);
    LateFillBreaksLedger(AsStored, sys, s, op);
    LateFillBreaksLedger(AsBooked, sys, s, op);
  }

  lemma OneShareIsSubmitted(sys: Settings, user: nat, create: OrderCreate) returns (ops: seq<Op>)
    requires sys.mode == Paper && sys.maxOrder > 0 && create.quantity == 1 && create.limitPrice == Some(1.0)
    ensures NoFillOnCancel(ops) && DecidesInHundredths(ops) && Run(sys, EMPTY, ops).positions == map[]
    ensures Owns(Run(sys, EMPTY, ops), user, 1) && Run(sys, EMPTY, ops).orders[1].status == Submitted
    ensures Run(sys, EMPTY, ops).orders[1].brokerOrderId == Some("B1")
  {
    var stage, approve, t := SubmitOneShare(sys, user, create);
    ops := [stage, approve];
    RunOfTwo(sys, stage, approve);
  }

  /** With a broker other than the paper broker: a submitted paper order whose cancel is answered
      FILLED ends as FILLED, and no position row exists, in either reading of the fills. */
  lemma LateFillLosesPosition(sys: Settings, user: nat, create: OrderCreate) returns (ops: seq<Op>)
    requires sys.mode == Paper && sys.maxOrder > 0 && create.quantity == 1 && create.limitPrice == Some(1.0)
    ensures 1 in Run(sys, EMPTY, ops).orders && Run(sys, EMPTY, ops).orders[1].status == Filled
    ensures Run(sys, EMPTY, ops).positions == map[]
    ensures !LedgerOK(AsStored, Run(sys, EMPTY, ops)) && !LedgerOK(AsBooked, Run(sys, EMPTY, ops))
  {
    var front := OneShareIsSubmitted(sys, user, create);
    var cancel := Op.Cancel(user, 1, Answered(Some("B1"), StatusWord(Filled)));
    ops := front + [cancel];
    LedgerIsFoldOfFills(sys, front);
    RunKeepsInv(sys, EMPTY, front);
    CancelLosesPosition(sys, Run(sys, EMPTY, front), cancel);
    RunNext(sys, front, cancel);
  }

  lemma RunNext(sys: Settings, ops: seq<Op>, op: Op)
    ensures Run(sys, EMPTY, ops + [op]) == Step(sys, Run(sys, EMPTY, ops), op).store
  {
    assert (ops + [op])[..|ops|] == ops;
  }

  // ---------------------------------------------------------------------------------------------
  // A decision's limit price with more than two decimals
  // ---------------------------------------------------------------------------------------------

  /** The user's settings, opened as far as the system allows. */
  function OpenSettings(sys: Settings): SafetyRow {
    SafetyRow(sys.maxOrder, sys.maxPosition, sys.minConfidence, false, false)
  }

  /** A BUY of ten shares at 0.004. */
  function CheapBuy(sys: Settings, symbol: string): Risk.Decision {
    Risk.Decision(symbol, Risk.Trade(Buy), 10, Limit, Some(0.004), sys.minConfidence, false)
  }

  lemma SettingsOpened(sys: Settings, user: nat)
    requires sys.mode == Paper
    ensures Step(sys, EMPTY, SetSafety(user, OpenSettings(sys))).store == EMPTY.(safety := map[user := OpenSettings(sys)])
  {
  }

  lemma CheapBuyIsApproved(c: Risk.RiskCase)
    requires c.sys.mode == Paper && c.decision == CheapBuy(c.sys, c.decision.symbol) && c.PositionLimit() > 0 && c.OrderLimit() > 0
    requires c.ConfidenceFloor() == c.sys.minConfidence && !c.manualApproval
    ensures c.Verdict() == Risk.Approved
  {
    assert c.Notional() == 0.04;
    assert !c.Blocked() && !c.Held();
  }

  lemma CheapBuyIsExecuted(sys: Settings, s: Store, op: Op)
    requires sys.mode == Paper && sys.autoExecute && sys.maxOrder > 0 && sys.maxPosition > 0
    requires op.Decide? && op.id !in s.orders && op.user in s.safety && s.safety[op.user] == OpenSettings(sys)
    requires op.decision == CheapBuy(sys, op.decision.symbol) && op.requested == None
    requires op.placed.Answered? && op.placed.status == StatusWord(Filled)
    ensures AutoFill(sys, s, op)
    ensures DecidedTerms(op.user, CaseOf(sys, s, op)) == CheapTerms(op.user, op.decision.symbol)
  {
    CheapBuyIsApproved(CaseOf(sys, s, op));
    WordReadsBack(Filled);
    assert Notional(CheapTerms(op.user, op.decision.symbol), 0.004) == 0.04;
  }

  function CheapTerms(user: nat, symbol: string): OrderTerms {
    OrderTerms(user, symbol, Buy, 10, Limit, Some(0.004))
  }

  /** What an automatic fill leaves of the fills and of the row. */
  lemma AutoFillLedger(v: Prices, sys: Settings, s: Store, op: Op, terms: OrderTerms, key: PositionKey)
    requires sys.mode == Paper && LogsOK(s) && AutoFill(sys, s, op)
    requires terms == DecidedTerms(op.user, CaseOf(sys, s, op)) && key == KeyOf(terms)
    ensures FillsIn(v, Step(sys, s, op).store, key) == FillsIn(v, s, key) + [FillOf(Shown(v, terms))]
    ensures PositionAt(Step(sys, s, op).store, key) == Some(Booked(PositionAt(s, key), FillOf(terms)))
  {
    AutoFillIsPlanned(sys, s, op);
    PlanFits(sys, s, op);
    var plan := PlanOf(sys, s, op);
    PlannedFillLedger(v, sys, s, plan, key);
    StepFollowsPlan(sys, s, op);
    SafetyHidesNothing(v, Applied(sys, s, plan), Step(sys, s, op).store.safety, key);
  }

  lemma PlannedFillLedger(v: Prices, sys: Settings, s: Store, plan: Plan, key: PositionKey)
    requires sys.mode == Paper && LogsOK(s) && Fits(s, plan) && FillsOnCreation(plan) && key == KeyOf(plan.terms)
    ensures FillsIn(v, Applied(sys, s, plan), key) == FillsIn(v, s, key) + [FillOf(Shown(v, plan.terms))]
    ensures PositionAt(Applied(sys, s, plan), key) == Some(Booked(PositionAt(s, key), FillOf(plan.terms)))
  {
    SettledFills(v, sys, s, plan.id, plan.terms, plan.act, key);
    SettledRow(sys, s, plan.id, plan.terms, plan.act, key);
  }

  lemma SafetyHidesNothing(v: Prices, s: Store, safety: map<nat, SafetyRow>, key: PositionKey)
    ensures FillsIn(v, s.(safety := safety), key) == FillsIn(v, s, key)
    ensures PositionAt(s.(safety := safety), key) == PositionAt(s, key)
  {
    FillsAgree(v, s, s.(safety := safety), s.events, key);
  }

  lemma CheapBuyRows(user: nat, symbol: string)
    ensures Booked(None, FillOf(CheapTerms(user, symbol))) == PositionRow(10, 0.0, 0.0)
    ensures Booked(None, FillOf(Stored(CheapTerms(user, symbol)))) == PositionRow(10, 1.0, 1.0)
  {
    PaperLedgerFacts.RoundsToZero(0.004);
    PaperLedgerFacts.RoundKeepsHundredths(1.0);
  }

  /** From tables without orders: the position is booked at 0.004 and stored with the average 0.00;
      the orders table shows the price 0.00, which as a fill means 1.00. */
  lemma CheapBuySplitsLedger(sys: Settings, s: Store, op: Op, key: PositionKey)
    requires sys.mode == Paper && s.orders == map[] && s.events == [] && s.calls == [] && s.positions == map[]
    requires AutoFill(sys, s, op) && DecidedTerms(op.user, CaseOf(sys, s, op)) == CheapTerms(key.user, key.symbol)
    ensures PositionAt(Step(sys, s, op).store, key) == Some(PositionRow(10, 0.0, 0.0))
    ensures Fold(FillsIn(AsStored, Step(sys, s, op).store, key)) == Some(PositionRow(10, 1.0, 1.0))
  {
    var terms := CheapTerms(key.user, key.symbol);
    AutoFillLedger(AsStored, sys, s, op, terms, key);
    CheapBuyRows(key.user, key.symbol);
    FoldNext([], FillOf(Stored(terms)));
  }

  /** With the paper broker itself, which fills at once under an id of its own: a user opens the settings, and the first decision, a BUY of ten
      at 0.004, is executed automatically. The orders table and the position then disagree. */
  lemma RoundingSplitsLedger(sys: Settings, user: nat, symbol: string, snapshotPrice: real, brokerOrderId: string)
    returns (ops: seq<Op>)
    requires sys.mode == Paper && sys.autoExecute && sys.maxOrder > 0 && sys.maxPosition > 0
    ensures NoFillOnCancel(ops)
    ensures PositionAt(Run(sys, EMPTY, ops), PositionKey(user, symbol)) == Some(PositionRow(10, 0.0, 0.0))
    ensures Fold(FillsIn(AsStored, Run(sys, EMPTY, ops), PositionKey(user, symbol))) == Some(PositionRow(10, 1.0, 1.0))
    ensures LedgerOK(AsBooked, Run(sys, EMPTY, ops)) && !LedgerOK(AsStored, Run(sys, EMPTY, ops))
  {
    var open := SetSafety(user, OpenSettings(sys));
    var decide := Decide(user, 1, None, CheapBuy(sys, symbol), snapshotPrice, None, Answered(Some(brokerOrderId), StatusWord(Filled)));
    var s := EMPTY.(safety := map[user := OpenSettings(sys)]);
    SettingsOpened(sys, user);
    ops := [open, decide];
    RunOfTwo(sys, open, decide);
    CheapBuyIsExecuted(sys, s, decide);
    CheapBuySplitsLedger(sys, s, decide, PositionKey(user, symbol));
    LedgerIsFoldOfFills(sys, ops);
    assert !RowOK(AsStored, Run(sys, EMPTY, ops), PositionKey(user, symbol));
  }

  /** The other way in which the unrounded price shows: a hundred shares bought at 10.005 on top of
      one at 10.00 give the average 10.00, and at the stored 10.01 they would give 10.01. */
  lemma BlendShowsRounding(user: nat, symbol: string)
    ensures PaperLedgerFacts.RoundingShows(Some(PositionRow(1, 10.0, 10.0)), OrderTerms(user, symbol, Buy, 100, Limit, Some(10.005)))
  {
    assert WeightedAverage(1, 10.0, 100, 10.005) == 1010.5 / 101.0;
    assert RoundHundredths(10.005) == 10.01;
    assert WeightedAverage(1, 10.0, 100, 10.01) == 1011.0 / 101.0;
  }
}
