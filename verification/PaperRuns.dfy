/** In paper mode the positions table is the fold of the fills that the event log records. */
module PaperRuns {
  import opened Wrappers
  import opened PyText
  import opened OrderStatuses
  import opened Tables
  import opened TradingSafety
  import opened OrderMachine
  import opened PaperLedger
  import opened EngineSpec
  import opened EngineRuns
  import opened Approvals
  import PaperLedgerFacts

  function KeyOf(terms: OrderTerms): PositionKey {
    PositionKey(terms.user, terms.symbol)
  }

  /** Two readings of the prices of past fills: the limit prices that the orders table shows, and
      those at which the fills were booked. */
  datatype Prices = AsStored | AsBooked

  /** The terms of the last `place_order` call for an order. */
  function LastPlaced(calls: seq<PlaceCall>, id: nat): Option<OrderTerms> {
    if calls == [] then None
    else if calls[|calls| - 1].orderId == id then Some(calls[|calls| - 1].terms)
    else LastPlaced(calls[..|calls| - 1], id)
  }

  /** The terms of the order whose event this is. A fill that answered `place_order` was booked at
      the terms that the call sent, one that a refresh reported at the stored ones. */
  function TermsAt(v: Prices, s: Store, e: OrderEvent): Option<OrderTerms> {
    if v == AsBooked && e.kind == BrokerSubmitResult then LastPlaced(s.calls, e.orderId)
    else if e.orderId in s.orders then Some(s.orders[e.orderId].terms)
    else None
  }

  /** The fills of one user in one symbol: one for each event that took an order to FILLED, in the
      order of the events. */
  function FillsFor(v: Prices, s: Store, events: seq<OrderEvent>, key: PositionKey): seq<Fill> {
    if events == [] then []
    else
      var e := events[|events| - 1];
      var before := FillsFor(v, s, events[..|events| - 1], key);
      var terms := TermsAt(v, s, e);
      if IsFill(e) && terms.Some? && KeyOf(terms.value) == key then before + [FillOf(terms.value)] else before
  }

  function FillsIn(v: Prices, s: Store, key: PositionKey): seq<Fill> {
    FillsFor(v, s, s.events, key)
  }

  /** The row of this user and symbol is what the fills add up to, and absent where there are none. */
  predicate RowOK(v: Prices, s: Store, key: PositionKey) {
    PositionAt(s, key) == Fold(FillsIn(v, s, key))
  }

  ghost predicate LedgerOK(v: Prices, s: Store) {
    forall key :: RowOK(v, s, key)
  }

  lemma {:induction false} FillsAgree(v: Prices, s: Store, t: Store, events: seq<OrderEvent>, key: PositionKey)
    requires forall e :: e in events && IsFill(e) ==> TermsAt(v, t, e) == TermsAt(v, s, e)
    ensures FillsFor(v, t, events, key) == FillsFor(v, s, events, key)
  {
    if events != [] {
      assert events[|events| - 1] in events;
      FillsAgree(v, s, t, events[..|events| - 1], key);
    }
  }

  lemma FillsNext(v: Prices, s: Store, events: seq<OrderEvent>, e: OrderEvent, key: PositionKey)
    ensures FillsFor(v, s, events + [e], key)
         == if IsFill(e) && TermsAt(v, s, e).Some? && KeyOf(TermsAt(v, s, e).value) == key
            then FillsFor(v, s, events, key) + [FillOf(TermsAt(v, s, e).value)] else FillsFor(v, s, events, key)
  {
    assert (events + [e])[..|events|] == events;
  }

  /** The order reaches FILLED in this work. */
  predicate Fills(row: OrderRow, w: Work) {
    row.status != Filled && w.row.status == Filled
  }

  /** The fills after some work whose fill, if there is one, reads as these terms. */
  lemma WorkFills(v: Prices, s: Store, events: seq<OrderEvent>, id: nat, row: OrderRow, act: Act, terms: OrderTerms, key: PositionKey)
    requires RestsOK(row)
    requires forall e :: e in Perform(id, row, act).value.events && IsFill(e) ==> TermsAt(v, s, e) == Some(terms)
    ensures FillsFor(v, s, events + Perform(id, row, act).value.events, key)
         == if Fills(row, Perform(id, row, act).value) && KeyOf(terms) == key
            then FillsFor(v, s, events, key) + [FillOf(terms)] else FillsFor(v, s, events, key)
  {
    var w := Perform(id, row, act).value;
    if act.Submit? && CanApprove(row.status) {
      SubmitWork(id, row, act.placed);
      SubmitFills(v, s, events, id, row, w, terms, key);
    } else {
      SingleShift(id, row, act);
      if w.events == [] {
        assert events + w.events == events;
      } else {
        FillsNext(v, s, events, w.events[0], key);
        assert w.events == [w.events[0]];
      }
    }
  }

  lemma SingleShift(id: nat, row: OrderRow, act: Act)
    requires RestsOK(row) && !(act.Submit? && CanApprove(row.status))
    ensures var w := Perform(id, row, act).value; w == Work(row, [], []) || Shifts(row, w)
  {
    if !act.Submit? {
      ShiftWork(id, row, act);
    }
  }

  lemma SubmitFills(v: Prices, s: Store, events: seq<OrderEvent>, id: nat, row: OrderRow, w: Work, terms: OrderTerms, key: PositionKey)
    requires CanApprove(row.status) && Submits(id, row, w)
    requires forall e :: e in w.events && IsFill(e) ==> TermsAt(v, s, e) == Some(terms)
    ensures FillsFor(v, s, events + w.events, key)
         == if Fills(row, w) && KeyOf(terms) == key then FillsFor(v, s, events, key) + [FillOf(terms)]
            else FillsFor(v, s, events, key)
  {
    var e0, e1, e2 := w.events[0], w.events[1], w.events[2];
    NoFillNext(v, s, events, e0, key);
    NoFillNext(v, s, events + [e0], e1, key);
    assert e2 in w.events && (IsFill(e2) <==> Fills(row, w));
    FillsNext(v, s, events + [e0] + [e1], e2, key);
    assert events + w.events == events + [e0] + [e1] + [e2];
  }

  lemma NoFillNext(v: Prices, s: Store, events: seq<OrderEvent>, e: OrderEvent, key: PositionKey)
    requires !IsFill(e)
    ensures FillsFor(v, s, events + [e], key) == FillsFor(v, s, events, key)
  {
    FillsNext(v, s, events, e, key);
  }

  lemma FoldNext(fills: seq<Fill>, f: Fill)
    ensures Fold(fills + [f]) == Some(Booked(Fold(fills), f))
  {
    assert (fills + [f])[..|fills|] == fills;
  }

  // ---------------------------------------------------------------------------------------------
  // Past fills keep their terms, a new one has those of its order
  // ---------------------------------------------------------------------------------------------

  lemma {:induction false} LastPlacedOfOther(calls: seq<PlaceCall>, more: seq<PlaceCall>, id: nat)
    requires forall c :: c in more ==> c.orderId != id
    ensures LastPlaced(calls + more, id) == LastPlaced(calls, id)
  {
    if more == [] {
      assert calls + more == calls;
    } else {
      assert more[|more| - 1] in more;
      LastPlacedOfOther(calls, more[..|more| - 1], id);
      assert (calls + more)[..|calls + more| - 1] == calls + more[..|more| - 1];
    }
  }

  lemma OnlyFilledOrdersHaveFills(s: Store, e: OrderEvent)
    requires e in s.events && IsFill(e) && e.orderId in s.orders && LifeOK(LifeOf(s, e.orderId))
    ensures s.orders[e.orderId].status == Filled
  {
    assert e in Trail(s, e.orderId);
    assert e in Filter(Trail(s, e.orderId), IsFill);
  }

  lemma SameTerms(v: Prices, s: Store, t: Store, e: OrderEvent)
    requires LastPlaced(t.calls, e.orderId) == LastPlaced(s.calls, e.orderId)
    requires e.orderId in s.orders && e.orderId in t.orders && t.orders[e.orderId].terms == s.orders[e.orderId].terms
    ensures TermsAt(v, t, e) == TermsAt(v, s, e)
  {
  }

  lemma PastFillsStay(v: Prices, s: Store, t: Store, id: nat, act: Act, e: OrderEvent)
    requires LogsOK(s) && id in s.orders && LifeOK(LifeOf(s, id)) && e in s.events && IsFill(e)
    requires t.calls == s.calls + Perform(id, s.orders[id], act).value.calls
    requires t.orders == s.orders[id := Perform(id, s.orders[id], act).value.row]
    ensures TermsAt(v, t, e) == TermsAt(v, s, e)
  {
    var calls := Perform(id, s.orders[id], act).value.calls;
    PerformIsLocal(id, s.orders[id], act);
    if e.orderId == id {
      OnlyFilledOrdersHaveFills(s, e);
      QuietUnlessApprovable(id, s.orders[id], act);
      assert s.calls + calls == s.calls;
    } else {
      LastPlacedOfOther(s.calls, calls, e.orderId);
    }
    SameTerms(v, s, t, e);
  }

  lemma NewFillTerms(v: Prices, t: Store, calls: seq<PlaceCall>, id: nat, row: OrderRow, act: Act, e: OrderEvent)
    requires RestsOK(row) && e in Perform(id, row, act).value.events && IsFill(e)
    requires t.calls == calls + Perform(id, row, act).value.calls
    requires id in t.orders && t.orders[id].terms == row.terms
    ensures TermsAt(v, t, e) == Some(row.terms)
  {
    PerformIsLocal(id, row, act);
    if act.Submit? && CanApprove(row.status) {
      SubmitWork(id, row, act.placed);
      assert t.calls[|t.calls| - 1] == PlaceCall(id, row.terms, act.placed);
    } else {
      SingleShift(id, row, act);
    }
  }

  /** What a method leaves of the fills. */
  lemma FillsAfter(v: Prices, s: Store, t: Store, id: nat, act: Act, key: PositionKey)
    requires LogsOK(s) && id in s.orders && LifeOK(LifeOf(s, id))
    requires t.calls == s.calls + Perform(id, s.orders[id], act).value.calls
    requires t.events == s.events + Perform(id, s.orders[id], act).value.events
    requires t.orders == s.orders[id := Perform(id, s.orders[id], act).value.row]
    ensures FillsIn(v, t, key)
         == if Fills(s.orders[id], Perform(id, s.orders[id], act).value) && KeyOf(s.orders[id].terms) == key
            then FillsIn(v, s, key) + [FillOf(s.orders[id].terms)] else FillsIn(v, s, key)
  {
    var row := s.orders[id];
    PerformIsLocal(id, row, act);
    forall e | e in s.events && IsFill(e)
      ensures TermsAt(v, t, e) == TermsAt(v, s, e)
    {
      PastFillsStay(v, s, t, id, act, e);
    }
    forall e | e in Perform(id, row, act).value.events && IsFill(e)
      ensures TermsAt(v, t, e) == Some(row.terms)
    {
      NewFillTerms(v, t, s.calls, id, row, act, e);
    }
    FillsAgree(v, s, t, s.events, key);
    WorkFills(v, t, s.events, id, row, act, row.terms, key);
  }

  /** What a method leaves of the fills and of the row of one user and symbol. */
  lemma FinishLedger(v: Prices, sys: Settings, s: Store, id: nat, act: Act, key: PositionKey)
    requires Inv(sys, s) && id in s.orders && RowOK(v, s, key)
    ensures var t := Finish(sys, s, id, act);
      var w := Perform(id, s.orders[id], act).value;
      var fills := FillsIn(v, s, key);
      var f := FillOf(s.orders[id].terms);
      && FillsIn(v, t, key)
         == (if Fills(s.orders[id], w) && KeyOf(s.orders[id].terms) == key then fills + [f] else fills)
      && PositionAt(t, key)
         == (if Books(sys, s.orders[id], act, w.row) && KeyOf(s.orders[id].terms) == key then Fold(fills + [f]) else Fold(fills))
  {
    FillsAfter(v, s, Finish(sys, s, id, act), id, act, key);
    PerformIsLocal(id, s.orders[id], act);
    FoldNext(FillsIn(v, s, key), FillOf(s.orders[id].terms));
  }

  /** A fill that is reported as the answer to a cancel: the order becomes FILLED, but cancel_order
      books nothing. A caller can see it coming from the order and the answer. */
  predicate LateFill(s: Store, op: Op) {
    && op.Cancel? && Owns(s, op.user, op.id)
    && s.orders[op.id].status in {Submitted, PartiallyFilled} && HasBrokerId(s.orders[op.id])
    && op.answer.Answered? && NormalizeBrokerStatus(op.answer.status) == Filled
  }

  /** The one case where an unbooked fill leaves no trace: a sale from an empty row at its last price. */
  predicate SellsNothing(s: Store, terms: OrderTerms) {
    && terms.side == Sell && PositionAt(s, KeyOf(terms)).Some?
    && PositionAt(s, KeyOf(terms)).value.quantity == 0
    && PositionAt(s, KeyOf(terms)).value.marketPrice == RoundHundredths(FillPrice(terms))
  }

  lemma UnbookedFillShows(s: Store, terms: OrderTerms, fills: seq<Fill>)
    requires PositionAt(s, KeyOf(terms)) == Fold(fills)
    ensures Fold(fills + [FillOf(terms)]) == Fold(fills) <==> SellsNothing(s, terms)
  {
    FoldNext(fills, FillOf(terms));
    assert FillOf(terms).shares < 0 <==> terms.side == Sell;
  }

  lemma FinishKeepsRowExactly(v: Prices, sys: Settings, s: Store, id: nat, act: Act, key: PositionKey)
    requires sys.mode == Paper && Inv(sys, s) && id in s.orders && RowOK(v, s, key)
    ensures RowOK(v, Finish(sys, s, id, act), key) <==>
      (key == KeyOf(s.orders[id].terms) && act.Cancel? && Fills(s.orders[id], Perform(id, s.orders[id], act).value)
       ==> SellsNothing(s, s.orders[id].terms))
  {
    var row := s.orders[id];
    FinishLedger(v, sys, s, id, act, key);
    FillsAreBooked(id, row, act);
    if key == KeyOf(row.terms) {
      UnbookedFillShows(s, row.terms, FillsIn(v, s, key));
    }
  }

  lemma FinishKeepsLedgerExactly(v: Prices, sys: Settings, s: Store, id: nat, act: Act)
    requires sys.mode == Paper && Inv(sys, s) && LedgerOK(v, s) && id in s.orders
    ensures LedgerOK(v, Finish(sys, s, id, act)) <==>
      (act.Cancel? && Fills(s.orders[id], Perform(id, s.orders[id], act).value) ==> SellsNothing(s, s.orders[id].terms))
  {
    var t := Finish(sys, s, id, act);
    var k := KeyOf(s.orders[id].terms);
    FinishKeepsRowExactly(v, sys, s, id, act, k);
    if LedgerOK(v, t) {
      assert RowOK(v, t, k);
    } else {
      var key :| !RowOK(v, t, key);
      FinishKeepsRowExactly(v, sys, s, id, act, key);
    }
  }

  /** Only submissions, cancels and refreshes can fill an order. */
  lemma FillsAreBooked(id: nat, row: OrderRow, act: Act)
    ensures Fills(row, Perform(id, row, act).value) ==> act.Submit? || act.Cancel? || act.Refresh?
  {
  }

  lemma StageKeepsFills(v: Prices, s: Store, id: nat, terms: OrderTerms, kind: EventKind, key: PositionKey)
    requires LogsOK(s) && id !in s.orders
    ensures FillsIn(v, WithNewOrder(s, id, terms, kind), key) == FillsIn(v, s, key)
  {
    var t := WithNewOrder(s, id, terms, kind);
    FillsNext(v, t, s.events, OrderEvent(id, None, PendingApproval, kind), key);
    FillsAgree(v, s, t, s.events, key);
  }

  lemma StageKeepsLedger(v: Prices, s: Store, id: nat, terms: OrderTerms, kind: EventKind)
    requires LogsOK(s) && LedgerOK(v, s) && id !in s.orders
    ensures LedgerOK(v, WithNewOrder(s, id, terms, kind))
  {
    var t := WithNewOrder(s, id, terms, kind);
    forall key
      ensures RowOK(v, t, key)
    {
      assert RowOK(v, s, key);
      StageKeepsFills(v, s, id, terms, kind, key);
    }
  }

  lemma LedgerIgnoresSafety(v: Prices, s: Store, safety: map<nat, SafetyRow>)
    ensures LedgerOK(v, s.(safety := safety)) <==> LedgerOK(v, s)
  {
    var t := s.(safety := safety);
    forall key
      ensures RowOK(v, t, key) <==> RowOK(v, s, key)
    {
      FillsAgree(v, s, t, s.events, key);
    }
  }

  lemma RestsWithin(sys: Settings, s: Store, id: nat)
    requires Inv(sys, s) && id in s.orders
    ensures RestsOK(s.orders[id])
  {
    assert LifeOK(LifeOf(s, id));
  }

  /** The plan's order is filled by a cancel. */
  predicate FillsByCancel(s: Store, plan: Plan)
    requires Fits(s, plan)
  {
    plan.Acts? && plan.act.Cancel? && Fills(s.orders[plan.id], Perform(plan.id, s.orders[plan.id], plan.act).value)
  }

  lemma CancelFillsExactly(id: nat, row: OrderRow, answer: BrokerAnswer)
    requires RestsOK(row)
    ensures Fills(row, Perform(id, row, Act.Cancel(answer)).value) <==>
      && row.status in {Submitted, PartiallyFilled} && HasBrokerId(row)
      && answer.Answered? && NormalizeBrokerStatus(answer.status) == Filled
  {
  }

  lemma OnlyCancelPlansCancel(sys: Settings, s: Store, op: Op)
    ensures PlanOf(sys, s, op).Acts? && PlanOf(sys, s, op).act.Cancel? ==> op.Cancel?
  {
  }

  lemma LateFillIsPlanned(sys: Settings, s: Store, op: Op)
    requires Inv(sys, s)
    ensures Fits(s, PlanOf(sys, s, op)) && (LateFill(s, op) <==> FillsByCancel(s, PlanOf(sys, s, op)))
  {
    PlanFits(sys, s, op);
    OnlyCancelPlansCancel(sys, s, op);
    if op.Cancel? && Owns(s, op.user, op.id) {
      RestsWithin(sys, s, op.id);
      CancelFillsExactly(op.id, s.orders[op.id], op.answer);
    }
  }

  /** An automatic decision that the broker fills at once. A caller can see it from the settings,
      the decision, the quote and the answer. */
  predicate AutoFill(sys: Settings, s: Store, op: Op) {
    && op.Decide? && op.id !in s.orders && AutoExecutes(sys, CaseOf(sys, s, op))
    && WithinOrderCap(sys, s, op.user, DecidedTerms(op.user, CaseOf(sys, s, op)), op.quote)
    && op.placed.Answered? && NormalizeBrokerStatus(op.placed.status) == Filled
  }

  /** Such a fill, booked at a limit price whose stored form would have booked another row. */
  predicate SplitsPrice(sys: Settings, s: Store, op: Op) {
    AutoFill(sys, s, op) && RoundingShows(s, DecidedTerms(op.user, CaseOf(sys, s, op)))
  }

  predicate RoundingShows(s: Store, terms: OrderTerms) {
    PaperLedgerFacts.RoundingShows(PositionAt(s, KeyOf(terms)), terms)
  }

  /** The plan's new order is filled by its submission. */
  predicate FillsOnCreation(plan: Plan) {
    plan.StagesAndActs? && plan.act.Submit? && plan.act.placed.Answered? && NormalizeBrokerStatus(plan.act.placed.status) == Filled
  }

  lemma AutoFillIsPlanned(sys: Settings, s: Store, op: Op)
    ensures AutoFill(sys, s, op) <==> FillsOnCreation(PlanOf(sys, s, op))
    ensures AutoFill(sys, s, op) ==> PlanOf(sys, s, op).terms == DecidedTerms(op.user, CaseOf(sys, s, op))
  {
    if op.Decide? && op.id !in s.orders && AutoExecutes(sys, CaseOf(sys, s, op)) {
      AutoExecutedPlan(sys, s, op, CaseOf(sys, s, op), DecidedTerms(op.user, CaseOf(sys, s, op)));
    }
  }

  lemma FreshFills(id: nat, terms: OrderTerms, act: Act)
    requires !act.Cancel? && !act.Refresh?
    ensures Fills(FreshRow(terms), Perform(id, FreshRow(terms), act).value)
       <==> act.Submit? && act.placed.Answered? && NormalizeBrokerStatus(act.placed.status) == Filled
  {
    if act.Submit? && act.placed.Answered? {
      SubmitResult(id, FreshRow(terms), act.placed.brokerOrderId, act.placed.status);
    } else if act.Submit? {
      SubmitWork(id, FreshRow(terms), act.placed);
    }
  }

  /** The terms as each reading shows them once the order is stored. */
  function Shown(v: Prices, terms: OrderTerms): OrderTerms {
    if v == AsBooked then terms else Stored(terms)
  }

  /** The fills after a new order was staged, run and stored. */
  lemma FillsWithNewOrder(v: Prices, s: Store, u: Store, id: nat, terms: OrderTerms, act: Act, key: PositionKey)
    requires LogsOK(s) && id !in s.orders && !act.Cancel? && !act.Refresh?
    requires u.calls == s.calls + Perform(id, FreshRow(terms), act).value.calls
    requires u.events == s.events + [OrderEvent(id, None, PendingApproval, AiDecisionOrderCreated)] + Perform(id, FreshRow(terms), act).value.events
    requires id in u.orders && u.orders[id].terms == Stored(terms)
    requires forall other :: other in s.orders ==> other in u.orders && u.orders[other] == s.orders[other]
    ensures FillsIn(v, u, key) == if Fills(FreshRow(terms), Perform(id, FreshRow(terms), act).value) && KeyOf(terms) == key
      then FillsIn(v, s, key) + [FillOf(Shown(v, terms))] else FillsIn(v, s, key)
  {
    var w := Perform(id, FreshRow(terms), act).value;
    var created := OrderEvent(id, None, PendingApproval, AiDecisionOrderCreated);
    PerformIsLocal(id, FreshRow(terms), act);
    forall e | e in s.events && IsFill(e)
      ensures TermsAt(v, u, e) == TermsAt(v, s, e)
    {
      LastPlacedOfOther(s.calls, w.calls, e.orderId);
      SameTerms(v, s, u, e);
    }
    forall e | e in w.events && IsFill(e)
      ensures TermsAt(v, u, e) == Some(Shown(v, terms))
    {
      NewFillIsShown(v, u, s.calls, id, terms, act, e);
    }
    FillsAgree(v, s, u, s.events, key);
    NoFillNext(v, u, s.events, created, key);
    WorkFills(v, u, s.events + [created], id, FreshRow(terms), act, Shown(v, terms), key);
  }

  lemma SettledFills(v: Prices, sys: Settings, s: Store, id: nat, terms: OrderTerms, act: Act, key: PositionKey)
    requires LogsOK(s) && id !in s.orders && !act.Cancel? && !act.Refresh?
    ensures FillsIn(v, Applied(sys, s, StagesAndActs(id, terms, act)), key)
         == if FillsOnCreation(StagesAndActs(id, terms, act)) && KeyOf(terms) == key
            then FillsIn(v, s, key) + [FillOf(Shown(v, terms))] else FillsIn(v, s, key)
  {
    PerformIsLocal(id, FreshRow(terms), act);
    FreshFills(id, terms, act);
    FillsWithNewOrder(v, s, Applied(sys, s, StagesAndActs(id, terms, act)), id, terms, act, key);
  }

  lemma NewFillIsShown(v: Prices, u: Store, calls: seq<PlaceCall>, id: nat, terms: OrderTerms, act: Act, e: OrderEvent)
    requires !act.Cancel? && !act.Refresh?
    requires e in Perform(id, FreshRow(terms), act).value.events && IsFill(e)
    requires u.calls == calls + Perform(id, FreshRow(terms), act).value.calls
    requires id in u.orders && u.orders[id].terms == Stored(terms)
    ensures TermsAt(v, u, e) == Some(Shown(v, terms))
  {
    if act.Submit? {
      SubmitWork(id, FreshRow(terms), act.placed);
      assert u.calls[|u.calls| - 1] == PlaceCall(id, terms, act.placed);
    }
  }

  /** The row of one user and symbol after a new order was staged, run and stored: it is booked at
      the unrounded price. */
  lemma SettledRow(sys: Settings, s: Store, id: nat, terms: OrderTerms, act: Act, key: PositionKey)
    requires sys.mode == Paper && id !in s.orders && !act.Cancel? && !act.Refresh?
    ensures PositionAt(Applied(sys, s, StagesAndActs(id, terms, act)), key)
         == if FillsOnCreation(StagesAndActs(id, terms, act)) && KeyOf(terms) == key
            then Some(Booked(PositionAt(s, key), FillOf(terms))) else PositionAt(s, key)
  {
    PerformIsLocal(id, FreshRow(terms), act);
    FreshFills(id, terms, act);
  }

  lemma SettledKeepsRowExactly(v: Prices, sys: Settings, s: Store, id: nat, terms: OrderTerms, act: Act, key: PositionKey)
    requires sys.mode == Paper && LogsOK(s) && id !in s.orders && !act.Cancel? && !act.Refresh? && RowOK(v, s, key)
    ensures RowOK(v, Applied(sys, s, StagesAndActs(id, terms, act)), key) <==>
      (key == KeyOf(terms) && FillsOnCreation(StagesAndActs(id, terms, act)) && v == AsStored ==> !RoundingShows(s, terms))
  {
    SettledFills(v, sys, s, id, terms, act, key);
    SettledRow(sys, s, id, terms, act, key);
    FoldNext(FillsIn(v, s, key), FillOf(Shown(v, terms)));
    PaperLedgerFacts.RoundingShowsExactly(PositionAt(s, KeyOf(terms)), terms);
  }

  lemma SettledKeepsLedgerExactly(v: Prices, sys: Settings, s: Store, id: nat, terms: OrderTerms, act: Act)
    requires sys.mode == Paper && LogsOK(s) && LedgerOK(v, s) && id !in s.orders && !act.Cancel? && !act.Refresh?
    ensures LedgerOK(v, Applied(sys, s, StagesAndActs(id, terms, act))) <==>
      (FillsOnCreation(StagesAndActs(id, terms, act)) && v == AsStored ==> !RoundingShows(s, terms))
  {
    var u := Applied(sys, s, StagesAndActs(id, terms, act));
    assert RowOK(v, s, KeyOf(terms));
    SettledKeepsRowExactly(v, sys, s, id, terms, act, KeyOf(terms));
    if LedgerOK(v, u) {
      assert RowOK(v, u, KeyOf(terms));
    } else {
      var key :| !RowOK(v, u, key);
      assert RowOK(v, s, key);
      SettledKeepsRowExactly(v, sys, s, id, terms, act, key);
    }
  }

  /** What a plan must not do to keep the ledger in one of the two readings. */
  predicate PlanKeeps(v: Prices, sys: Settings, s: Store, plan: Plan)
    requires Fits(s, plan)
  {
    && (FillsByCancel(s, plan) ==> SellsNothing(s, s.orders[plan.id].terms))
    && (FillsOnCreation(plan) && v == AsStored ==> !RoundingShows(s, plan.terms))
  }

  lemma PlanKeepsLedgerExactly(v: Prices, sys: Settings, s: Store, plan: Plan)
    requires sys.mode == Paper && Inv(sys, s) && LedgerOK(v, s) && Fits(s, plan)
    ensures LedgerOK(v, Applied(sys, s, plan)) <==> PlanKeeps(v, sys, s, plan)
  {
    match plan
    case Idle =>
    case Stages(id, terms) => StageKeepsLedger(v, s, id, terms, ManualOrderStaged);
    case Acts(id, act) => ActsKeepLedgerExactly(v, sys, s, id, act);
    case StagesAndActs(id, terms, act) => NewOrderKeepsLedgerExactly(v, sys, s, id, terms, act);
  }

  lemma ActsKeepLedgerExactly(v: Prices, sys: Settings, s: Store, id: nat, act: Act)
    requires sys.mode == Paper && Inv(sys, s) && LedgerOK(v, s) && id in s.orders
    ensures LedgerOK(v, Applied(sys, s, Acts(id, act))) <==> PlanKeeps(v, sys, s, Acts(id, act))
  {
    FinishKeepsLedgerExactly(v, sys, s, id, act);
  }

  lemma NewOrderKeepsLedgerExactly(v: Prices, sys: Settings, s: Store, id: nat, terms: OrderTerms, act: Act)
    requires sys.mode == Paper && LogsOK(s) && LedgerOK(v, s) && id !in s.orders && !act.Cancel? && !act.Refresh?
    ensures LedgerOK(v, Applied(sys, s, StagesAndActs(id, terms, act))) <==> PlanKeeps(v, sys, s, StagesAndActs(id, terms, act))
  {
    SettledKeepsLedgerExactly(v, sys, s, id, terms, act);
  }

  lemma LedgerOfStep(v: Prices, sys: Settings, s: Store, op: Op)
    ensures LedgerOK(v, Step(sys, s, op).store) <==> LedgerOK(v, Applied(sys, s, PlanOf(sys, s, op)))
  {
    StepFollowsPlan(sys, s, op);
    LedgerIgnoresSafety(v, Applied(sys, s, PlanOf(sys, s, op)), Step(sys, s, op).store.safety);
  }

  /** The same conditions, said of the request. */
  predicate OpKeeps(v: Prices, sys: Settings, s: Store, op: Op) {
    && (LateFill(s, op) ==> SellsNothing(s, s.orders[op.id].terms))
    && (v == AsStored ==> !SplitsPrice(sys, s, op))
  }

  lemma KeepsAsPlanned(v: Prices, sys: Settings, s: Store, op: Op)
    requires Inv(sys, s)
    ensures Fits(s, PlanOf(sys, s, op))
    ensures PlanKeeps(v, sys, s, PlanOf(sys, s, op)) <==> OpKeeps(v, sys, s, op)
  {
    LateFillIsPlanned(sys, s, op);
    LateFillNamesOrder(sys, s, op);
    AutoFillIsPlanned(sys, s, op);
  }

  lemma LateFillNamesOrder(sys: Settings, s: Store, op: Op)
    ensures LateFill(s, op) ==> PlanOf(sys, s, op).Acts? && PlanOf(sys, s, op).id == op.id
  {
  }

  /** In paper mode one request keeps the positions equal to the fills if and only if it is no late
      fill, or one that would change nothing. For the fills at the prices that the orders table
      shows, it must also not be an automatic fill whose unrounded price shows in the row. */
  lemma StepKeepsLedgerExactly(v: Prices, sys: Settings, s: Store, op: Op)
    requires sys.mode == Paper && Inv(sys, s) && LedgerOK(v, s)
    ensures LedgerOK(v, Step(sys, s, op).store) <==> OpKeeps(v, sys, s, op)
  {
    KeepsAsPlanned(v, sys, s, op);
    PlanKeepsLedgerExactly(v, sys, s, PlanOf(sys, s, op));
    LedgerOfStep(v, sys, s, op);
  }

  predicate NoFillOnCancel(ops: seq<Op>) {
    forall op :: op in ops && op.Cancel? && op.answer.Answered? ==> NormalizeBrokerStatus(op.answer.status) != Filled
  }

  /** Decisions name their limit prices, if any, in whole hundredths. */
  predicate DecidesInHundredths(ops: seq<Op>) {
    forall op :: op in ops && op.Decide? && op.decision.limitPrice.Some? ==> IsHundredths(op.decision.limitPrice.value)
  }

  lemma HundredthsDoNotSplit(sys: Settings, s: Store, op: Op)
    requires op.Decide? && op.decision.limitPrice.Some? ==> IsHundredths(op.decision.limitPrice.value)
    ensures !SplitsPrice(sys, s, op)
  {
    if AutoFill(sys, s, op) {
      PaperLedgerFacts.HundredthsDoNotShow(PositionAt(s, KeyOf(DecidedTerms(op.user, CaseOf(sys, s, op)))), DecidedTerms(op.user, CaseOf(sys, s, op)));
    }
  }

  /** In paper mode, with a broker that never answers a cancel with a fill, every position row of
      every run is the fold of the fills of its user and symbol, in the order they happened, at the
      prices they were booked at. These are the stored ones if decisions use whole hundredths. */
  lemma {:induction false} LedgerIsFoldOfFills(sys: Settings, ops: seq<Op>)
    requires sys.mode == Paper && NoFillOnCancel(ops)
    ensures LedgerOK(AsBooked, Run(sys, EMPTY, ops))
    ensures DecidesInHundredths(ops) ==> LedgerOK(AsStored, Run(sys, EMPTY, ops))
  {
    if ops != [] {
      var front, op := ops[..|ops| - 1], ops[|ops| - 1];
      assert op in ops;
      LedgerIsFoldOfFills(sys, front);
      RunKeepsInv(sys, EMPTY, front);
      StepKeepsLedgerExactly(AsBooked, sys, Run(sys, EMPTY, front), op);
      if DecidesInHundredths(ops) {
        HundredthsDoNotSplit(sys, Run(sys, EMPTY, front), op);
        StepKeepsLedgerExactly(AsStored, sys, Run(sys, EMPTY, front), op);
      }
    }
  }

  /** `PaperBroker.cancel_order` */
  function PaperCancelAnswer(brokerOrderId: string): BrokerAnswer {
    Answered(Some(brokerOrderId), StatusWord(Canceled))
  }

  /** The paper broker is such a broker: it answers every cancel with CANCELED. */
  lemma PaperBrokerKeepsLedger(sys: Settings, ops: seq<Op>)
    requires sys.mode == Paper
    requires forall op :: op in ops && op.Cancel? ==> exists b :: op.answer == PaperCancelAnswer(b)
    ensures LedgerOK(AsBooked, Run(sys, EMPTY, ops))
    ensures DecidesInHundredths(ops) ==> LedgerOK(AsStored, Run(sys, EMPTY, ops))
  {
    WordReadsBack(Canceled);
    LedgerIsFoldOfFills(sys, ops);
  }

  /** A late fill leaves the order FILLED and the positions as they were. */
  lemma LateFillBooksNothing(sys: Settings, s: Store, op: Op)
    requires LateFill(s, op)
    ensures op.id in Step(sys, s, op).store.orders && Step(sys, s, op).store.orders[op.id].status == Filled
    ensures Step(sys, s, op).store.positions == s.positions
  {
  }

  /** In the live modes the engine never writes a position. */
  lemma {:induction false} LiveModesNeverBook(sys: Settings, s: Store, ops: seq<Op>)
    requires sys.Live()
    ensures Run(sys, s, ops).positions == s.positions
  {
    if ops != [] {
      LiveModesNeverBook(sys, s, ops[..|ops| - 1]);
      StepFollowsPlan(sys, Run(sys, s, ops[..|ops| - 1]), ops[|ops| - 1]);
    }
  }

  /** The user whose order the plan runs a method on. */
  predicate ActsFor(s: Store, plan: Plan, user: nat)
    requires Fits(s, plan)
  {
    match plan
    case Acts(id, _) => s.orders[id].terms.user == user
    case StagesAndActs(_, terms, _) => terms.user == user
    case _ => true
  }

  lemma OwnPlan(sys: Settings, s: Store, op: Op)
    ensures Fits(s, PlanOf(sys, s, op)) && ActsFor(s, PlanOf(sys, s, op), op.user)
  {
    PlanFits(sys, s, op);
  }

  lemma PlanTouchesOwn(sys: Settings, s: Store, plan: Plan, user: nat, key: PositionKey)
    requires Fits(s, plan) && ActsFor(s, plan, user) && user != key.user
    ensures PositionAt(Applied(sys, s, plan), key) == PositionAt(s, key)
  {
    if plan.Acts? {
      PerformIsLocal(plan.id, s.orders[plan.id], plan.act);
    } else if plan.StagesAndActs? {
      PerformIsLocal(plan.id, FreshRow(plan.terms), plan.act);
    }
  }

  /** A request never touches another user's positions, in any mode. */
  lemma OnlyOwnPositions(sys: Settings, s: Store, op: Op, key: PositionKey)
    requires op.user != key.user
    ensures PositionAt(Step(sys, s, op).store, key) == PositionAt(s, key)
  {
    StepFollowsPlan(sys, s, op);
    OwnPlan(sys, s, op);
    PlanTouchesOwn(sys, s, PlanOf(sys, s, op), op.user, key);
  }
}
