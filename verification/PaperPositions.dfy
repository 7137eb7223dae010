/** What the position rows of a paper run hold: the facts about folded fills, said of the table that
    the engine leaves (trading_engine.py, models.py). */
module PaperPositions {
  import opened Wrappers
  import opened OrderStatuses
  import opened OrderMachine
  import opened Tables
  import opened TradingSafety
  import opened PaperLedger
  import opened PaperLedgerFacts
  import opened EngineSpec
  import opened EngineRuns
  import opened PaperRuns

  lemma {:induction false} FillsComeFromOrders(v: Prices, s: Store, events: seq<OrderEvent>, key: PositionKey)
    ensures forall i :: 0 <= i < |FillsFor(v, s, events, key)| ==>
      FillsFor(v, s, events, key)[i].shares != 0 && FillsFor(v, s, events, key)[i].price > 0.0
  {
    if events != [] {
      FillsComeFromOrders(v, s, events[..|events| - 1], key);
      var terms := TermsAt(v, s, events[|events| - 1]);
      if terms.Some? {
        OrdersFill(terms.value);
      }
    }
  }

  /** The orders of one user in one symbol that the events filled, in the order in which they did. */
  function FilledOrders(s: Store, events: seq<OrderEvent>, key: PositionKey): seq<OrderTerms> {
    if events == [] then []
    else
      var e := events[|events| - 1];
      var before := FilledOrders(s, events[..|events| - 1], key);
      if e.now == Filled && e.was != Some(Filled) && e.orderId in s.orders
         && s.orders[e.orderId].terms.user == key.user && s.orders[e.orderId].terms.symbol == key.symbol
      then before + [s.orders[e.orderId].terms] else before
  }

  /** Shares bought less shares sold. */
  function Net(orders: seq<OrderTerms>): int {
    if orders == [] then 0
    else
      var last := orders[|orders| - 1];
      Net(orders[..|orders| - 1]) + if last.side == Buy then last.quantity else 0 - last.quantity
  }

  /** The fills have the orders' own shares: a purchase its quantity, a sale minus it. */
  ghost predicate SharesOf(fills: seq<Fill>, orders: seq<OrderTerms>) {
    && |fills| == |orders|
    && forall i :: 0 <= i < |fills| ==> fills[i].shares == if orders[i].side == Buy then orders[i].quantity else 0 - orders[i].quantity
  }

  lemma {:induction false} StoredFillsOfOrders(s: Store, events: seq<OrderEvent>, key: PositionKey)
    ensures SharesOf(FillsFor(AsStored, s, events, key), FilledOrders(s, events, key))
  {
    if events != [] {
      StoredFillsOfOrders(s, events[..|events| - 1], key);
    }
  }

  /** Rounding a price changes no shares, so the booked fills have them as well. */
  ghost predicate PlacedAsOrdered(s: Store) {
    forall c :: c in s.calls ==> c.orderId in s.orders && Stored(c.terms) == Stored(s.orders[c.orderId].terms)
  }

  lemma {:induction false} LastPlacedIsACall(calls: seq<PlaceCall>, id: nat)
    ensures LastPlaced(calls, id).Some? ==> exists c :: c in calls && c.orderId == id && c.terms == LastPlaced(calls, id).value
    ensures LastPlaced(calls, id).None? <==> forall c :: c in calls ==> c.orderId != id
  {
    if calls != [] {
      LastPlacedIsACall(calls[..|calls| - 1], id);
      assert calls == calls[..|calls| - 1] + [calls[|calls| - 1]];
    }
  }

  lemma SameShares(terms: OrderTerms, other: OrderTerms)
    requires Stored(terms) == Stored(other)
    ensures KeyOf(terms) == KeyOf(other) && FillOf(terms).shares == FillOf(other).shares
  {
  }

  /** Every placement answered with a status has a call in the log. */
  ghost predicate AnswersHaveCalls(s: Store) {
    forall e :: e in s.events && e.kind == BrokerSubmitResult ==> exists c :: c in s.calls && c.orderId == e.orderId
  }

  lemma {:induction false} BookedFillsOfOrders(s: Store, events: seq<OrderEvent>, key: PositionKey)
    requires PlacedAsOrdered(s) && AnswersHaveCalls(s) && forall e :: e in events ==> e in s.events
    ensures SharesOf(FillsFor(AsBooked, s, events, key), FilledOrders(s, events, key))
  {
    if events != [] {
      var e := events[|events| - 1];
      assert e in events;
      BookedFillsOfOrders(s, events[..|events| - 1], key);
      if e.kind == BrokerSubmitResult {
        BookedTermsOfOrder(s, e);
      }
    }
  }

  lemma BookedTermsOfOrder(s: Store, e: OrderEvent)
    requires PlacedAsOrdered(s) && AnswersHaveCalls(s) && e in s.events && e.kind == BrokerSubmitResult
    ensures TermsAt(AsBooked, s, e).Some? && e.orderId in s.orders
    ensures KeyOf(TermsAt(AsBooked, s, e).value) == KeyOf(s.orders[e.orderId].terms)
    ensures FillOf(TermsAt(AsBooked, s, e).value).shares == FillOf(s.orders[e.orderId].terms).shares
  {
    LastPlacedIsACall(s.calls, e.orderId);
    SameShares(TermsAt(AsBooked, s, e).value, s.orders[e.orderId].terms);
  }

  // ---------------------------------------------------------------------------------------------
  // Calls and orders agree in every run
  // ---------------------------------------------------------------------------------------------

  ghost predicate CallsAgree(s: Store) {
    PlacedAsOrdered(s) && AnswersHaveCalls(s)
  }

  lemma WorkAgrees(id: nat, row: OrderRow, act: Act)
    ensures forall c :: c in Perform(id, row, act).value.calls ==> c.orderId == id && c.terms == row.terms
    ensures forall e :: e in Perform(id, row, act).value.events && e.kind == BrokerSubmitResult ==>
      exists c :: c in Perform(id, row, act).value.calls && c.orderId == e.orderId
  {
    PerformIsLocal(id, row, act);
    if act.Submit? && CanApprove(row.status) {
      SubmitWork(id, row, act.placed);
      assert PlaceCall(id, row.terms, act.placed) in Perform(id, row, act).value.calls;
    }
  }

  lemma MoreCallsAgree(s: Store, t: Store, id: nat, row: OrderRow, act: Act, created: seq<OrderEvent>)
    requires CallsAgree(s) && forall e :: e in created ==> e.kind != BrokerSubmitResult
    requires t.calls == s.calls + Perform(id, row, act).value.calls
    requires t.events == s.events + created + Perform(id, row, act).value.events
    requires id in t.orders && Stored(t.orders[id].terms) == Stored(row.terms)
    requires forall other :: other in s.orders ==> other in t.orders && t.orders[other].terms == s.orders[other].terms
    ensures CallsAgree(t)
  {
    WorkAgrees(id, row, act);
    forall e | e in t.events && e.kind == BrokerSubmitResult
      ensures exists c :: c in t.calls && c.orderId == e.orderId
    {
      if e in s.events {
        var c :| c in s.calls && c.orderId == e.orderId;
        assert c in t.calls;
      } else {
        var c :| c in Perform(id, row, act).value.calls && c.orderId == e.orderId;
        assert c in t.calls;
      }
    }
  }

  lemma StagedCallsAgree(s: Store, id: nat, terms: OrderTerms)
    requires CallsAgree(s) && id !in s.orders
    ensures CallsAgree(WithNewOrder(s, id, terms, ManualOrderStaged))
  {
  }

  lemma PlanKeepsCallsAgreed(sys: Settings, s: Store, plan: Plan)
    requires CallsAgree(s) && Fits(s, plan)
    ensures CallsAgree(Applied(sys, s, plan))
  {
    match plan
    case Idle =>
    case Stages(id, terms) => StagedCallsAgree(s, id, terms);
    case Acts(id, act) => OldOrderCallsAgree(sys, s, id, act);
    case StagesAndActs(id, terms, act) => NewOrderCallsAgree(sys, s, id, terms, act);
  }

  lemma FinishLogs(sys: Settings, s: Store, id: nat, act: Act)
    requires id in s.orders
    ensures Finish(sys, s, id, act).orders == s.orders[id := Perform(id, s.orders[id], act).value.row]
    ensures Finish(sys, s, id, act).events == s.events + Perform(id, s.orders[id], act).value.events
    ensures Finish(sys, s, id, act).calls == s.calls + Perform(id, s.orders[id], act).value.calls
  {
  }

  lemma OldOrderCallsAgree(sys: Settings, s: Store, id: nat, act: Act)
    requires CallsAgree(s) && id in s.orders
    ensures CallsAgree(Finish(sys, s, id, act))
  {
    PerformIsLocal(id, s.orders[id], act);
    FinishLogs(sys, s, id, act);
    assert s.events + [] == s.events;
    MoreCallsAgree(s, Finish(sys, s, id, act), id, s.orders[id], act, []);
  }

  lemma NewOrderCallsAgree(sys: Settings, s: Store, id: nat, terms: OrderTerms, act: Act)
    requires CallsAgree(s) && id !in s.orders
    ensures CallsAgree(Applied(sys, s, StagesAndActs(id, terms, act)))
  {
    PerformIsLocal(id, FreshRow(terms), act);
    StoringTwice(terms);
    MoreCallsAgree(s, Applied(sys, s, StagesAndActs(id, terms, act)), id, FreshRow(terms), act,
      [OrderEvent(id, None, PendingApproval, AiDecisionOrderCreated)]);
  }

  lemma {:induction false} RunKeepsCallsAgreed(sys: Settings, ops: seq<Op>)
    ensures CallsAgree(Run(sys, EMPTY, ops))
  {
    if ops != [] {
      var s, op := Run(sys, EMPTY, ops[..|ops| - 1]), ops[|ops| - 1];
      RunKeepsCallsAgreed(sys, ops[..|ops| - 1]);
      StepFollowsPlan(sys, s, op);
      PlanFits(sys, s, op);
      PlanKeepsCallsAgreed(sys, s, PlanOf(sys, s, op));
    }
  }

  // ---------------------------------------------------------------------------------------------
  // Theorems on paper runs
  // ---------------------------------------------------------------------------------------------

  lemma {:induction false} TotalIsNet(fills: seq<Fill>, orders: seq<OrderTerms>)
    requires SharesOf(fills, orders)
    ensures Total(fills) == Net(orders)
  {
    if fills != [] {
      TotalIsNet(fills[..|fills| - 1], orders[..|orders| - 1]);
    }
  }

  /** With N_k the shares bought less those sold by the first k filled orders: q is the largest of
      N_n and all N_n - N_k, 2 <= k <= n. */
  ghost predicate IsClampedNet(q: int, orders: seq<OrderTerms>) {
    && q >= Net(orders)
    && (forall k :: 2 <= k <= |orders| ==> q >= Net(orders) - Net(orders[..k]))
    && (q == Net(orders) || exists k :: 2 <= k <= |orders| && q == Net(orders) - Net(orders[..k]))
  }

  lemma ClampedNet(q: int, fills: seq<Fill>, orders: seq<OrderTerms>)
    requires SharesOf(fills, orders) && IsClampedTotal(q, fills)
    ensures IsClampedNet(q, orders)
  {
    TotalIsNet(fills, orders);
    forall k | 2 <= k <= |orders|
      ensures Total(fills[..k]) == Net(orders[..k])
    {
      TotalIsNet(fills[..k], orders[..k]);
    }
  }

  /** There is a row exactly where an order was filled. One order gives its own quantity, and from
      the second on the row's quantity is what the orders bought and sold, clamped at 0. */
  lemma StoredQuantityIsClampedTotal(sys: Settings, ops: seq<Op>, key: PositionKey, orders: seq<OrderTerms>)
    requires sys.mode == Paper && NoFillOnCancel(ops)
    requires orders == FilledOrders(Run(sys, EMPTY, ops), Run(sys, EMPTY, ops).events, key)
    ensures key in Run(sys, EMPTY, ops).positions <==> orders != []
    ensures |orders| == 1 ==> Run(sys, EMPTY, ops).positions[key].quantity == Net(orders)
    ensures |orders| >= 2 ==>
      && Run(sys, EMPTY, ops).positions[key].quantity >= 0
      && IsClampedNet(Run(sys, EMPTY, ops).positions[key].quantity, orders)
  {
    var s := Run(sys, EMPTY, ops);
    var fills := FillsIn(AsBooked, s, key);
    LedgerIsFoldOfFills(sys, ops);
    assert RowOK(AsBooked, s, key);
    RunKeepsCallsAgreed(sys, ops);
    BookedFillsOfOrders(s, s.events, key);
    if |fills| == 1 {
      FirstFillIsUnclamped(fills);
      TotalIsNet(fills, orders);
    } else if |fills| >= 2 {
      QuantityIsClampedTotal(fills);
      QuantityIsPlainTotalExactly(fills);
      ClampedNet(s.positions[key].quantity, fills, orders);
    }
  }

  /** Where the first fill was a BUY and shares are held, the stored average is within half a
      hundredth per BUY since last flat of the exact cost per share, and between the lowest and the
      highest of those BUY prices as the column rounds them. With prices in whole hundredths the
      first BUY does not count, and the bounds are the prices themselves. */
  lemma StoredAverageIsNearCost(sys: Settings, ops: seq<Op>, key: PositionKey, fills: seq<Fill>, row: PositionRow)
    returns (lowest: real, highest: real)
    requires sys.mode == Paper && NoFillOnCancel(ops) && fills == FillsIn(AsBooked, Run(sys, EMPTY, ops), key)
    requires fills != [] && fills[0].shares > 0
    requires PositionAt(Run(sys, EMPTY, ops), key) == Some(row) && row.quantity > 0
    ensures ExactBasis(fills).shares == row.quantity
    ensures Gap(row.avgPrice, ExactAverage(ExactBasis(fills))) <= 0.005 * Roundings(fills) as real
    ensures lowest in BuysSinceFlat(fills) && highest in BuysSinceFlat(fills)
    ensures RoundHundredths(lowest) <= row.avgPrice <= RoundHundredths(highest)
    ensures InHundredths(fills) ==> lowest <= row.avgPrice <= highest
  {
    LedgerIsFoldOfFills(sys, ops);
    assert RowOK(AsBooked, Run(sys, EMPTY, ops), key);
    FillsComeFromOrders(AsBooked, Run(sys, EMPTY, ops), Run(sys, EMPTY, ops).events, key);
    AverageDrift(fills);
    lowest, highest := AverageIsBetweenBuyPrices(fills);
  }

  /** The rows of a user stay as they are through any run of other users' requests, in any mode. */
  lemma {:induction false} OthersNeverTouchPositions(sys: Settings, s: Store, ops: seq<Op>, key: PositionKey)
    requires forall op :: op in ops ==> op.user != key.user
    ensures PositionAt(Run(sys, s, ops), key) == PositionAt(s, key)
  {
    if ops != [] {
      assert ops[|ops| - 1] in ops;
      OthersNeverTouchPositions(sys, s, ops[..|ops| - 1], key);
      OnlyOwnPositions(sys, Run(sys, s, ops[..|ops| - 1]), ops[|ops| - 1], key);
    }
  }
}
