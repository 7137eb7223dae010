/** Gateway and engine together: the statuses that the gateway folds from the broker's history,
    read by the engine's cancel and refresh (gateway/creon_client.py, order_lifecycle.py,
    trading_engine.py). The HTTP hop between them is a field copy. */
module Composition {
  import opened Wrappers
  import opened OrderStatuses
  import opened Tables
  import opened TradingSafety
  import opened OrderMachine
  import opened EngineSpec
  import opened EngineRuns
  import opened CreonOrders

  /** The broker's history only moves forward: the ordered quantity is fixed, fills never fall,
      rejections and cancel confirmations persist, and what a terminal order has filled and whether
      it was rejected no longer changes. */
  predicate Forward(f: Facts, g: Facts) {
    && f.quantity == g.quantity
    && f.filled <= g.filled
    && (f.rejected ==> g.rejected)
    && (f.canceled ==> g.canceled)
    && (IsTerminal(StatusOf(f)) ==> g.filled == f.filled && g.rejected == f.rejected)
  }

  /** A later status is a step of the lifecycle table from an earlier one, and a terminal one stays. */
  lemma ForwardIsTableStep(f: Facts, g: Facts)
    requires Forward(f, g)
    ensures CanTransition(StatusOf(f), StatusOf(g))
    ensures IsTerminal(StatusOf(f)) ==> StatusOf(g) == StatusOf(f)
  {
  }

  lemma ForwardIsTransitive(f: Facts, g: Facts, h: Facts)
    requires Forward(f, g) && Forward(g, h)
    ensures Forward(f, h)
  {
  }

  /** Facts at the broker, one entry per moment. */
  ghost predicate MovesForward(history: seq<Facts>) {
    forall i, j :: 0 <= i && j == i + 1 < |history| ==> Forward(history[i], history[j])
  }

  lemma {:induction false} LaterIsForward(history: seq<Facts>, i: nat, j: nat)
    requires MovesForward(history) && i <= j < |history|
    ensures Forward(history[i], history[j])
    decreases j
  {
    if i < j {
      LaterIsForward(history, i, j - 1);
      ForwardIsTransitive(history[i], history[j - 1], history[j]);
    }
  }

  /** Any two statuses read from such a history, in any order of pages and rows. */
  lemma LaterStatusIsTableStep(b: string, rows: seq<Record>, later: seq<Record>, s: Snapshot, t: Snapshot)
    requires StatusFromRecords(b, rows) == Success(s) && StatusFromRecords(b, later) == Success(t)
    requires Forward(FactsOf(b, rows), FactsOf(b, later))
    ensures CanTransition(s.status, t.status)
    ensures s.filled <= t.filled
    ensures IsTerminal(s.status) ==> t == s
  {
    ForwardSnapshots(FactsOf(b, rows), FactsOf(b, later));
  }

  lemma ForwardSnapshots(f: Facts, g: Facts)
    requires Forward(f, g)
    ensures CanTransition(SnapshotOf(f).status, SnapshotOf(g).status)
    ensures SnapshotOf(f).filled <= SnapshotOf(g).filled
    ensures IsTerminal(SnapshotOf(f).status) ==> SnapshotOf(g) == SnapshotOf(f)
  {
  }

  predicate Polls(op: Op, user: nat, id: nat) {
    (op.Cancel? || op.Refresh?) && op.user == user && op.id == id
  }

  function PollAct(op: Op): Act
    requires op.Cancel? || op.Refresh?
  {
    if op.Cancel? then Act.Cancel(op.answer) else Act.Refresh(op.answer)
  }

  predicate Reads(op: Op, user: nat, id: nat) {
    Polls(op, user, id) && op.answer.Answered?
  }

  /** The gateway answers a poll of the order with the status of the facts at that moment and the
      order's own id, or the call raises. */
  predicate AnsweredFrom(op: Op, user: nat, id: nat, f: Facts) {
    Reads(op, user, id) ==> Carries(op.answer, f)
  }

  predicate Carries(answer: BrokerAnswer, f: Facts)
    requires answer.Answered?
  {
    answer.brokerOrderId.Some? && answer.brokerOrderId.value != "" && answer.status == StatusWord(StatusOf(f))
  }

  /** history[k + 1] holds when request k is made. */
  ghost predicate AllAnsweredFrom(ops: seq<Op>, user: nat, id: nat, history: seq<Facts>)
    requires |history| == |ops| + 1
  {
    forall k :: 0 <= k < |ops| ==> AnsweredFrom(ops[k], user, id, history[k + 1])
  }

  /** The moment of the last status that was read, 0 if none was. */
  function LastRead(ops: seq<Op>, user: nat, id: nat): (k: nat)
    ensures k <= |ops|
  {
    if ops == [] then 0
    else if Reads(ops[|ops| - 1], user, id) then |ops|
    else LastRead(ops[..|ops| - 1], user, id)
  }

  /** The stored order shows the status of these facts. */
  predicate Shows(row: OrderRow, f: Facts) {
    HasBrokerId(row) && row.status == StatusOf(f)
  }

  lemma StatusReadsBack(f: Facts)
    ensures IsBrokerStatus(StatusOf(f)) && NormalizeBrokerStatus(StatusWord(StatusOf(f))) == StatusOf(f)
  {
    WordReadsBack(StatusOf(f));
  }

  lemma PollKeepsOrMoves(id: nat, row: OrderRow, act: Act, answer: BrokerAnswer)
    requires act == Act.Cancel(answer) || act == Act.Refresh(answer)
    requires HasBrokerId(row) && IsBrokerStatus(row.status)
    ensures IsTerminal(row.status) || answer.Raised? ==>
      && Perform(id, row, act).value.row.status == row.status
      && Perform(id, row, act).value.row.brokerOrderId == row.brokerOrderId
    ensures !IsTerminal(row.status) && answer.Answered? ==>
      && Perform(id, row, act).value.row.status == NextStatus(row.status, NormalizeBrokerStatus(answer.status))
      && Perform(id, row, act).value.row.brokerOrderId == (if answer.brokerOrderId.Some? then answer.brokerOrderId else row.brokerOrderId)
  {
    BrokerWork(id, row, answer, if act.Cancel? then BrokerCancelFailed else BrokerRefreshFailed,
      if act.Cancel? then BrokerCancelResult else BrokerStatusRefreshed);
  }

  lemma PollShows(id: nat, row: OrderRow, f: Facts, g: Facts, answer: BrokerAnswer, act: Act)
    requires Shows(row, f) && Forward(f, g)
    requires act == Act.Cancel(answer) || act == Act.Refresh(answer)
    requires answer.Answered? ==> Carries(answer, g)
    ensures Shows(Perform(id, row, act).value.row, if answer.Answered? then g else f)
    ensures Perform(id, row, act).value.row.terms == row.terms
  {
    PerformIsLocal(id, row, act);
    StatusReadsBack(f);
    StatusReadsBack(g);
    ForwardIsTableStep(f, g);
    PollKeepsOrMoves(id, row, act, answer);
  }

  /** What a request leaves of the row of an order that cannot be approved. */
  function RowBy(id: nat, row: OrderRow, op: Op): OrderRow {
    if Polls(op, row.terms.user, id) then Perform(id, row, PollAct(op)).value.row else row
  }

  lemma RowAfter(sys: Settings, s: Store, op: Op, id: nat)
    requires id in s.orders && !CanApprove(s.orders[id].status)
    ensures id in Step(sys, s, op).store.orders
    ensures Step(sys, s, op).store.orders[id] == RowBy(id, s.orders[id], op)
  {
    StepFollowsPlan(sys, s, op);
    PlanFits(sys, s, op);
  }

  lemma RowShows(id: nat, row: OrderRow, op: Op, f: Facts, g: Facts)
    requires Shows(row, f) && Forward(f, g) && AnsweredFrom(op, row.terms.user, id, g)
    ensures RowBy(id, row, op).terms == row.terms
    ensures Shows(RowBy(id, row, op), if Reads(op, row.terms.user, id) then g else f)
    ensures !CanApprove(row.status)
  {
    StatusReadsBack(f);
    if Polls(op, row.terms.user, id) {
      PollShows(id, row, f, g, op.answer, PollAct(op));
    }
  }

  lemma StepShows(sys: Settings, s: Store, op: Op, id: nat, f: Facts, g: Facts)
    requires id in s.orders && Shows(s.orders[id], f) && Forward(f, g)
    requires AnsweredFrom(op, s.orders[id].terms.user, id, g)
    ensures id in Step(sys, s, op).store.orders
    ensures Step(sys, s, op).store.orders[id].terms == s.orders[id].terms
    ensures Shows(Step(sys, s, op).store.orders[id], if Reads(op, s.orders[id].terms.user, id) then g else f)
  {
    RowShows(id, s.orders[id], op, f, g);
    RowAfter(sys, s, op, id);
  }

  /** However many requests follow, by anyone and on any orders: as long as the broker's history of
      this order moves forward, the stored status is the last one that was read. */
  lemma {:induction false} StoredStatusIsLastRead(sys: Settings, s: Store, ops: seq<Op>, id: nat, history: seq<Facts>)
    requires id in s.orders && |history| == |ops| + 1
    requires Shows(s.orders[id], history[0]) && MovesForward(history)
    requires AllAnsweredFrom(ops, s.orders[id].terms.user, id, history)
    ensures id in Run(sys, s, ops).orders && Run(sys, s, ops).orders[id].terms == s.orders[id].terms
    ensures Shows(Run(sys, s, ops).orders[id], history[LastRead(ops, s.orders[id].terms.user, id)])
  {
    if ops != [] {
      var front := ops[..|ops| - 1];
      var past := history[..|ops|];
      var user := s.orders[id].terms.user;
      assert AllAnsweredFrom(front, user, id, past) by {
        forall k | 0 <= k < |front|
          ensures AnsweredFrom(front[k], user, id, past[k + 1])
        {
          assert AnsweredFrom(ops[k], user, id, history[k + 1]);
        }
      }
      StoredStatusIsLastRead(sys, s, front, id, past);
      var k := LastRead(front, user, id);
      LaterIsForward(history, k, |ops|);
      StepShows(sys, Run(sys, s, front), ops[|ops| - 1], id, history[k], history[|ops|]);
    }
  }

  /** The branch that keeps the old status is never taken: each status read is a table step from
      the stored one. */
  lemma FallbackIsNeverTaken(sys: Settings, s: Store, ops: seq<Op>, k: nat, id: nat, history: seq<Facts>)
    requires id in s.orders && |history| == |ops| + 1
    requires Shows(s.orders[id], history[0]) && MovesForward(history)
    requires AllAnsweredFrom(ops, s.orders[id].terms.user, id, history)
    requires k < |ops| && Reads(ops[k], s.orders[id].terms.user, id)
    ensures id in Run(sys, s, ops[..k]).orders
    ensures CanTransition(Run(sys, s, ops[..k]).orders[id].status, NormalizeBrokerStatus(ops[k].answer.status))
  {
    var user := s.orders[id].terms.user;
    var front, past := ops[..k], history[..k + 1];
    assert AllAnsweredFrom(front, user, id, past) by {
      forall i | 0 <= i < |front|
        ensures AnsweredFrom(front[i], user, id, past[i + 1])
      {
        assert AnsweredFrom(ops[i], user, id, history[i + 1]);
      }
    }
    StoredStatusIsLastRead(sys, s, front, id, past);
    var last := LastRead(front, user, id);
    LaterIsForward(history, last, k + 1);
    ForwardIsTableStep(history[last], history[k + 1]);
    assert AnsweredFrom(ops[k], user, id, history[k + 1]);
    StatusReadsBack(history[k + 1]);
  }

  /** An order just placed: accepted, nothing filled, rejected or canceled yet. */
  predicate JustPlaced(f: Facts) {
    f.quantity > 0 && f.filled == 0 && !f.rejected && !f.canceled
  }

  predicate PlacedAs(row: OrderRow, user: nat, p: string) {
    row.status == Submitted && row.brokerOrderId == Some(p) && row.terms.user == user
  }

  lemma SubmittedAs(id: nat, row: OrderRow, p: string)
    requires CanApprove(row.status)
    ensures PlacedAs(Perform(id, row, Submit(Answered(Some(p), StatusWord(Submitted)))).value.row, row.terms.user, p)
  {
    SubmitResult(id, row, Some(p), StatusWord(Submitted));
    PerformIsLocal(id, row, Submit(Answered(Some(p), StatusWord(Submitted))));
    WordReadsBack(Submitted);
  }

  lemma ApprovedRow(sys: Settings, s: Store, op: Op, p: string)
    requires op.ApproveOrder? && op.placed == Answered(Some(p), StatusWord(Submitted)) && Step(sys, s, op).store.calls != s.calls
    ensures op.id in Step(sys, s, op).store.orders && PlacedAs(Step(sys, s, op).store.orders[op.id], op.user, p)
  {
    StepFollowsPlan(sys, s, op);
    ApprovalCall(sys, s, op);
    SubmittedAs(op.id, s.orders[op.id], p);
  }

  lemma NewOrderRow(sys: Settings, s: Store, plan: Plan, p: string)
    requires plan.StagesAndActs? && plan.act == Submit(Answered(Some(p), StatusWord(Submitted)))
    ensures plan.id in Applied(sys, s, plan).orders && PlacedAs(Applied(sys, s, plan).orders[plan.id], plan.terms.user, p)
  {
    SubmittedAs(plan.id, FreshRow(plan.terms), p);
  }

  lemma DecidedPlan(sys: Settings, s: Store, op: Op)
    requires op.Decide? && Step(sys, s, op).store.calls != s.calls
    ensures var plan := PlanOf(sys, s, op); plan.StagesAndActs? && plan.id == op.id && plan.act == Submit(op.placed) && plan.terms.user == op.user
  {
    CallsOfStep(sys, s, op);
    PlanFits(sys, s, op);
    PlanCalls(sys, s, PlanOf(sys, s, op));
  }

  lemma DecidedRow(sys: Settings, s: Store, op: Op, p: string)
    requires op.Decide? && op.placed == Answered(Some(p), StatusWord(Submitted)) && Step(sys, s, op).store.calls != s.calls
    ensures op.id in Step(sys, s, op).store.orders && PlacedAs(Step(sys, s, op).store.orders[op.id], op.user, p)
  {
    DecidedPlan(sys, s, op);
    NewOrderRow(sys, s, PlanOf(sys, s, op), p);
    StepFollowsPlan(sys, s, op);
  }

  /** The request sent an order of the user to the gateway, by approval or by an automatic decision,
      and the gateway accepted it under the id p. */
  predicate Places(sys: Settings, s: Store, op: Op, p: string) {
    && (op.ApproveOrder? || op.Decide?) && op.placed == Answered(Some(p), StatusWord(Submitted)) && p != ""
    && Step(sys, s, op).store.calls != s.calls
  }

  /** From the placement on: the order shows the last status read. */
  lemma PlacedOrderFollowsGateway(sys: Settings, s: Store, op: Op, p: string, ops: seq<Op>, history: seq<Facts>)
    requires Places(sys, s, op, p)
    requires |history| == |ops| + 1 && JustPlaced(history[0]) && MovesForward(history)
    requires AllAnsweredFrom(ops, op.user, op.id, history)
    ensures op.id in Run(sys, Step(sys, s, op).store, ops).orders
    ensures Run(sys, Step(sys, s, op).store, ops).orders[op.id].status == StatusOf(history[LastRead(ops, op.user, op.id)])
  {
    if op.ApproveOrder? {
      ApprovedRow(sys, s, op, p);
    } else {
      DecidedRow(sys, s, op, p);
    }
    StoredStatusIsLastRead(sys, Step(sys, s, op).store, ops, op.id, history);
  }
}
