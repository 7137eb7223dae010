/** What holds after any run of engine requests, by any users, on any orders. */
module EngineRuns {
  import opened Wrappers
  import opened PyText
  import opened OrderStatuses
  import opened Tables
  import opened TradingSafety
  import opened OrderMachine
  import opened EngineSpec
  import PaperLedgerFacts
  import Risk

  // ---------------------------------------------------------------------------------------------
  // The part of a request that touches orders
  // ---------------------------------------------------------------------------------------------

  /** A request stages at most one new order and runs at most one method on one order. A new order
      that a method runs on at once has its unrounded terms until the method is done. */
  datatype Plan =
    | Idle
    | Stages(id: nat, terms: OrderTerms)
    | Acts(id: nat, act: Act)
    | StagesAndActs(id: nat, terms: OrderTerms, act: Act)

  function PlanOf(sys: Settings, s: Store, op: Op): Plan {
    match op
    case CreateManual(user, id, create) => if id in s.orders then Idle else Stages(id, Stored(ManualTerms(user, create)))
    case PreviewOrder(user, id, quote) =>
      if Owns(s, user, id) && ApprovalPrice(s.orders[id].terms, quote).Some? then Acts(id, Preview) else Idle
    case ApproveOrder(user, id, text, quote, placed) =>
      if !Owns(s, user, id) || !CanApprove(s.orders[id].status) then Idle
      else
        var terms := s.orders[id].terms;
        var price := ApprovalPrice(terms, quote);
        if price.None? then Idle
        else Acts(id, ApprovalAct(sys, SafetyOf(sys, s, user), id, terms, text, price.value, placed))
    case Cancel(user, id, answer) => if Owns(s, user, id) then Acts(id, Act.Cancel(answer)) else Idle
    case Refresh(user, id, answer) => if Owns(s, user, id) then Acts(id, Act.Refresh(answer)) else Idle
    case Decide(user, id, requested, d, snapshotPrice, quote, placed) =>
      var row := SafetyOf(sys, s, user);
      var c := CaseOf(sys, s, op);
      if !AutoExecutes(sys, c) || id in s.orders then Idle
      else
        var terms := DecidedTerms(user, c);
        var price := ApprovalPrice(terms, quote);
        if price.None? then Idle
        else StagesAndActs(id, terms, ApprovalAct(sys, row, id, terms, ConfirmationText(id), price.value, placed))
    case SetSafety(user, payload) => Idle
  }

  function Applied(sys: Settings, s: Store, plan: Plan): Store {
    match plan
    case Idle => s
    case Stages(id, terms) => WithNewOrder(s, id, terms, ManualOrderStaged)
    case Acts(id, act) => if id in s.orders then Finish(sys, s, id, act) else s
    case StagesAndActs(id, terms, act) => Settled(Finish(sys, WithNewOrder(s, id, terms, AiDecisionOrderCreated), id, act), id)
  }

  lemma FinishIgnoresSafety(sys: Settings, s: Store, id: nat, act: Act, safety: map<nat, SafetyRow>)
    requires id in s.orders
    ensures Finish(sys, s.(safety := safety), id, act) == Finish(sys, s, id, act).(safety := safety)
  {
  }

  ghost predicate FollowsPlan(sys: Settings, s: Store, op: Op) {
    Step(sys, s, op).store == Applied(sys, s, PlanOf(sys, s, op)).(safety := Step(sys, s, op).store.safety)
  }

  lemma DecideFollowsPlan(sys: Settings, s: Store, op: Op)
    requires op.Decide?
    ensures FollowsPlan(sys, s, op)
  {
    var c := CaseOf(sys, s, op);
    if !AutoExecutes(sys, c) || op.id in s.orders {
      IdleDecision(sys, s, op);
    } else {
      var terms := DecidedTerms(op.user, c);
      if ApprovalPrice(terms, op.quote).None? {
        UnpricedDecision(sys, s, op, terms);
      } else {
        ExecuteFollowsPlan(sys, s, op.user, op.id, terms, op.quote, op.placed);
      }
    }
  }

  lemma IdleDecision(sys: Settings, s: Store, op: Op)
    requires op.Decide? && (!AutoExecutes(sys, CaseOf(sys, s, op)) || op.id in s.orders)
    ensures Step(sys, s, op).store == s.(safety := Step(sys, s, op).store.safety)
  {
  }

  lemma UnpricedDecision(sys: Settings, s: Store, op: Op, terms: OrderTerms)
    requires op.Decide? && AutoExecutes(sys, CaseOf(sys, s, op)) && op.id !in s.orders
    requires terms == DecidedTerms(op.user, CaseOf(sys, s, op)) && ApprovalPrice(terms, op.quote).None?
    ensures Step(sys, s, op).store == s
  {
  }

  /** A request changes the tables as its plan says, and the safety settings on their own. */
  lemma StepFollowsPlan(sys: Settings, s: Store, op: Op)
    ensures FollowsPlan(sys, s, op)
  {
    if op.Decide? {
      DecideFollowsPlan(sys, s, op);
    } else if op.PreviewOrder? && Owns(s, op.user, op.id) {
      FinishIgnoresSafety(sys, s, op.id, Preview, WithSafety(sys, s, op.user).safety);
    } else if op.ApproveOrder? && Owns(s, op.user, op.id) && CanApprove(s.orders[op.id].status)
              && ApprovalPrice(s.orders[op.id].terms, op.quote).Some? {
      ApproveFollowsPlan(sys, s, op.user, op.id, op.text, op.quote, op.placed);
    }
  }

  lemma ApproveFollowsPlan(sys: Settings, s: Store, user: nat, id: nat, text: string, quote: Quote, placed: BrokerAnswer)
    requires Owns(s, user, id) && CanApprove(s.orders[id].status) && ApprovalPrice(s.orders[id].terms, quote).Some?
    ensures var act := ApprovalAct(sys, SafetyOf(sys, s, user), id, s.orders[id].terms, text, ApprovalPrice(s.orders[id].terms, quote).value, placed);
      Approve(sys, s, user, id, text, quote, placed).store == Finish(sys, s, id, act).(safety := WithSafety(sys, s, user).safety)
  {
    var act := ApprovalAct(sys, SafetyOf(sys, s, user), id, s.orders[id].terms, text, ApprovalPrice(s.orders[id].terms, quote).value, placed);
    FinishIgnoresSafety(sys, s, id, act, WithSafety(sys, s, user).safety);
  }

  lemma ExecuteFollowsPlan(sys: Settings, s: Store, user: nat, id: nat, terms: OrderTerms, quote: Quote, placed: BrokerAnswer)
    requires id !in s.orders && terms.user == user && ApprovalPrice(terms, quote).Some?
    ensures var t := WithSafety(sys, s, user);
      var executed := Execute(sys, t, user, id, terms, quote, placed);
      var act := ApprovalAct(sys, SafetyOf(sys, s, user), id, terms, ConfirmationText(id), ApprovalPrice(terms, quote).value, placed);
      && executed.reply !in {DuplicateId, QuoteFailed}
      && executed.store == Settled(Finish(sys, WithNewOrder(s, id, terms, AiDecisionOrderCreated), id, act), id).(safety := t.safety)
  {
    var t := WithSafety(sys, s, user);
    var staged := WithNewOrder(t, id, terms, AiDecisionOrderCreated);
    var bare := WithNewOrder(s, id, terms, AiDecisionOrderCreated);
    assert staged == bare.(safety := t.safety);
    assert WithSafety(sys, staged, user).safety == t.safety;
    ApproveFollowsPlan(sys, staged, user, id, ConfirmationText(id), quote, placed);
    var act := ApprovalAct(sys, SafetyOf(sys, s, user), id, terms, ConfirmationText(id), ApprovalPrice(terms, quote).value, placed);
    FinishIgnoresSafety(sys, bare, id, act, t.safety);
  }

  // ---------------------------------------------------------------------------------------------
  // The lives of the orders
  // ---------------------------------------------------------------------------------------------

  function Trail(s: Store, id: nat): seq<OrderEvent> {
    Filter(s.events, (e: OrderEvent) => e.orderId == id)
  }

  function CallsFor(s: Store, id: nat): seq<PlaceCall> {
    Filter(s.calls, (c: PlaceCall) => c.orderId == id)
  }

  function LifeOf(s: Store, id: nat): Life
    requires id in s.orders
  {
    Life(s.orders[id], Trail(s, id), CallsFor(s, id))
  }

  ghost predicate LogsOK(s: Store) {
    && (forall e :: e in s.events ==> e.orderId in s.orders)
    && (forall c :: c in s.calls ==> c.orderId in s.orders)
  }

  /** What every reachable state satisfies. */
  ghost predicate Inv(sys: Settings, s: Store) {
    && LogsOK(s)
    && (forall id :: id in s.orders ==> LifeOK(LifeOf(s, id)))
    && (forall user :: user in s.safety ==> WithinSystemLimits(s.safety[user], sys))
  }

  /** All events and calls of one piece of work belong to its order. */
  predicate IsLocal(id: nat, w: Work) {
    && (forall e :: e in w.events ==> e.orderId == id)
    && (forall c :: c in w.calls ==> c.orderId == id)
  }

  lemma PerformIsLocal(id: nat, row: OrderRow, act: Act)
    ensures IsLocal(id, Perform(id, row, act).value)
    ensures Perform(id, row, act).value.row.terms == row.terms
  {
    if act.Submit? && CanApprove(row.status) {
      SubmitWork(id, row, act.placed);
    }
  }

  lemma {:induction false} FilterNone<T(!new)>(s: seq<T>, p: T -> bool)
    requires forall x :: x in s ==> !p(x)
    ensures Filter(s, p) == []
  {
    if s != [] {
      FilterNone(s[..|s| - 1], p);
    }
  }

  /** Committing work on one order extends its life and no other. */
  lemma CommitLife(s: Store, id: nat, w: Work, other: nat)
    requires id in s.orders && other in s.orders && IsLocal(id, w)
    ensures LifeOf(Commit(s, id, w), other) == if other == id then Lived(LifeOf(s, id), w) else LifeOf(s, other)
  {
    FilterAppend(s.events, w.events, (e: OrderEvent) => e.orderId == other);
    FilterAppend(s.calls, w.calls, (c: PlaceCall) => c.orderId == other);
    if other == id {
      FilterKeepsAll(w.events, (e: OrderEvent) => e.orderId == other);
      FilterKeepsAll(w.calls, (c: PlaceCall) => c.orderId == other);
    } else {
      FilterNone(w.events, (e: OrderEvent) => e.orderId == other);
      FilterNone(w.calls, (c: PlaceCall) => c.orderId == other);
    }
  }

  lemma FinishLife(sys: Settings, s: Store, id: nat, act: Act, other: nat)
    requires id in s.orders && other in s.orders
    ensures LifeOf(Finish(sys, s, id, act), other)
         == if other == id then Lived(LifeOf(s, id), Perform(id, s.orders[id], act).value) else LifeOf(s, other)
  {
    PerformIsLocal(id, s.orders[id], act);
    CommitLife(s, id, Perform(id, s.orders[id], act).value, other);
  }

  lemma StageLife(s: Store, id: nat, terms: OrderTerms, kind: EventKind, other: nat)
    requires LogsOK(s) && id !in s.orders && (other == id || other in s.orders)
    ensures LifeOf(WithNewOrder(s, id, terms, kind), other)
         == if other == id then Life(FreshRow(terms), [OrderEvent(id, None, PendingApproval, kind)], [])
            else LifeOf(s, other)
  {
    var e := OrderEvent(id, None, PendingApproval, kind);
    assert (s.events + [e])[..|s.events|] == s.events;
    if other == id {
      FilterNone(s.events, (e: OrderEvent) => e.orderId == other);
      FilterNone(s.calls, (c: PlaceCall) => c.orderId == other);
    }
  }

  /** Rounding the terms of one order changes no life but in those terms. */
  lemma SettledLife(s: Store, id: nat, other: nat)
    requires id in s.orders && other in s.orders
    ensures LifeOf(Settled(s, id), other)
         == if other == id then LifeOf(s, id).(row := s.orders[id].(terms := Stored(s.orders[id].terms))) else LifeOf(s, other)
  {
  }

  lemma SettleKeepsInv(sys: Settings, s: Store, id: nat)
    requires Inv(sys, s) && id in s.orders
    ensures Inv(sys, Settled(s, id))
  {
    var t := Settled(s, id);
    forall other | other in t.orders
      ensures LifeOK(LifeOf(t, other))
    {
      SettledLife(s, id, other);
      TermsDoNotMatter(LifeOf(s, other), Stored(s.orders[other].terms));
    }
  }

  lemma TermsDoNotMatter(l: Life, terms: OrderTerms)
    requires LifeOK(l)
    ensures LifeOK(l.(row := l.row.(terms := terms)))
  {
  }

  lemma StageKeepsInv(sys: Settings, s: Store, id: nat, terms: OrderTerms, kind: EventKind)
    requires Inv(sys, s) && id !in s.orders && kind in {ManualOrderStaged, AiDecisionOrderCreated}
    ensures Inv(sys, WithNewOrder(s, id, terms, kind))
  {
    var t := WithNewOrder(s, id, terms, kind);
    forall other | other in t.orders
      ensures LifeOK(LifeOf(t, other))
    {
      StageLife(s, id, terms, kind, other);
      FreshLife(id, terms, kind);
    }
  }

  lemma FinishKeepsLogs(sys: Settings, s: Store, id: nat, act: Act)
    requires LogsOK(s) && id in s.orders
    ensures LogsOK(Finish(sys, s, id, act))
    ensures Finish(sys, s, id, act).orders.Keys == s.orders.Keys
  {
    PerformIsLocal(id, s.orders[id], act);
  }

  lemma FinishKeepsInv(sys: Settings, s: Store, id: nat, act: Act)
    requires Inv(sys, s) && id in s.orders
    ensures Inv(sys, Finish(sys, s, id, act))
  {
    var t := Finish(sys, s, id, act);
    FinishKeepsLogs(sys, s, id, act);
    forall other | other in t.orders
      ensures LifeOK(LifeOf(t, other))
    {
      FinishLife(sys, s, id, act, other);
      PerformKeepsLife(id, LifeOf(s, id), act);
    }
  }

  lemma SafetyStaysWithinLimits(sys: Settings, s: Store, op: Op)
    requires forall user :: user in s.safety ==> WithinSystemLimits(s.safety[user], sys)
    ensures var t := Step(sys, s, op).store;
      forall user :: user in t.safety ==> WithinSystemLimits(t.safety[user], sys)
  {
  }

  lemma InvIgnoresSafety(sys: Settings, s: Store, safety: map<nat, SafetyRow>)
    requires Inv(sys, s) && forall user :: user in safety ==> WithinSystemLimits(safety[user], sys)
    ensures Inv(sys, s.(safety := safety))
  {
    var t := s.(safety := safety);
    forall id | id in t.orders
      ensures LifeOK(LifeOf(t, id))
    {
      assert LifeOf(t, id) == LifeOf(s, id);
    }
  }

  predicate Fits(s: Store, plan: Plan) {
    match plan
    case Idle => true
    case Stages(id, _) => id !in s.orders
    case Acts(id, _) => id in s.orders
    case StagesAndActs(id, _, act) => id !in s.orders && !act.Cancel? && !act.Refresh?
  }

  lemma PlanFits(sys: Settings, s: Store, op: Op)
    ensures Fits(s, PlanOf(sys, s, op))
  {
  }

  lemma PlanKeepsInv(sys: Settings, s: Store, plan: Plan)
    requires Inv(sys, s) && Fits(s, plan)
    ensures Inv(sys, Applied(sys, s, plan))
  {
    match plan
    case Idle =>
    case Stages(id, terms) => StageKeepsInv(sys, s, id, terms, ManualOrderStaged);
    case Acts(id, act) => FinishKeepsInv(sys, s, id, act);
    case StagesAndActs(id, terms, act) =>
      var staged := WithNewOrder(s, id, terms, AiDecisionOrderCreated);
      StageKeepsInv(sys, s, id, terms, AiDecisionOrderCreated);
      FinishKeepsInv(sys, staged, id, act);
      SettleKeepsInv(sys, Finish(sys, staged, id, act), id);
  }

  /** Every request keeps the invariant. */
  lemma StepKeepsInv(sys: Settings, s: Store, op: Op)
    requires Inv(sys, s)
    ensures Inv(sys, Step(sys, s, op).store)
  {
    StepFollowsPlan(sys, s, op);
    PlanFits(sys, s, op);
    PlanKeepsInv(sys, s, PlanOf(sys, s, op));
    SafetyStaysWithinLimits(sys, s, op);
    InvIgnoresSafety(sys, Applied(sys, s, PlanOf(sys, s, op)), Step(sys, s, op).store.safety);
  }

  lemma {:induction false} RunKeepsInv(sys: Settings, s: Store, ops: seq<Op>)
    requires Inv(sys, s)
    ensures Inv(sys, Run(sys, s, ops))
  {
    if ops != [] {
      RunKeepsInv(sys, s, ops[..|ops| - 1]);
      StepKeepsInv(sys, Run(sys, s, ops[..|ops| - 1]), ops[|ops| - 1]);
    }
  }

  // ---------------------------------------------------------------------------------------------
  // Theorems on runs
  // ---------------------------------------------------------------------------------------------

  /** From empty tables, every order of every run has a sound life (see LifeOK): its event log is
      a chain of table steps that ends at its status, its attempts are its `broker_submit_started`
      events and its `place_order` calls, its final stamps agree with its status and every stamp
      with the statuses that its events reached, no call follows an accepted one, it is at rest, and it made at most 3 * attempts + 2 real changes. */
  lemma EveryOrderLivesSoundly(sys: Settings, ops: seq<Op>, id: nat)
    requires id in Run(sys, EMPTY, ops).orders
    ensures var s := Run(sys, EMPTY, ops);
      var row, trail, calls := s.orders[id], Trail(s, id), CallsFor(s, id);
      && Chain(trail, row.status) && row.status !in {Approved, Submitting}
      && row.attempts == Count(trail, IsSubmitStart) == |calls|
      && (FilledAt in row.stamps <==> row.status == Filled)
      && (RejectedAt in row.stamps <==> row.status == Rejected)
      && (CanceledAt in row.stamps <==> row.status == Canceled)
      && StampsTell(row.stamps, trail)
      && (forall i :: 0 <= i < |calls| - 1 ==> CallFailed(calls[i]))
      && Count(trail, IsFill) == (if row.status == Filled then 1 else 0)
      && Count(trail, IsChange) <= 3 * row.attempts + 2
  {
    RunKeepsInv(sys, EMPTY, ops);
    assert LifeOK(LifeOf(Run(sys, EMPTY, ops), id));
  }

  lemma PlanOnOrder(sys: Settings, s: Store, plan: Plan, id: nat) returns (act: Option<Act>)
    requires LogsOK(s) && id in s.orders && Fits(s, plan)
    ensures id in Applied(sys, s, plan).orders
    ensures LifeOf(Applied(sys, s, plan), id)
         == if act.None? then LifeOf(s, id) else Lived(LifeOf(s, id), Perform(id, s.orders[id], act.value).value)
  {
    act := None;
    match plan {
      case Idle =>
      case Stages(staged, terms) =>
        StageLife(s, staged, terms, ManualOrderStaged, id);
      case Acts(acted, a) =>
        FinishLife(sys, s, acted, a, id);
        act := if acted == id then Some(a) else None;
      case StagesAndActs(staged, terms, a) =>
        NewOrderLeavesLives(sys, s, staged, terms, a, id);
    }
  }

  lemma NewOrderLeavesLives(sys: Settings, s: Store, staged: nat, terms: OrderTerms, act: Act, id: nat)
    requires LogsOK(s) && id in s.orders && staged !in s.orders
    ensures id in Applied(sys, s, StagesAndActs(staged, terms, act)).orders
    ensures LifeOf(Applied(sys, s, StagesAndActs(staged, terms, act)), id) == LifeOf(s, id)
  {
    var created := WithNewOrder(s, staged, terms, AiDecisionOrderCreated);
    StageLife(s, staged, terms, AiDecisionOrderCreated, id);
    FinishLife(sys, created, staged, act, id);
    SettledLife(Finish(sys, created, staged, act), staged, id);
  }

  /** What one request does to one existing order: nothing, or one method. */
  lemma StepOnOrder(sys: Settings, s: Store, op: Op, id: nat) returns (act: Option<Act>)
    requires LogsOK(s) && id in s.orders
    ensures id in Step(sys, s, op).store.orders
    ensures LifeOf(Step(sys, s, op).store, id)
         == if act.None? then LifeOf(s, id) else Lived(LifeOf(s, id), Perform(id, s.orders[id], act.value).value)
  {
    StepFollowsPlan(sys, s, op);
    PlanFits(sys, s, op);
    act := PlanOnOrder(sys, s, PlanOf(sys, s, op), id);
    assert LifeOf(Step(sys, s, op).store, id) == LifeOf(Applied(sys, s, PlanOf(sys, s, op)), id);
  }

  ghost predicate WasAccepted(s: Store, id: nat) {
    exists c :: c in CallsFor(s, id) && !CallFailed(c)
  }

  lemma AcceptedIsNotApprovable(sys: Settings, s: Store, id: nat)
    requires Inv(sys, s) && id in s.orders && WasAccepted(s, id)
    ensures !CanApprove(s.orders[id].status)
  {
  }

  lemma AcceptedStep(sys: Settings, s: Store, op: Op, id: nat)
    requires Inv(sys, s) && id in s.orders && WasAccepted(s, id)
    ensures id in Step(sys, s, op).store.orders && CallsFor(Step(sys, s, op).store, id) == CallsFor(s, id)
  {
    AcceptedIsNotApprovable(sys, s, id);
    var act := StepOnOrder(sys, s, op, id);
    if act.Some? {
      QuietUnlessApprovable(id, s.orders[id], act.value);
    }
  }

  lemma QuietUnlessApprovable(id: nat, row: OrderRow, act: Act)
    requires !CanApprove(row.status)
    ensures Perform(id, row, act).value.calls == []
  {
  }

  /** Once `place_order` was answered with anything but a failed submission, no later request
      calls it again for that order. */
  lemma {:induction false} NoSecondSubmission(sys: Settings, s: Store, ops: seq<Op>, id: nat)
    requires Inv(sys, s) && id in s.orders && WasAccepted(s, id)
    ensures var t := Run(sys, s, ops); id in t.orders && CallsFor(t, id) == CallsFor(s, id)
  {
    if ops != [] {
      var front := ops[..|ops| - 1];
      var t := Run(sys, s, front);
      NoSecondSubmission(sys, s, front, id);
      RunKeepsInv(sys, s, front);
      AcceptedStep(sys, t, ops[|ops| - 1], id);
    }
  }

  predicate IsPreview(e: OrderEvent) {
    e.kind == ApprovalPreviewed && e.was == Some(e.now)
  }

  lemma TerminalAct(id: nat, row: OrderRow, act: Act)
    requires IsTerminal(row.status)
    ensures var w := Perform(id, row, act).value;
      w.row == row && w.calls == [] && forall e :: e in w.events ==> IsPreview(e)
  {
  }

  /** The order's row and calls are the same, and its event log has these events more. */
  ghost predicate OnlyAdds(s: Store, t: Store, id: nat, added: seq<OrderEvent>) {
    && id in s.orders && id in t.orders && t.orders[id] == s.orders[id]
    && Trail(t, id) == Trail(s, id) + added && CallsFor(t, id) == CallsFor(s, id)
    && forall e :: e in added ==> IsPreview(e)
  }

  lemma TerminalStep(sys: Settings, s: Store, op: Op, id: nat) returns (added: seq<OrderEvent>)
    requires LogsOK(s) && id in s.orders && IsTerminal(s.orders[id].status)
    ensures OnlyAdds(s, Step(sys, s, op).store, id, added)
  {
    var act := StepOnOrder(sys, s, op, id);
    if act.Some? {
      TerminalAct(id, s.orders[id], act.value);
      added := Perform(id, s.orders[id], act.value).value.events;
    } else {
      added := [];
    }
  }

  lemma AddsTwice(s: Store, t: Store, u: Store, id: nat, first: seq<OrderEvent>, second: seq<OrderEvent>)
    requires OnlyAdds(s, t, id, first) && OnlyAdds(t, u, id, second)
    ensures OnlyAdds(s, u, id, first + second)
  {
    ConcatAssociates(Trail(s, id), first, second);
  }

  /** A terminal order is final: its row and its calls stay, and only preview events are added. */
  lemma {:induction false} TerminalIsFinal(sys: Settings, s: Store, ops: seq<Op>, id: nat) returns (added: seq<OrderEvent>)
    requires Inv(sys, s) && id in s.orders && IsTerminal(s.orders[id].status)
    ensures OnlyAdds(s, Run(sys, s, ops), id, added)
  {
    added := [];
    if ops != [] {
      var front := ops[..|ops| - 1];
      var before := TerminalIsFinal(sys, s, front, id);
      RunKeepsLogs(sys, s, front);
      added := TerminalNext(sys, s, Run(sys, s, front), ops[|ops| - 1], id, before);
    }
  }

  lemma TerminalNext(sys: Settings, s: Store, t: Store, op: Op, id: nat, before: seq<OrderEvent>) returns (added: seq<OrderEvent>)
    requires LogsOK(t) && OnlyAdds(s, t, id, before) && IsTerminal(s.orders[id].status)
    ensures OnlyAdds(s, Step(sys, t, op).store, id, added)
  {
    var last := TerminalStep(sys, t, op, id);
    AddsTwice(s, t, Step(sys, t, op).store, id, before, last);
    added := before + last;
  }

  lemma RunKeepsLogs(sys: Settings, s: Store, ops: seq<Op>)
    requires Inv(sys, s)
    ensures LogsOK(Run(sys, s, ops))
  {
    RunKeepsInv(sys, s, ops);
  }

  // ---------------------------------------------------------------------------------------------
  // The orders table shows limit prices in whole hundredths
  // ---------------------------------------------------------------------------------------------

  ghost predicate PricesStored(s: Store) {
    forall id :: id in s.orders ==> Stored(s.orders[id].terms) == s.orders[id].terms
  }

  lemma StoringTwice(terms: OrderTerms)
    ensures Stored(Stored(terms)) == Stored(terms)
  {
    if terms.limitPrice.Some? {
      PaperLedgerFacts.RoundsOnce(terms.limitPrice.value);
    }
  }

  lemma PlanStoresPrices(sys: Settings, s: Store, plan: Plan)
    requires PricesStored(s) && Fits(s, plan)
    requires plan.Stages? ==> Stored(plan.terms) == plan.terms
    ensures PricesStored(Applied(sys, s, plan))
  {
    if plan.Acts? {
      PerformIsLocal(plan.id, s.orders[plan.id], plan.act);
    } else if plan.StagesAndActs? {
      PerformIsLocal(plan.id, FreshRow(plan.terms), plan.act);
      StoringTwice(plan.terms);
    }
  }

  lemma StagedTermsAreStored(sys: Settings, s: Store, op: Op)
    ensures PlanOf(sys, s, op).Stages? ==> Stored(PlanOf(sys, s, op).terms) == PlanOf(sys, s, op).terms
  {
    if op.CreateManual? {
      StoringTwice(ManualTerms(op.user, op.create));
    }
  }

  /** Whatever prices requests and decisions name. */
  lemma {:induction false} RunStoresPrices(sys: Settings, s: Store, ops: seq<Op>)
    requires PricesStored(s)
    ensures PricesStored(Run(sys, s, ops))
  {
    if ops != [] {
      var t, op := Run(sys, s, ops[..|ops| - 1]), ops[|ops| - 1];
      RunStoresPrices(sys, s, ops[..|ops| - 1]);
      StepFollowsPlan(sys, t, op);
      PlanFits(sys, t, op);
      StagedTermsAreStored(sys, t, op);
      PlanStoresPrices(sys, t, PlanOf(sys, t, op));
    }
  }

  // ---------------------------------------------------------------------------------------------
  // Every call of place_order is guarded
  // ---------------------------------------------------------------------------------------------

  /** A person approved this order in this request, or the automatic switch did for a decision
      that the risk gate approved. */
  ghost predicate Confirmed(sys: Settings, s: Store, op: Op, c: PlaceCall) {
    match op
    case ApproveOrder(user, id, text, quote, placed) =>
      && Owns(s, user, id) && c == PlaceCall(id, s.orders[id].terms, placed)
      && Strip(text) == ConfirmationText(id)
    case Decide(user, id, requested, d, snapshotPrice, quote, placed) =>
      && id !in s.orders && AutoExecutes(sys, CaseOf(sys, s, op))
      && c == PlaceCall(id, DecidedTerms(user, CaseOf(sys, s, op)), placed)
    case _ => false
  }

  /** Under the caps and gates of the user's settings at that moment. */
  ghost predicate WithinCaps(sys: Settings, s: Store, op: Op, c: PlaceCall) {
    var row := SafetyOf(sys, s, c.terms.user);
    var quote := if op.ApproveOrder? || op.Decide? then op.quote else None;
    && ApprovalPrice(c.terms, quote).Some?
    && Notional(c.terms, ApprovalPrice(c.terms, quote).value) <= Min(row.maxOrder, sys.maxOrder) as real
    && (sys.Live() ==> sys.LiveEnabled() && row.liveOptIn)
  }

  ghost predicate Guarded(sys: Settings, s: Store, op: Op, c: PlaceCall) {
    Confirmed(sys, s, op, c) && WithinCaps(sys, s, op, c)
  }

  lemma ApprovalCall(sys: Settings, s: Store, op: Op)
    requires op.ApproveOrder? && Step(sys, s, op).store.calls != s.calls
    ensures Owns(s, op.user, op.id)
    ensures var c := PlaceCall(op.id, s.orders[op.id].terms, op.placed);
      Step(sys, s, op).store.calls == s.calls + [c] && Guarded(sys, s, op, c)
  {
    StepFollowsPlan(sys, s, op);
    var plan := PlanOf(sys, s, op);
    if plan.Acts? && plan.act.Submit? {
      SubmitWork(op.id, s.orders[op.id], op.placed);
    }
  }

  /** The calls that a plan's method makes. */
  function PlannedCalls(s: Store, plan: Plan): seq<PlaceCall>
    requires Fits(s, plan)
  {
    match plan
    case Idle => []
    case Stages(_, _) => []
    case Acts(id, act) => Perform(id, s.orders[id], act).value.calls
    case StagesAndActs(id, terms, act) => if act.Submit? then [PlaceCall(id, terms, act.placed)] else []
  }

  lemma PlanCalls(sys: Settings, s: Store, plan: Plan)
    requires Fits(s, plan)
    ensures Applied(sys, s, plan).calls == s.calls + PlannedCalls(s, plan)
  {
    if plan.StagesAndActs? && plan.act.Submit? {
      SubmitWork(plan.id, FreshRow(plan.terms), plan.act.placed);
    }
  }

  lemma CallsOfStep(sys: Settings, s: Store, op: Op)
    ensures Step(sys, s, op).store.calls == Applied(sys, s, PlanOf(sys, s, op)).calls
  {
    StepFollowsPlan(sys, s, op);
  }

  lemma DecisionCall(sys: Settings, s: Store, op: Op)
    requires op.Decide? && Step(sys, s, op).store.calls != s.calls
    ensures AutoExecutes(sys, CaseOf(sys, s, op))
    ensures var c := PlaceCall(op.id, DecidedTerms(op.user, CaseOf(sys, s, op)), op.placed);
      Step(sys, s, op).store.calls == s.calls + [c] && Guarded(sys, s, op, c)
  {
    CallsOfStep(sys, s, op);
    PlanFits(sys, s, op);
    PlanCalls(sys, s, PlanOf(sys, s, op));
  }

  lemma NewCalls(sys: Settings, s: Store, op: Op)
    ensures var t := Step(sys, s, op).store;
      || t.calls == s.calls
      || exists c :: t.calls == s.calls + [c] && Guarded(sys, s, op, c)
  {
    StepFollowsPlan(sys, s, op);
    if op.ApproveOrder? && Step(sys, s, op).store.calls != s.calls {
      ApprovalCall(sys, s, op);
    } else if op.Decide? && Step(sys, s, op).store.calls != s.calls {
      DecisionCall(sys, s, op);
    }
  }

  /** Every `place_order` call of every run was made by a request that confirmed that very order,
      within the caps and behind the live gates that held when it was made. */
  lemma {:induction false} EveryCallIsGuarded(sys: Settings, ops: seq<Op>, i: nat) returns (k: nat)
    requires i < |Run(sys, EMPTY, ops).calls|
    ensures k < |ops|
    ensures var s, c := Run(sys, EMPTY, ops[..k]), Run(sys, EMPTY, ops).calls[i];
      |s.calls| == i && Guarded(sys, s, ops[k], c)
  {
    var front := ops[..|ops| - 1];
    var s := Run(sys, EMPTY, front);
    NewCalls(sys, s, ops[|ops| - 1]);
    if i < |s.calls| {
      k := EveryCallIsGuarded(sys, front, i);
      assert front[..k] == ops[..k];
    } else {
      k := |front|;
    }
  }
}
