/** How the confirmation text and the risk gate meet the approval check (trading_engine.py). */
module Approvals {
  import opened Wrappers
  import opened PyText
  import opened OrderStatuses
  import opened Tables
  import opened TradingSafety
  import opened OrderMachine
  import opened EngineSpec
  import opened EngineRuns
  import Risk

  /** One text confirms at most one order, and the engine's own text confirms its order. */
  lemma ConfirmationNamesOneOrder(text: string, id: nat, other: nat)
    ensures Strip(ConfirmationText(id)) == ConfirmationText(id)
    ensures Strip(text) == ConfirmationText(id) && Strip(text) == ConfirmationText(other) ==> id == other
  {
    ConfirmationStrips(id);
    if ConfirmationText(id) == ConfirmationText(other) {
      assert DecimalText(id) == ConfirmationText(id)[8..] == ConfirmationText(other)[8..] == DecimalText(other);
      DecimalTextInjective(id, other);
    }
  }

  /** The order cap that the gate checked also holds at the limit price, even at a limit of 0, which
      the gate itself replaces by the snapshot's price. */
  lemma GatePrice(c: Risk.RiskCase)
    requires c.decision.limitPrice.Some? && c.Verdict() == Risk.Approved && c.decision.action.Trade?
    ensures c.decision.quantity as real * c.decision.limitPrice.value <= c.OrderLimit() as real
  {
    assert !c.Applies(Risk.OverOrderLimit);
    if c.decision.limitPrice.value == 0.0 {
      assert c.decision.quantity as real * c.decision.limitPrice.value == 0.0;
    }
  }

  lemma GateOpensLive(c: Risk.RiskCase)
    requires c.Verdict() == Risk.Approved && c.decision.action.Trade? && c.sys.Live()
    ensures c.sys.LiveEnabled() && c.liveOptIn
  {
    assert !c.Applies(Risk.SystemLiveDisabled) && !c.Applies(Risk.UserLiveDisabled);
  }

  lemma AutoExecutedPlan(sys: Settings, s: Store, op: Op, c: Risk.RiskCase, terms: OrderTerms)
    requires op.Decide? && op.id !in s.orders
    requires c == CaseOf(sys, s, op)
    requires AutoExecutes(sys, c) && terms == DecidedTerms(op.user, c)
    ensures var price := ApprovalPrice(terms, op.quote);
      PlanOf(sys, s, op) ==
        if price.None? then Idle
        else if Notional(terms, price.value) <= EffectiveMaxOrder(SafetyOf(sys, s, op.user), sys) as real
        then StagesAndActs(op.id, terms, Submit(op.placed)) else StagesAndActs(op.id, terms, Block)
  {
    ConfirmationStrips(op.id);
    if sys.Live() {
      GateOpensLive(c);
    }
  }

  /** The approval price, the limit price or else the quote, keeps the order within the cap. */
  predicate WithinOrderCap(sys: Settings, s: Store, user: nat, terms: OrderTerms, quote: Quote) {
    && ApprovalPrice(terms, quote).Some?
    && Notional(terms, ApprovalPrice(terms, quote).value) <= EffectiveMaxOrder(SafetyOf(sys, s, user), sys) as real
  }

  /** A decision that the engine executes by itself is submitted to the broker, once and with the
      decided terms, if and only if its approval price keeps it within the order cap. */
  lemma AutoExecutedIsSubmittedExactly(sys: Settings, s: Store, op: Op, c: Risk.RiskCase, terms: OrderTerms)
    requires op.Decide? && op.id !in s.orders
    requires c == CaseOf(sys, s, op)
    requires AutoExecutes(sys, c) && terms == DecidedTerms(op.user, c)
    ensures Step(sys, s, op).store.calls
         == if WithinOrderCap(sys, s, op.user, terms, op.quote) then s.calls + [PlaceCall(op.id, terms, op.placed)] else s.calls
  {
    AutoExecutedPlan(sys, s, op, c, terms);
    PlanFits(sys, s, op);
    PlanCalls(sys, s, PlanOf(sys, s, op));
    CallsOfStep(sys, s, op);
  }

  lemma GateKeepsWithinCap(sys: Settings, s: Store, user: nat, c: Risk.RiskCase, terms: OrderTerms, quote: Quote)
    requires c.Verdict() == Risk.Approved && c.decision.action.Trade? && c.decision.limitPrice.Some?
    requires c.maxOrder == Some(EffectiveMaxOrder(SafetyOf(sys, s, user), sys)) && terms == DecidedTerms(user, c)
    ensures WithinOrderCap(sys, s, user, terms, quote)
  {
    GatePrice(c);
  }

  /** So one with a limit price, even 0, is always submitted: the approval check never rejects it. */
  lemma AutoExecutedLimitOrderIsSubmitted(sys: Settings, s: Store, op: Op, c: Risk.RiskCase, terms: OrderTerms)
    requires op.Decide? && op.id !in s.orders && op.decision.limitPrice.Some?
    requires c == CaseOf(sys, s, op)
    requires AutoExecutes(sys, c) && terms == DecidedTerms(op.user, c)
    ensures Step(sys, s, op).store.calls == s.calls + [PlaceCall(op.id, terms, op.placed)]
  {
    GateKeepsWithinCap(sys, s, op.user, c, terms, op.quote);
    AutoExecutedIsSubmittedExactly(sys, s, op, c, terms);
  }
}
