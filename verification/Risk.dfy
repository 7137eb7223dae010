/** The deterministic risk gate (risk.py) and how it reacts to tighter settings. */
module Risk {
  import opened Wrappers
  import opened Tables
  import opened TradingSafety

  datatype Action = Trade(side: Side) | Hold

  datatype Decision = Decision(
    symbol: string, action: Action, quantity: nat, orderType: OrderType, limitPrice: Option<Price>,
    confidence: Confidence, humanApproval: bool)

  datatype Reason =
    | QuantityNotPositive | LowConfidence | OverOrderLimit | OverPositionLimit
    | SystemLiveDisabled | UserLiveDisabled
    | AgentAsksApproval | UserAsksApproval
    | HoldDecision | AllChecksPassed

  const REJECTING: set<Reason> := {
    QuantityNotPositive, LowConfidence, OverOrderLimit, OverPositionLimit, SystemLiveDisabled, UserLiveDisabled}
  const APPROVING: set<Reason> := {AgentAsksApproval, UserAsksApproval}

  datatype RiskStatus = Rejected | NeedsApproval | Approved

  datatype RiskResult = RiskResult(status: RiskStatus, reasons: seq<Reason>, notional: real)

  /** The arguments of `evaluate`. */
  datatype RiskCase = RiskCase(
    sys: Settings, decision: Decision, snapshotPrice: real, maxPosition: Option<nat>, maxOrder: Option<nat>,
    minConfidence: Option<Confidence>, manualApproval: bool, liveOptIn: bool)
  {
    /** `decision.limit_price or snapshot.price` */
    function Price(): real {
      match decision.limitPrice
      case Some(p) => if p != 0.0 then p else snapshotPrice
      case None => snapshotPrice
    }

    function Notional(): real {
      decision.quantity as real * Price()
    }

    function OrderLimit(): nat {
      if maxOrder.Some? then maxOrder.value else sys.maxOrder
    }

    /** `max_position_krw or settings.max_position_krw`: 0 counts as absent. */
    function PositionLimit(): nat {
      match maxPosition
      case Some(cap) => if cap != 0 then cap else sys.maxPosition
      case None => sys.maxPosition
    }

    function ConfidenceFloor(): Confidence {
      if minConfidence.Some? then minConfidence.value else sys.minConfidence
    }

    /** When a rule of the gate speaks up about a trade. */
    predicate Applies(r: Reason) {
      match r
      case QuantityNotPositive => decision.quantity == 0
      case LowConfidence => decision.confidence < ConfidenceFloor()
      case OverOrderLimit => Notional() > OrderLimit() as real
      case OverPositionLimit => Notional() > PositionLimit() as real
      case SystemLiveDisabled => sys.Live() && !sys.LiveEnabled()
      case UserLiveDisabled => sys.Live() && sys.LiveEnabled() && !liveOptIn
      case AgentAsksApproval => decision.humanApproval
      case UserAsksApproval => manualApproval
      case _ => false
    }

    /** The list holds exactly those of the given rules that apply. */
    ghost predicate Lists(reasons: seq<Reason>, rules: set<Reason>) {
      forall r :: r in reasons <==> r in rules && Applies(r)
    }

    lemma ListedRules(reasons: seq<Reason>, rules: set<Reason>)
      requires Lists(reasons, rules)
      ensures reasons != [] <==> exists r :: r in rules && Applies(r)
    {
      if reasons != [] {
        assert reasons[0] in reasons;
      }
    }

    lemma ListsJoin(a: seq<Reason>, b: seq<Reason>)
      requires Lists(a, REJECTING) && Lists(b, APPROVING)
      ensures Lists(a + b, REJECTING + APPROVING)
    {
    }

    predicate Blocked() {
      exists r :: r in REJECTING && Applies(r)
    }

    predicate Held() {
      exists r :: r in APPROVING && Applies(r)
    }

    function Verdict(): RiskStatus {
      if decision.action.Hold? then Approved
      else if Blocked() then Rejected
      else if Held() then NeedsApproval
      else Approved
    }
  }

  /** The first half of `evaluate`: the rules that reject. */
  method RejectReasons(c: RiskCase) returns (reasons: seq<Reason>)
    ensures c.Lists(reasons, REJECTING)
    ensures QuantityNotPositive in reasons <==> c.decision.quantity <= 0
    ensures LowConfidence in reasons <==> c.decision.confidence < c.ConfidenceFloor()
    ensures OverOrderLimit in reasons <==> c.Notional() > c.OrderLimit() as real
    ensures OverPositionLimit in reasons <==> c.Notional() > c.PositionLimit() as real
    ensures SystemLiveDisabled in reasons <==> c.sys.mode != Paper && !(c.sys.allowLive && c.sys.understandRisk)
    ensures UserLiveDisabled in reasons <==> c.sys.mode != Paper && c.sys.allowLive && c.sys.understandRisk && !c.liveOptIn
  {
    reasons := [];
    if c.decision.quantity <= 0 {
      reasons := reasons + [QuantityNotPositive];
    }
    if c.decision.confidence < c.ConfidenceFloor() {
      reasons := reasons + [LowConfidence];
    }
    assert c.Lists(reasons, {QuantityNotPositive, LowConfidence});
    if c.Notional() > c.OrderLimit() as real {
      reasons := reasons + [OverOrderLimit];
    }
    if c.Notional() > c.PositionLimit() as real {
      reasons := reasons + [OverPositionLimit];
    }
    assert c.Lists(reasons, {QuantityNotPositive, LowConfidence, OverOrderLimit, OverPositionLimit});
    if c.sys.Live() {
      if !c.sys.LiveEnabled() {
        reasons := reasons + [SystemLiveDisabled];
      } else if !c.liveOptIn {
        reasons := reasons + [UserLiveDisabled];
      }
    }
  }

  method Evaluate(c: RiskCase) returns (result: RiskResult)
    ensures result.status == c.Verdict()
    ensures c.decision.action.Hold? ==> result.reasons == [HoldDecision] && result.notional == 0.0
    ensures c.decision.action.Trade? ==> result.notional == c.Notional()
    ensures c.decision.action.Trade? ==>
      if result.status == Approved then result.reasons == [AllChecksPassed]
      else c.Lists(result.reasons, REJECTING + APPROVING)
    ensures c.decision.action.Trade? && result.status != Approved ==>
      && (AgentAsksApproval in result.reasons <==> c.decision.humanApproval)
      && (UserAsksApproval in result.reasons <==> c.manualApproval)
  {
    if c.decision.action.Hold? {
      return RiskResult(Approved, [HoldDecision], 0.0);
    }
    var rejectReasons := RejectReasons(c);
    var approvalReasons: seq<Reason> := [];
    if c.decision.humanApproval {
      approvalReasons := approvalReasons + [AgentAsksApproval];
    }
    if c.manualApproval {
      approvalReasons := approvalReasons + [UserAsksApproval];
    }
    assert c.Lists(approvalReasons, APPROVING);
    c.ListedRules(rejectReasons, REJECTING);
    c.ListedRules(approvalReasons, APPROVING);
    c.ListsJoin(rejectReasons, approvalReasons);
    if rejectReasons != [] {
      result := RiskResult(Rejected, rejectReasons + approvalReasons, c.Notional());
    } else if approvalReasons != [] {
      result := RiskResult(NeedsApproval, approvalReasons, c.Notional());
    } else {
      result := RiskResult(Approved, [AllChecksPassed], c.Notional());
    }
  }

  /** The call that `run_decision` makes for one user's settings row. */
  function CaseFor(sys: Settings, row: SafetyRow, requested: Option<nat>, d: Decision, price: real): RiskCase {
    RiskCase(sys, d, price,
      Some(EffectiveMaxPosition(row, sys, requested)), Some(EffectiveMaxOrder(row, sys)),
      Some(EffectiveMinConfidence(row, sys)), row.manualApproval, row.liveOptIn)
  }

  /** The notional that the gate looks at: at the limit price unless it is missing or 0. */
  predicate GateNotional(d: Decision, price: real, n: real) {
    n == d.quantity as real * (if d.limitPrice.Some? && d.limitPrice.value != 0.0 then d.limitPrice.value else price)
  }

  /** Above one of the three position caps. A cap of 0 among them leaves only the system's. */
  predicate AbovePositionCaps(sys: Settings, row: SafetyRow, requested: Option<nat>, n: real) {
    || n > sys.maxPosition as real
    || (row.maxPosition != 0 && sys.maxPosition != 0 && requested != Some(0)
        && (n > row.maxPosition as real || (requested.Some? && n > requested.value as real)))
  }

  /** A trade that must be rejected, by the user's and the system's own settings. */
  predicate MustReject(sys: Settings, row: SafetyRow, requested: Option<nat>, d: Decision, n: real) {
    || d.quantity == 0
    || d.confidence < row.minConfidence || d.confidence < sys.minConfidence
    || n > row.maxOrder as real || n > sys.maxOrder as real
    || AbovePositionCaps(sys, row, requested, n)
    || (sys.mode != Paper && !(sys.allowLive && sys.understandRisk && row.liveOptIn))
  }

  /** The whole gate. */
  lemma VerdictExactly(sys: Settings, row: SafetyRow, requested: Option<nat>, d: Decision, price: real, n: real)
    requires GateNotional(d, price, n)
    ensures CaseFor(sys, row, requested, d, price).Verdict()
         == if d.action.Hold? then Approved
            else if MustReject(sys, row, requested, d, n) then Rejected
            else if d.humanApproval || row.manualApproval then NeedsApproval
            else Approved
  {
    var c := CaseFor(sys, row, requested, d, price);
    NotionalExactly(sys, row, requested, d, price, n);
    GateBlocksExactly(sys, row, requested, d, price, n);
    HeldExactly(c);
  }

  lemma GateBlocksExactly(sys: Settings, row: SafetyRow, requested: Option<nat>, d: Decision, price: real, n: real)
    requires CaseFor(sys, row, requested, d, price).Notional() == n
    ensures CaseFor(sys, row, requested, d, price).Blocked() <==> MustReject(sys, row, requested, d, n)
  {
    var c := CaseFor(sys, row, requested, d, price);
    BlockedExactly(c);
    PositionCapsExactly(sys, row, requested, n);
    assert n > c.PositionLimit() as real <==> AbovePositionCaps(sys, row, requested, n);
    assert n > c.OrderLimit() as real <==> n > row.maxOrder as real || n > sys.maxOrder as real;
    assert d.confidence < c.ConfidenceFloor() <==> d.confidence < row.minConfidence || d.confidence < sys.minConfidence;
  }

  lemma NotionalExactly(sys: Settings, row: SafetyRow, requested: Option<nat>, d: Decision, price: real, n: real)
    requires GateNotional(d, price, n)
    ensures CaseFor(sys, row, requested, d, price).Notional() == n
  {
  }

  lemma BlockedExactly(c: RiskCase)
    ensures c.Blocked() <==>
      || c.decision.quantity == 0
      || c.decision.confidence < c.ConfidenceFloor()
      || c.Notional() > c.OrderLimit() as real
      || c.Notional() > c.PositionLimit() as real
      || (c.sys.mode != Paper && !(c.sys.allowLive && c.sys.understandRisk && c.liveOptIn))
  {
    var rules := [QuantityNotPositive, LowConfidence, OverOrderLimit, OverPositionLimit, SystemLiveDisabled, UserLiveDisabled];
    assert forall r :: r in REJECTING <==> r in rules;
    assert c.Blocked() <==> exists i :: 0 <= i < |rules| && c.Applies(rules[i]);
  }

  lemma HeldExactly(c: RiskCase)
    ensures c.Held() <==> c.decision.humanApproval || c.manualApproval
  {
    assert AgentAsksApproval in APPROVING && UserAsksApproval in APPROVING;
    assert c.Applies(AgentAsksApproval) <==> c.decision.humanApproval;
    assert c.Applies(UserAsksApproval) <==> c.manualApproval;
  }

  function CapUsed(sys: Settings, cap: nat): nat {
    if cap != 0 then cap else sys.maxPosition
  }

  lemma PositionCapsExactly(sys: Settings, row: SafetyRow, requested: Option<nat>, n: real)
    ensures n > CapUsed(sys, EffectiveMaxPosition(row, sys, requested)) as real <==> AbovePositionCaps(sys, row, requested, n)
  {
  }

  /** `tight` is at least as strict as `loose` in every user setting. */
  predicate Tightens(loose: SafetyRow, tight: SafetyRow) {
    && tight.maxOrder <= loose.maxOrder
    && tight.maxPosition <= loose.maxPosition
    && tight.minConfidence >= loose.minConfidence
    && (loose.manualApproval ==> tight.manualApproval)
    && (tight.liveOptIn ==> loose.liveOptIn)
  }

  function Rank(status: RiskStatus): nat {
    match status
    case Rejected => 0
    case NeedsApproval => 1
    case Approved => 2
  }

  /** A position cap that reaches 0 is read as "no cap": the system cap replaces it. That loosens
      the gate exactly when the looser row had a cap below the system's, some order can pass the
      tighter order cap above it, and the live gates are open. */
  predicate ZeroCapOpens(sys: Settings, loose: SafetyRow, tight: SafetyRow, requested: Option<nat>) {
    && EffectiveMaxPosition(tight, sys, requested) == 0
    && 0 < EffectiveMaxPosition(loose, sys, requested) < sys.maxPosition
    && EffectiveMaxPosition(loose, sys, requested) < EffectiveMaxOrder(tight, sys)
    && (sys.Live() ==> EffectiveLive(tight, sys))
  }

  /** Under tighter settings a rule that rejected still does, or, past the position cap that
      vanished, another rule rejects in its place. */
  lemma StillBlocked(sys: Settings, loose: SafetyRow, tight: SafetyRow, requested: Option<nat>, d: Decision, price: real, r: Reason)
    requires Tightens(loose, tight) && !ZeroCapOpens(sys, loose, tight, requested)
    requires r in REJECTING && CaseFor(sys, loose, requested, d, price).Applies(r)
    ensures CaseFor(sys, tight, requested, d, price).Blocked()
  {
    var l, t := CaseFor(sys, loose, requested, d, price), CaseFor(sys, tight, requested, d, price);
    assert l.Notional() == t.Notional();
    if !t.Applies(r) {
      assert r == OverPositionLimit;
      assert t.Applies(OverOrderLimit) || t.Applies(SystemLiveDisabled) || t.Applies(UserLiveDisabled);
    }
  }

  /** Tightening never moves any decision towards APPROVED, unless the zero cap opens. */
  lemma TighteningIsMonotone(
    sys: Settings, loose: SafetyRow, tight: SafetyRow, requested: Option<nat>, d: Decision, price: real)
    requires Tightens(loose, tight)
    requires !ZeroCapOpens(sys, loose, tight, requested)
    ensures Rank(CaseFor(sys, tight, requested, d, price).Verdict())
         <= Rank(CaseFor(sys, loose, requested, d, price).Verdict())
  {
    var l, t := CaseFor(sys, loose, requested, d, price), CaseFor(sys, tight, requested, d, price);
    if l.Blocked() {
      var r :| r in REJECTING && l.Applies(r);
      StillBlocked(sys, loose, tight, requested, d, price, r);
    }
    if l.Held() {
      var r :| r in APPROVING && l.Applies(r);
      assert t.Applies(r);
    }
  }

  /** The other half: where the zero cap opens, one share at the smaller of the system position cap
      and the tighter order cap is rejected under the looser row and let through by the tighter. */
  lemma ZeroCapLoosens(sys: Settings, loose: SafetyRow, tight: SafetyRow, requested: Option<nat>, symbol: string)
    returns (d: Decision, price: real)
    requires Tightens(loose, tight)
    requires ZeroCapOpens(sys, loose, tight, requested)
    ensures CaseFor(sys, loose, requested, d, price).Verdict() == Rejected
    ensures CaseFor(sys, tight, requested, d, price).Verdict() != Rejected
  {
    price := Min(sys.maxPosition, EffectiveMaxOrder(tight, sys)) as real;
    d := Decision(symbol, Trade(Buy), 1, Market, None, EffectiveMinConfidence(tight, sys), false);
    assert CaseFor(sys, loose, requested, d, price).Applies(OverPositionLimit);
    assert !CaseFor(sys, tight, requested, d, price).Blocked();
  }

  /** So the gate is monotone for a pair of rows if and only if the zero cap does not open. */
  lemma MonotoneExactly(sys: Settings, loose: SafetyRow, tight: SafetyRow, requested: Option<nat>)
    requires Tightens(loose, tight)
    ensures (forall d: Decision, price: real ::
        Rank(CaseFor(sys, tight, requested, d, price).Verdict())
        <= Rank(CaseFor(sys, loose, requested, d, price).Verdict()))
      <==> !ZeroCapOpens(sys, loose, tight, requested)
  {
    if ZeroCapOpens(sys, loose, tight, requested) {
      var d, price := ZeroCapLoosens(sys, loose, tight, requested, "A005930");
      assert Rank(CaseFor(sys, tight, requested, d, price).Verdict())
          > Rank(CaseFor(sys, loose, requested, d, price).Verdict());
    } else {
      forall d: Decision, price: real
        ensures Rank(CaseFor(sys, tight, requested, d, price).Verdict())
             <= Rank(CaseFor(sys, loose, requested, d, price).Verdict())
      {
        TighteningIsMonotone(sys, loose, tight, requested, d, price);
      }
    }
  }
}
