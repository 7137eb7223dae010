/** `TradingEngine` on the row objects of the database. Every public method is proved to take the
    tables from one value to the next as the steps of EngineSpec say. The answers of the broker and
    of the language model are parameters. */
module TradingEngine {
  import opened Wrappers
  import opened PyText
  import opened OrderStatuses
  import opened Tables
  import opened TradingSafety
  import opened OrderMachine
  import opened EngineSpec
  import opened OrderLifecycle
  import PaperLedger
  import Risk

  datatype ApprovalPreview = ApprovalPreview(
    price: real, notional: real, reasons: seq<Risk.Reason>, confirmationText: string, canSubmit: bool)

  class Engine {
    const db: Database
    const sys: Settings
    const userId: nat

    constructor (db: Database, sys: Settings, userId: nat)
      ensures this.db == db && this.sys == sys && this.userId == userId
    {
      this.db, this.sys, this.userId := db, sys, userId;
    }

    /** `_get_user_order`; None is the OrderNotFoundError. */
    method GetUserOrder(id: nat) returns (found: Option<Order>)
      requires db.Valid()
      ensures found.Some? <==> Owns(db.View(), userId, id)
      ensures found.Some? ==> found.value.id == id && db.Holds(found.value)
    {
      if id in db.orders && db.orders[id].terms.user == userId {
        return Some(db.orders[id]);
      }
      return None;
    }

    /** `_order_safety_reasons` */
    method OrderSafetyReasons(safety: SafetyRow, terms: OrderTerms, price: real) returns (reasons: seq<Risk.Reason>)
      ensures reasons != [] <==> SafetyBlocks(sys, safety, terms, price)
      ensures Risk.OverOrderLimit in reasons <==> Notional(terms, price) > EffectiveMaxOrder(safety, sys) as real
      ensures Risk.SystemLiveDisabled in reasons <==> sys.Live() && !sys.LiveEnabled()
      ensures Risk.UserLiveDisabled in reasons <==> sys.Live() && sys.LiveEnabled() && !safety.liveOptIn
    {
      reasons := [];
      if Notional(terms, price) > EffectiveMaxOrder(safety, sys) as real {
        reasons := reasons + [Risk.OverOrderLimit];
      }
      if sys.Live() {
        if !sys.LiveEnabled() {
          reasons := reasons + [Risk.SystemLiveDisabled];
        } else if !EffectiveLive(safety, sys) {
          reasons := reasons + [Risk.UserLiveDisabled];
        }
      }
    }

    /** `_build_order_approval_preview`; None when the quote raises. */
    method BuildPreview(order: Order, quote: Quote) returns (preview: Option<ApprovalPreview>)
      requires db.Valid() && db.Holds(order)
      modifies db`safety
      ensures db.Valid()
      ensures preview.Some? <==> ApprovalPrice(order.terms, quote).Some?
      ensures db.View() == if preview.Some? then WithSafety(sys, old(db.View()), userId) else old(db.View())
      ensures preview.Some? ==>
        && ApprovalPrice(order.terms, quote) == Some(preview.value.price)
        && preview.value.confirmationText == ConfirmationText(order.id)
        && (preview.value.canSubmit <==> (
            CanApprove(order.status) && !SafetyBlocks(sys, SafetyOf(sys, old(db.View()), userId), order.terms, preview.value.price)))
    {
      var price: real;
      if order.terms.limitPrice.Some? {
        price := order.terms.limitPrice.value;
      } else if quote.Some? {
        price := quote.value;
      } else {
        return None;
      }
      var safety := GetOrCreate(db, userId, sys);
      var reasons := OrderSafetyReasons(safety, order.terms, price);
      return Some(ApprovalPreview(price, Notional(order.terms, price), reasons, ConfirmationText(order.id),
                                  CanApprove(order.status) && reasons == []));
    }

    method CreateManualOrder(id: nat, create: OrderCreate) returns (reply: Reply)
      requires db.Valid()
      modifies db`orders, db`events
      ensures db.Valid() && db.AddsFreshOrders()
      ensures Outcome(db.View(), reply) == ManualOrder(old(db.View()), userId, id, create)
    {
      if id in db.orders {
        return DuplicateId;
      }
      var order := AddOrder(db, id, ManualTerms(userId, create), ManualOrderStaged);
      SettleTerms(db, order);
      return Returned;
    }

    method PreviewOrderApproval(id: nat, quote: Quote) returns (reply: Reply)
      requires db.Valid()
      modifies db`safety, db`events
      ensures db.Valid()
      ensures Outcome(db.View(), reply) == PreviewApproval(sys, old(db.View()), userId, id, quote)
    {
      var found := GetUserOrder(id);
      if found.None? {
        return NotFound;
      }
      var order := found.value;
      var preview := BuildPreview(order, quote);
      if preview.None? {
        return QuoteFailed;
      }
      RecordOrderEvent(db, order, ApprovalPreviewed);
      return Returned;
    }

    method ApproveOrder(id: nat, text: string, quote: Quote, placed: BrokerAnswer) returns (reply: Reply)
      requires db.Valid()
      modifies db`safety, db`events, db`positions, db`calls, db.orders.Values, db.positions.Values
      ensures db.Valid() && db.AddsFreshPositions()
      ensures Outcome(db.View(), reply) == Approve(sys, old(db.View()), userId, id, text, quote, placed)
    {
      ghost var s := db.View();
      var found := GetUserOrder(id);
      if found.None? {
        return NotFound;
      }
      var order := found.value;
      if !CanApprove(order.status) {
        return Returned;
      }
      var preview := BuildPreview(order, quote);
      if preview.None? {
        return QuoteFailed;
      }
      reply := DecideApproval(order, text, preview.value, placed);
      ApprovePriced(sys, s, userId, id, text, quote, placed, preview.value.price, preview.value.canSubmit);
    }

    /** The rest of approve_order, once the preview is built. */
    method DecideApproval(order: Order, text: string, preview: ApprovalPreview, placed: BrokerAnswer) returns (reply: Reply)
      requires db.Valid() && db.Holds(order) && CanApprove(order.status)
      requires preview.confirmationText == ConfirmationText(order.id)
      modifies db`events, db`positions, db`calls, order, db.positions.Values
      ensures db.Valid() && db.AddsFreshPositions()
      ensures Outcome(db.View(), reply) == Acted(sys, old(db.View()), order.id, ActFor(order.id, text, preview.canSubmit, placed))
    {
      ghost var s := db.View();
      if Strip(text) != preview.confirmationText {
        RecordOrderEvent(db, order, ConfirmationFailed);
        FinishNoted(sys, s, order.id, Mismatch);
        return ConfirmationMismatch;
      }
      if !preview.canSubmit {
        var ok := TransitionOrder(db, order, Rejected, RejectedBySafety, None);
        FinishBlocked(sys, s, order.id);
        return Returned;
      }
      SubmitOrder(order, placed);
      return Returned;
    }

    /** The rest of approve_order, once the order may be submitted. */
    method SubmitOrder(order: Order, placed: BrokerAnswer)
      requires db.Valid() && db.Holds(order) && CanApprove(order.status)
      modifies db`events, db`positions, db`calls, order, db.positions.Values
      ensures db.Valid() && db.AddsFreshPositions()
      ensures db.View() == Finish(sys, old(db.View()), order.id, Submit(placed))
    {
      ghost var s := db.View();
      ghost var called := StartSubmission(order, placed);
      ghost var w := RecordPlacement(order, placed, s, called);
      FinishSubmitted(sys, s, order.id, placed, called, w);
      if order.status == Filled && sys.mode == Paper {
        PaperLedger.UpsertPaperPosition(db, order.terms.user, order.terms);
      }
    }

    /** The order takes the status that `place_order` ended with. */
    method RecordPlacement(order: Order, placed: BrokerAnswer, ghost s: Store, ghost called: Work) returns (ghost w: Work)
      requires db.Valid() && db.Holds(order) && order.Row() == called.row && called.row.status == Submitting
      requires db.View() == Commit(s, order.id, called)
      modifies db`events, order
      ensures db.Valid() && order.Row() == w.row
      ensures db.View() == Commit(s, order.id, w)
      ensures AdvanceByPlacement(order.id, called, placed) == Success(w)
    {
      ghost var id := order.id;
      match placed {
        case Raised =>
          var ok := TransitionOrder(db, order, SubmissionFailed, BrokerSubmitFailed, None);
          w := Extended(s, id, called, Shifted(id, called.row, SubmissionFailed, BrokerSubmitFailed, None));
        case Answered(brokerOrderId, word) =>
          var next := NormalizeBrokerStatus(word);
          var ok := TransitionOrder(db, order, next, BrokerSubmitResult, brokerOrderId);
          w := Extended(s, id, called, Shifted(id, called.row, next, BrokerSubmitResult, brokerOrderId));
      }
    }

    /** Up to and including the call of `place_order`. */
    method StartSubmission(order: Order, placed: BrokerAnswer) returns (ghost called: Work)
      requires db.Valid() && db.Holds(order) && CanApprove(order.status)
      modifies db`events, db`calls, order
      ensures db.Valid() && db.Holds(order)
      ensures order.Row() == called.row && called.row.status == Submitting && called.row.terms == order.terms
      ensures db.View() == Commit(old(db.View()), order.id, called)
      ensures PerformSubmit(order.id, Work(old(order.Row()), [], []), placed) == AdvanceByPlacement(order.id, called, placed)
    {
      ghost var s, id := db.View(), order.id;
      called := Work(order.Row(), [], []);
      CommitNothing(s, id);

      var ok := TransitionOrder(db, order, Approved, OrderApproved, None);
      called := Extended(s, id, called, Shifted(id, called.row, Approved, OrderApproved, None));
      assert db.View() == Commit(s, id, called);

      CountAttempt(order);
      called := Extended(s, id, called, Attempted(called.row));
      assert db.View() == Commit(s, id, called);

      ok := TransitionOrder(db, order, Submitting, BrokerSubmitStarted, None);
      called := Extended(s, id, called, Shifted(id, called.row, Submitting, BrokerSubmitStarted, None));
      assert db.View() == Commit(s, id, called);

      NoteCall(order, placed);
      called := Extended(s, id, called, Called(id, called.row, placed));
      assert db.View() == Commit(s, id, called);
    }

    /** `order.submission_attempts += 1` */
    method CountAttempt(order: Order)
      requires db.Valid() && db.Holds(order)
      modifies order
      ensures order.Row() == Attempted(old(order.Row())).row
      ensures db.View() == Commit(old(db.View()), order.id, Attempted(old(order.Row())))
    {
      order.attempts := order.attempts + 1;
      assert db.OrderRows() == old(db.OrderRows())[order.id := order.Row()];
      assert db.events == db.events + [] && db.calls == db.calls + [];
    }

    /** Remembers that `place_order` was called for this order, and how it ended. */
    ghost method NoteCall(order: Order, placed: BrokerAnswer)
      requires db.Valid() && db.Holds(order)
      modifies db`calls
      ensures db.View() == Commit(old(db.View()), order.id, Called(order.id, order.Row(), placed))
    {
      db.calls := db.calls + [PlaceCall(order.id, order.terms, placed)];
      assert db.OrderRows() == old(db.OrderRows())[order.id := order.Row()];
      assert db.events == db.events + [];
    }

    method CancelOrder(id: nat, answer: BrokerAnswer) returns (reply: Reply)
      requires db.Valid()
      modifies db`events, db.orders.Values
      ensures db.Valid()
      ensures Outcome(db.View(), reply) == EngineSpec.CancelOrder(sys, old(db.View()), userId, id, answer)
    {
      var found := GetUserOrder(id);
      if found.None? {
        return NotFound;
      }
      var order := found.value;
      ghost var s, act := db.View(), Act.Cancel(answer);
      if !CanCancel(order.status) {
        FinishUntouched(sys, s, id, act);
        return Returned;
      }
      if order.status in {PendingApproval, Approved, SubmissionFailed} {
        ghost var w := Shifted(id, order.Row(), Canceled, OrderCanceled, None);
        var ok := TransitionOrder(db, order, Canceled, OrderCanceled, None);
        FinishBy(sys, s, id, act, w);
        return Returned;
      }
      if !HasBrokerId(order.Row()) {
        ghost var w := Shifted(id, order.Row(), Canceled, OrderCanceled, None);
        var ok := TransitionOrder(db, order, Canceled, OrderCanceled, None);
        FinishBy(sys, s, id, act, w);
        return Returned;
      }
      ghost var w := ApplyBrokerAnswer(order, answer, BrokerCancelFailed, BrokerCancelResult);
      FinishBy(sys, s, id, act, w);
      return Returned;
    }

    method RefreshOrderStatus(id: nat, answer: BrokerAnswer) returns (reply: Reply)
      requires db.Valid()
      modifies db`events, db`positions, db.orders.Values, db.positions.Values
      ensures db.Valid() && db.AddsFreshPositions()
      ensures Outcome(db.View(), reply) == RefreshStatus(sys, old(db.View()), userId, id, answer)
    {
      var found := GetUserOrder(id);
      if found.None? {
        return NotFound;
      }
      var order := found.value;
      ghost var s, act := db.View(), Act.Refresh(answer);
      if IsTerminal(order.status) {
        FinishUntouched(sys, s, id, act);
        return Returned;
      }
      if !HasBrokerId(order.Row()) {
        ghost var w := Shifted(id, order.Row(), order.status, StatusRefreshed, None);
        var ok := TransitionOrder(db, order, order.status, StatusRefreshed, None);
        FinishBy(sys, s, id, act, w);
        return Returned;
      }
      var previous := order.status;
      ghost var w := ApplyBrokerAnswer(order, answer, BrokerRefreshFailed, BrokerStatusRefreshed);
      FinishBy(sys, s, id, act, w);
      if previous != Filled && order.status == Filled && sys.mode == Paper {
        PaperLedger.UpsertPaperPosition(db, order.terms.user, order.terms);
      }
      return Returned;
    }

    /** The common end of cancel_order and refresh_order_status. */
    method ApplyBrokerAnswer(order: Order, answer: BrokerAnswer, failed: EventKind, result: EventKind) returns (ghost w: Work)
      requires db.Valid() && db.Holds(order)
      modifies db`events, order
      ensures db.Valid()
      ensures AdvanceByBroker(order.id, Work(old(order.Row()), [], []), answer, failed, result) == Success(w)
      ensures order.Row() == w.row && db.View() == Commit(old(db.View()), order.id, w)
    {
      var was := order.status;
      var next, kind, brokerOrderId := was, failed, None;
      BrokerWork(order.id, order.Row(), answer, failed, result);
      if answer.Answered? {
        next, kind, brokerOrderId := NormalizeBrokerStatus(answer.status), result, answer.brokerOrderId;
        if !CanTransition(was, next) {
          next := was;
        }
      }
      w := Shifted(order.id, order.Row(), next, kind, brokerOrderId);
      var ok := TransitionOrder(db, order, next, kind, brokerOrderId);
    }

    /** Creates the order and approves it, with its limit price still unrounded. */
    method StageAndApprove(id: nat, terms: OrderTerms, quote: Quote, placed: BrokerAnswer) returns (reply: Reply)
      requires db.Valid() && id !in db.orders
      modifies db, db.orders.Values, db.positions.Values
      ensures db.Valid() && db.AddsFreshOrders() && db.AddsFreshPositions()
      ensures Outcome(db.View(), reply)
           == ApproveAndSettle(sys, WithNewOrder(old(db.View()), id, terms, AiDecisionOrderCreated), userId, id, quote, placed)
    {
      var order := AddOrder(db, id, terms, AiDecisionOrderCreated);
      reply := ApproveNewOrder(order, quote, placed);
    }

    /** Approves a new order; the commit that ends the approval rounds its limit price. */
    method ApproveNewOrder(order: Order, quote: Quote, placed: BrokerAnswer) returns (reply: Reply)
      requires db.Valid() && db.Holds(order)
      modifies db`safety, db`events, db`positions, db`calls, db.orders.Values, db.positions.Values
      ensures db.Valid() && db.AddsFreshPositions()
      ensures Outcome(db.View(), reply) == ApproveAndSettle(sys, old(db.View()), userId, order.id, quote, placed)
    {
      reply := ApproveOrder(order.id, ConfirmationText(order.id), quote, placed);
      if reply != QuoteFailed {
        SettleTerms(db, order);
      }
    }

    /** Takes back the new order of a transaction that failed. */
    method RollBack(orders: map<nat, Order>, events: seq<OrderEvent>, safety: map<nat, SafetyRow>, ghost t: Store, ghost id: nat, ghost terms: OrderTerms)
      requires db.Valid() && id !in orders && orders.Keys == t.orders.Keys && events == t.events
      requires forall k :: k in orders ==> k in db.orders && db.orders[k] == orders[k]
      requires db.View() == WithNewOrder(t, id, terms, AiDecisionOrderCreated)
      modifies db`orders, db`events, db`safety
      ensures db.Valid() && db.orders == orders && db.View() == t.(safety := safety)
    {
      db.RowsBefore(orders, t.orders, id, FreshRow(terms));
      db.Rollback(orders, events, safety);
    }

    /** Creates and approves, and takes everything back when the quote raises. */
    method StageOrRollBack(id: nat, terms: OrderTerms, quote: Quote, placed: BrokerAnswer, safety: map<nat, SafetyRow>)
      returns (reply: Reply)
      requires db.Valid() && id !in db.orders
      modifies db, db.orders.Values, db.positions.Values
      ensures db.Valid() && db.AddsFreshOrders() && db.AddsFreshPositions()
      ensures Outcome(db.View(), reply) == ExecuteOrRollBack(sys, old(db.View()), userId, id, terms, quote, placed, safety)
    {
      var orders, events := db.orders, db.events;
      ghost var t := db.View();
      reply := StageAndApprove(id, terms, quote, placed);
      if reply == QuoteFailed {
        RollBack(orders, events, safety, t, id, terms);
      }
    }

    /** `_create_order_from_decision`, inside the transaction of run_decision that began with the
        given settings: what it raises ends that transaction. */
    method ExecuteDecision(id: nat, terms: OrderTerms, quote: Quote, placed: BrokerAnswer, safety: map<nat, SafetyRow>)
      returns (reply: Reply)
      requires db.Valid()
      modifies db, db.orders.Values, db.positions.Values
      ensures db.Valid() && db.AddsFreshOrders() && db.AddsFreshPositions()
      ensures Outcome(db.View(), reply) == ExecuteOrRollBack(sys, old(db.View()), userId, id, terms, quote, placed, safety)
    {
      if id in db.orders {
        db.safety := safety;
        return DuplicateId;
      }
      reply := StageOrRollBack(id, terms, quote, placed, safety);
    }

    /** What the risk gate says about a decision under the user's settings. */
    method Assess(requested: Option<nat>, d: Risk.Decision, snapshotPrice: real) returns (c: Risk.RiskCase, status: Risk.RiskStatus)
      modifies db`safety
      ensures db.View() == WithSafety(sys, old(db.View()), userId)
      ensures c == Risk.CaseFor(sys, SafetyOf(sys, old(db.View()), userId), requested, d, snapshotPrice)
      ensures status == c.Verdict()
    {
      var row := GetOrCreate(db, userId, sys);
      c := Risk.CaseFor(sys, row, requested, d, snapshotPrice);
      var result := Risk.Evaluate(c);
      status := result.status;
    }

    /** run_decision, from the agent's decision on. */
    method RunDecision(id: nat, requested: Option<nat>, d: Risk.Decision, snapshotPrice: real, quote: Quote, placed: BrokerAnswer)
      returns (reply: Reply, risk: Risk.RiskStatus)
      requires db.Valid()
      modifies db, db.orders.Values, db.positions.Values
      ensures db.Valid() && db.AddsFreshOrders() && db.AddsFreshPositions()
      ensures Outcome(db.View(), reply) == EngineSpec.RunDecision(sys, old(db.View()), userId, id, requested, d, snapshotPrice, quote, placed)
      ensures risk == Risk.CaseFor(sys, SafetyOf(sys, old(db.View()), userId), requested, d, snapshotPrice).Verdict()
    {
      var safety := db.safety;
      var c;
      c, risk := Assess(requested, d, snapshotPrice);
      reply := Returned;
      if sys.autoExecute && risk == Risk.Approved && d.action.Trade? {
        reply := ExecuteDecision(id, DecidedTerms(userId, c), quote, placed, safety);
      }
    }

    /** The settings route: get or create the row, then update it. */
    method UpdateSafetySettings(payload: SafetyRow) returns (reply: Reply)
      modifies db`safety
      ensures Outcome(db.View(), reply) == UpdateSafety(sys, old(db.View()), userId, payload)
    {
      var safety := db.safety;
      var _ := GetOrCreate(db, userId, sys);
      var ok := Update(db, userId, payload, sys);
      if !ok {
        db.safety := safety;
        return BadSettings;
      }
      assert db.safety == safety[userId := payload];
      return Returned;
    }

    /** Bookkeeping of the proofs: the work done so far and one change more. */
    static ghost function Extended(s: Store, id: nat, w: Work, next: Work): (r: Work)
      ensures r == Then(w, next)
      ensures Commit(Commit(s, id, w), id, next) == Commit(s, id, r)
    {
      CommitThen(s, id, w, next);
      Then(w, next)
    }
  }
}
