/** What one public engine method does to one order: the row it leaves, the events it appends and
    the broker calls it makes. `Perform` follows approve_order, cancel_order, refresh_order_status
    and the preview of trading_engine.py; `LifeOK` is what it keeps. */
module OrderMachine {
  import opened Wrappers
  import opened OrderStatuses
  import opened Tables

  datatype Reply = Returned | NotFound | ConfirmationMismatch | QuoteFailed | InvalidTransition | DuplicateId | BadSettings

  /** Changes made to one order so far within a method. */
  datatype Work = Work(row: OrderRow, events: seq<OrderEvent>, calls: seq<PlaceCall>)

  /** The row after `transition_order` let the change through. */
  function Moved(row: OrderRow, target: Status, brokerOrderId: Option<string>): OrderRow {
    row.(status := target,
         brokerOrderId := if brokerOrderId.Some? then brokerOrderId else row.brokerOrderId,
         stamps := row.stamps + StampFor(target))
  }

  /** The one change and one event of a transition. */
  function Shifted(id: nat, row: OrderRow, target: Status, kind: EventKind, brokerOrderId: Option<string>): Work {
    Work(Moved(row, target, brokerOrderId), [OrderEvent(id, Some(row.status), target, kind)], [])
  }

  function Then(w: Work, next: Work): (r: Work)
    ensures w.events == [] && w.calls == [] ==> r == next
  {
    Work(next.row, w.events + next.events, w.calls + next.calls)
  }

  function Advance(w: Work, id: nat, target: Status, kind: EventKind, brokerOrderId: Option<string>): Result<Work, Reply> {
    if !CanTransition(w.row.status, target) then Failure(InvalidTransition)
    else Success(Then(w, Shifted(id, w.row, target, kind, brokerOrderId)))
  }

  /** The event of `record_order_event`, which changes nothing. */
  function Noted(id: nat, row: OrderRow, kind: EventKind): Work {
    Work(row, [OrderEvent(id, Some(row.status), row.status, kind)], [])
  }

  /** `if order.broker_order_id`: the empty text counts as absent. */
  predicate HasBrokerId(row: OrderRow) {
    row.brokerOrderId.Some? && row.brokerOrderId.value != ""
  }

  /** The method that is run, with what its environment answers. The approval check splits
      approve_order into a wrong confirmation, a safety block and a submission. */
  datatype Act =
    | Preview | Mismatch | Block
    | Submit(placed: BrokerAnswer)
    | Cancel(answer: BrokerAnswer)
    | Refresh(answer: BrokerAnswer)

  /** The ValueError of `transition_order` is unreachable: the result is a success from every
      status at all, for every status word and exception of the broker. */
  function Perform(id: nat, row: OrderRow, act: Act): (r: Result<Work, Reply>)
    ensures r.Success?
  {
    var start := Work(row, [], []);
    match act
    case Preview => Success(Noted(id, row, ApprovalPreviewed))
    case Mismatch => Success(if CanApprove(row.status) then Noted(id, row, ConfirmationFailed) else start)
    case Block => if CanApprove(row.status) then Advance(start, id, Rejected, RejectedBySafety, None) else Success(start)
    case Submit(placed) => if CanApprove(row.status) then PerformSubmit(id, start, placed) else Success(start)
    case Cancel(answer) => if CanCancel(row.status) then PerformCancel(id, start, answer) else Success(start)
    case Refresh(answer) => if IsTerminal(row.status) then Success(start) else PerformRefresh(id, start, answer)
  }

  function PerformSubmit(id: nat, start: Work, placed: BrokerAnswer): (r: Result<Work, Reply>)
    ensures CanApprove(start.row.status) ==> r.Success?
  {
    match Advance(start, id, Approved, OrderApproved, None)
    case Failure(e) => Failure(e)
    case Success(approved) =>
      match Advance(Then(approved, Attempted(approved.row)), id, Submitting, BrokerSubmitStarted, None)
      case Failure(e) => Failure(e)
      case Success(started) => AdvanceByPlacement(id, Then(started, Called(id, started.row, placed)), placed)
  }

  /** `order.submission_attempts += 1` */
  function Attempted(row: OrderRow): Work {
    Work(row.(attempts := row.attempts + 1), [], [])
  }

  function Called(id: nat, row: OrderRow, placed: BrokerAnswer): Work {
    Work(row, [], [PlaceCall(id, row.terms, placed)])
  }

  function AdvanceByPlacement(id: nat, called: Work, placed: BrokerAnswer): Result<Work, Reply> {
    match placed
    case Raised => Advance(called, id, SubmissionFailed, BrokerSubmitFailed, None)
    case Answered(brokerOrderId, word) => Advance(called, id, NormalizeBrokerStatus(word), BrokerSubmitResult, brokerOrderId)
  }

  function PerformCancel(id: nat, start: Work, answer: BrokerAnswer): (r: Result<Work, Reply>)
    requires CanCancel(start.row.status)
    ensures r.Success?
  {
    if start.row.status in {PendingApproval, Approved, SubmissionFailed} || !HasBrokerId(start.row) then
      Advance(start, id, Canceled, OrderCanceled, None)
    else
      AdvanceByBroker(id, start, answer, BrokerCancelFailed, BrokerCancelResult)
  }

  function PerformRefresh(id: nat, start: Work, answer: BrokerAnswer): (r: Result<Work, Reply>)
    ensures r.Success?
  {
    if !HasBrokerId(start.row) then Advance(start, id, start.row.status, StatusRefreshed, None)
    else AdvanceByBroker(id, start, answer, BrokerRefreshFailed, BrokerStatusRefreshed)
  }

  /** A broker status the table does not allow keeps the old one. */
  function NextStatus(was: Status, reported: Status): (next: Status)
    ensures CanTransition(was, next)
  {
    if CanTransition(was, reported) then reported else was
  }

  function AdvanceByBroker(id: nat, start: Work, answer: BrokerAnswer, failed: EventKind, result: EventKind): (r: Result<Work, Reply>)
    ensures r.Success?
  {
    match answer
    case Raised => Advance(start, id, start.row.status, failed, None)
    case Answered(brokerOrderId, word) =>
      Advance(start, id, NextStatus(start.row.status, NormalizeBrokerStatus(word)), result, brokerOrderId)
  }

  lemma BrokerWork(id: nat, row: OrderRow, answer: BrokerAnswer, failed: EventKind, result: EventKind)
    ensures AdvanceByBroker(id, Work(row, [], []), answer, failed, result) == Success(
      if answer.Raised? then Shifted(id, row, row.status, failed, None)
      else Shifted(id, row, NextStatus(row.status, NormalizeBrokerStatus(answer.status)), result, answer.brokerOrderId))
  {
  }

  // ---------------------------------------------------------------------------------------------
  // The life of an order
  // ---------------------------------------------------------------------------------------------

  /** An order's row with all its events and all its `place_order` calls, oldest first. */
  datatype Life = Life(row: OrderRow, trail: seq<OrderEvent>, calls: seq<PlaceCall>)

  function Lived(l: Life, w: Work): Life {
    Life(w.row, l.trail + w.events, l.calls + w.calls)
  }

  predicate IsChange(e: OrderEvent) {
    e.was.Some? && e.was.value != e.now
  }

  predicate IsFill(e: OrderEvent) {
    e.now == Filled && e.was != Some(Filled)
  }

  predicate IsSubmitStart(e: OrderEvent) {
    e.kind == BrokerSubmitStarted
  }

  function Count<T(!new)>(s: seq<T>, p: T -> bool): nat {
    |Filter(s, p)|
  }

  /** The event log is a chain of table steps from no status to the given one. */
  ghost predicate Chain(trail: seq<OrderEvent>, status: Status) {
    && trail != [] && trail[0].was == None && trail[0].now == PendingApproval
    && (forall i, j :: 0 <= i && j == i + 1 < |trail| ==> Linked(trail[i], trail[j]))
    && trail[|trail| - 1].now == status
  }

  predicate Linked(e: OrderEvent, next: OrderEvent) {
    next.was == Some(e.now) && CanTransition(e.now, next.now)
  }

  /** The broker did not take the order: it raised, or its word means a failed submission. */
  predicate CallFailed(c: PlaceCall) {
    c.answer.Raised? || NormalizeBrokerStatus(c.answer.status) == SubmissionFailed
  }

  /** Real changes that may have happened since the last submission attempt ended. */
  function SinceAttempt(status: Status): nat {
    match status
    case PartiallyFilled => 1
    case Filled => 2
    case Rejected => 2
    case Canceled => 2
    case _ => 0
  }

  ghost predicate StampsOK(row: OrderRow) {
    && (FilledAt in row.stamps <==> row.status == Filled)
    && (RejectedAt in row.stamps <==> row.status == Rejected)
    && (CanceledAt in row.stamps <==> row.status == Canceled)
    && (ApprovedAt in row.stamps <==> row.attempts > 0)
    && (SubmittedAt in row.stamps <==> row.attempts > 0)
  }

  /** Reaching this status sets this stamp. */
  predicate Sets(now: Status, stamp: Stamp) {
    match stamp
    case ApprovedAt => now == Approved
    case SubmittedAt => now == Submitting || now == Submitted
    case FilledAt => now == Filled
    case RejectedAt => now == Rejected
    case FailedAt => now == SubmissionFailed
    case CanceledAt => now == Canceled
  }

  lemma StampForExactly(now: Status, stamp: Stamp)
    ensures stamp in StampFor(now) <==> Sets(now, stamp)
  {
  }

  /** A stamp is set exactly when some event of the order reached a status that sets it. */
  ghost predicate StampsTell(stamps: set<Stamp>, trail: seq<OrderEvent>) {
    forall stamp {:trigger SomeSets(trail, stamp)} :: stamp in stamps <==> SomeSets(trail, stamp)
  }

  ghost predicate SomeSets(trail: seq<OrderEvent>, stamp: Stamp) {
    exists e :: e in trail && Sets(e.now, stamp)
  }

  /** No call follows one that the broker took. */
  ghost predicate CallsOK(status: Status, calls: seq<PlaceCall>) {
    && (forall i :: 0 <= i < |calls| - 1 ==> CallFailed(calls[i]))
    && (CanApprove(status) ==> forall i :: 0 <= i < |calls| ==> CallFailed(calls[i]))
  }

  /** The event log agrees with the row: it chains to the row's status, it has one start per
      submission attempt, a fill exactly when the order is FILLED, and at most three real changes
      per attempt and two more. */
  ghost predicate TrailOK(row: OrderRow, trail: seq<OrderEvent>) {
    && Chain(trail, row.status)
    && Count(trail, IsSubmitStart) == row.attempts
    && Count(trail, IsFill) == (if row.status == Filled then 1 else 0)
    && Count(trail, IsChange) <= 3 * row.attempts + SinceAttempt(row.status)
  }

  /** Between methods no order rests in APPROVED or SUBMITTING, and an order that the broker has
      heard of has been submitted. */
  predicate RestsOK(row: OrderRow) {
    && row.status !in {Approved, Submitting}
    && (row.status in {Submitted, PartiallyFilled, Filled, SubmissionFailed} ==> row.attempts > 0)
  }

  /** Row, event log and call log tell one story. */
  ghost predicate LifeOK(l: Life) {
    && StampsTell(l.row.stamps, l.trail)
    && LogsAgree(l)
  }

  ghost predicate LogsAgree(l: Life) {
    && RestsOK(l.row)
    && StampsOK(l.row)
    && TrailOK(l.row, l.trail)
    && CallsOK(l.row.status, l.calls)
    && |l.calls| == l.row.attempts
  }

  lemma {:induction false} FilterAppend<T(!new)>(a: seq<T>, b: seq<T>, p: T -> bool)
    ensures Filter(a + b, p) == Filter(a, p) + Filter(b, p)
  {
    if b == [] {
      assert a + b == a;
    } else {
      FilterAppend(a, b[..|b| - 1], p);
      assert (a + b)[..|a + b| - 1] == a + b[..|b| - 1];
    }
  }

  lemma CountNext<T(!new)>(s: seq<T>, x: T, p: T -> bool)
    ensures Count(s + [x], p) == Count(s, p) + (if p(x) then 1 else 0)
  {
    assert (s + [x])[..|s|] == s;
  }

  lemma CountThree<T(!new)>(s: seq<T>, w: seq<T>, p: T -> bool)
    requires |w| == 3
    ensures Count(s + w, p)
         == Count(s, p) + (if p(w[0]) then 1 else 0) + (if p(w[1]) then 1 else 0) + (if p(w[2]) then 1 else 0)
  {
    CountNext(s, w[0], p);
    CountNext(s + [w[0]], w[1], p);
    CountNext(s + [w[0]] + [w[1]], w[2], p);
    assert s + w == s + [w[0]] + [w[1]] + [w[2]];
  }

  lemma CountsNext(trail: seq<OrderEvent>, e: OrderEvent)
    ensures Count(trail + [e], IsSubmitStart) == Count(trail, IsSubmitStart) + (if IsSubmitStart(e) then 1 else 0)
    ensures Count(trail + [e], IsFill) == Count(trail, IsFill) + (if IsFill(e) then 1 else 0)
    ensures Count(trail + [e], IsChange) == Count(trail, IsChange) + (if IsChange(e) then 1 else 0)
  {
    CountNext(trail, e, IsSubmitStart);
    CountNext(trail, e, IsFill);
    CountNext(trail, e, IsChange);
  }

  lemma ChainNext(trail: seq<OrderEvent>, status: Status, e: OrderEvent)
    requires Chain(trail, status) && e.was == Some(status) && CanTransition(status, e.now)
    ensures Chain(trail + [e], e.now)
  {
  }

  /** A new order starts a sound life. */
  lemma FreshLife(id: nat, terms: OrderTerms, kind: EventKind)
    requires kind in {ManualOrderStaged, AiDecisionOrderCreated}
    ensures LifeOK(Life(FreshRow(terms), [OrderEvent(id, None, PendingApproval, kind)], []))
  {
    var e := OrderEvent(id, None, PendingApproval, kind);
    CountsNext([], e);
    assert [] + [e] == [e];
  }

  /** One appended event that is a table step, and no submission. */
  predicate Shifts(row: OrderRow, w: Work) {
    && |w.events| == 1 && w.calls == []
    && w.events[0].was == Some(row.status) && w.events[0].now == w.row.status
    && w.events[0].kind !in {BrokerSubmitStarted, BrokerSubmitFailed, BrokerSubmitResult}
    && w.row.attempts == row.attempts
    && (w.row.status == row.status || (CanTransition(row.status, w.row.status) && w.row.status in TERMINAL + {PartiallyFilled}))
    && (w.row.stamps == row.stamps + StampFor(w.row.status) || w.row == row)
  }

  lemma ShiftWork(id: nat, row: OrderRow, act: Act)
    requires RestsOK(row) && !act.Submit?
    ensures var w := Perform(id, row, act).value; w == Work(row, [], []) || Shifts(row, w)
  {
  }

  lemma ShiftTrail(row: OrderRow, trail: seq<OrderEvent>, w: Work)
    requires TrailOK(row, trail) && Shifts(row, w)
    ensures TrailOK(w.row, trail + w.events)
  {
    var e := w.events[0];
    CountsNext(trail, e);
    ChainNext(trail, row.status, e);
    assert w.events == [e];
  }

  lemma ShiftStamps(row: OrderRow, w: Work)
    requires RestsOK(row) && StampsOK(row) && Shifts(row, w)
    ensures RestsOK(w.row) && StampsOK(w.row)
  {
  }

  lemma ShiftTells(row: OrderRow, trail: seq<OrderEvent>, w: Work)
    requires Chain(trail, row.status) && StampsTell(row.stamps, trail) && Shifts(row, w)
    ensures StampsTell(w.row.stamps, trail + w.events)
  {
    var e := w.events[0];
    if w.row == row {
      StampIsSet(row.status, row.stamps, trail);
      assert row.stamps == row.stamps + StampFor(row.status);
    }
    TellsNext(row.stamps, trail, e);
    assert w.events == [e];
  }

  lemma StampIsSet(status: Status, stamps: set<Stamp>, trail: seq<OrderEvent>)
    requires Chain(trail, status) && StampsTell(stamps, trail)
    ensures StampFor(status) <= stamps
  {
    forall stamp | stamp in StampFor(status)
      ensures stamp in stamps
    {
      StampForExactly(status, stamp);
      assert trail[|trail| - 1] in trail;
      assert SomeSets(trail, stamp);
    }
  }

  lemma TellsNext(stamps: set<Stamp>, trail: seq<OrderEvent>, e: OrderEvent)
    requires StampsTell(stamps, trail)
    ensures StampsTell(stamps + StampFor(e.now), trail + [e])
  {
    forall stamp
      ensures stamp in stamps + StampFor(e.now) <==> SomeSets(trail + [e], stamp)
    {
      StampForExactly(e.now, stamp);
      assert stamp in stamps <==> SomeSets(trail, stamp);
      if x :| x in trail && Sets(x.now, stamp) {
        assert x in trail + [e];
      }
      assert e in trail + [e];
    }
  }

  lemma SubmitTells(id: nat, row: OrderRow, trail: seq<OrderEvent>, w: Work)
    requires StampsTell(row.stamps, trail) && Submits(id, row, w)
    ensures StampsTell(w.row.stamps, trail + w.events)
  {
    var e0, e1, e2 := w.events[0], w.events[1], w.events[2];
    TellsNext(row.stamps, trail, e0);
    TellsNext(row.stamps + {ApprovedAt}, trail + [e0], e1);
    TellsNext(row.stamps + {ApprovedAt} + {SubmittedAt}, trail + [e0] + [e1], e2);
    assert trail + w.events == trail + [e0] + [e1] + [e2];
    assert w.row.stamps == row.stamps + {ApprovedAt} + {SubmittedAt} + StampFor(w.row.status);
  }

  /** What a submission amounts to: three events, one call, one more attempt. */
  predicate Submits(id: nat, row: OrderRow, w: Work) {
    && |w.events| == 3 && |w.calls| == 1
    && w.events[0] == OrderEvent(id, Some(row.status), Approved, OrderApproved)
    && w.events[1] == OrderEvent(id, Some(Approved), Submitting, BrokerSubmitStarted)
    && w.events[2].orderId == id && w.events[2].was == Some(Submitting) && w.events[2].now == w.row.status
    && w.events[2].kind == (if w.calls[0].answer.Raised? then BrokerSubmitFailed else BrokerSubmitResult)
    && w.calls[0].orderId == id && w.calls[0].terms == row.terms == w.row.terms
    && w.row.attempts == row.attempts + 1
    && w.row.stamps == row.stamps + {ApprovedAt, SubmittedAt} + StampFor(w.row.status)
    && w.row.status in Successors(Submitting)
    && (CallFailed(w.calls[0]) <==> w.row.status == SubmissionFailed)
  }

  /** A submission up to the answer of `place_order`. */
  function Started(id: nat, row: OrderRow, placed: BrokerAnswer): Work {
    Work(row.(status := Submitting, attempts := row.attempts + 1, stamps := row.stamps + {ApprovedAt} + {SubmittedAt}),
      [OrderEvent(id, Some(row.status), Approved, OrderApproved)] + [OrderEvent(id, Some(Approved), Submitting, BrokerSubmitStarted)],
      [PlaceCall(id, row.terms, placed)])
  }

  lemma SubmitStarts(id: nat, row: OrderRow, placed: BrokerAnswer)
    requires CanApprove(row.status)
    ensures Perform(id, row, Submit(placed)) == AdvanceByPlacement(id, Started(id, row, placed), placed)
  {
    SubmitIsApproved(id, row, placed);
  }

  lemma SubmitIsApproved(id: nat, row: OrderRow, placed: BrokerAnswer)
    requires CanApprove(row.status)
    ensures PerformSubmit(id, Work(row, [], []), placed) == AdvanceByPlacement(id, Started(id, row, placed), placed)
  {
    var approved := Shifted(id, row, Approved, OrderApproved, None);
    assert Advance(Work(row, [], []), id, Approved, OrderApproved, None) == Success(approved);
    var counted := Then(approved, Attempted(approved.row));
    assert counted == Work(approved.row.(attempts := row.attempts + 1), approved.events, []);
    var started := Then(counted, Shifted(id, counted.row, Submitting, BrokerSubmitStarted, None));
    assert Then(started, Called(id, started.row, placed)) == Started(id, row, placed);
  }

  lemma SubmitWork(id: nat, row: OrderRow, placed: BrokerAnswer)
    requires CanApprove(row.status)
    ensures Submits(id, row, Perform(id, row, Submit(placed)).value)
    ensures Perform(id, row, Submit(placed)).value.calls == [PlaceCall(id, row.terms, placed)]
  {
    SubmitStarts(id, row, placed);
    PlacementSubmits(id, row, placed);
  }

  lemma PlacementSubmits(id: nat, row: OrderRow, placed: BrokerAnswer)
    requires CanApprove(row.status)
    ensures AdvanceByPlacement(id, Started(id, row, placed), placed).Success?
    ensures Submits(id, row, AdvanceByPlacement(id, Started(id, row, placed), placed).value)
    ensures AdvanceByPlacement(id, Started(id, row, placed), placed).value.calls == [PlaceCall(id, row.terms, placed)]
  {
  }

  /** An answered submission leaves the order in the status that the broker's word stands for. */
  lemma SubmitResult(id: nat, row: OrderRow, brokerOrderId: Option<string>, word: string)
    requires CanApprove(row.status)
    ensures var next := Perform(id, row, Submit(Answered(brokerOrderId, word))).value.row;
      next.status == NormalizeBrokerStatus(word)
      && next.brokerOrderId == if brokerOrderId.Some? then brokerOrderId else row.brokerOrderId
  {
  }

  lemma SubmitStamps(row: OrderRow, next: OrderRow)
    requires StampsOK(row) && CanApprove(row.status) && next.status in Successors(Submitting)
    requires next.stamps == row.stamps + {ApprovedAt, SubmittedAt} + StampFor(next.status)
    requires next.attempts == row.attempts + 1
    ensures StampsOK(next)
  {
  }

  lemma SubmitCalls(status: Status, calls: seq<PlaceCall>, c: PlaceCall, next: Status)
    requires CanApprove(status) && CallsOK(status, calls) && next in Successors(Submitting)
    requires CallFailed(c) <==> next == SubmissionFailed
    ensures CallsOK(next, calls + [c])
  {
  }

  lemma SubmitChain(id: nat, row: OrderRow, trail: seq<OrderEvent>, w: Work)
    requires Chain(trail, row.status) && CanApprove(row.status) && Submits(id, row, w)
    ensures Chain(trail + w.events, w.row.status)
  {
    var e0, e1, e2 := w.events[0], w.events[1], w.events[2];
    ChainNext(trail, row.status, e0);
    ChainNext(trail + [e0], Approved, e1);
    ChainNext(trail + [e0] + [e1], Submitting, e2);
    assert trail + w.events == trail + [e0] + [e1] + [e2];
  }

  lemma SubmitCounts(id: nat, row: OrderRow, trail: seq<OrderEvent>, w: Work)
    requires CanApprove(row.status) && Submits(id, row, w)
    ensures Count(trail + w.events, IsSubmitStart) == Count(trail, IsSubmitStart) + 1
    ensures Count(trail + w.events, IsFill) == Count(trail, IsFill) + (if w.row.status == Filled then 1 else 0)
    ensures Count(trail + w.events, IsChange) == Count(trail, IsChange) + 3
  {
    CountThree(trail, w.events, IsSubmitStart);
    CountThree(trail, w.events, IsFill);
    CountThree(trail, w.events, IsChange);
  }

  lemma SubmitKeepsLife(id: nat, l: Life, w: Work)
    requires LifeOK(l) && CanApprove(l.row.status) && Submits(id, l.row, w)
    ensures LifeOK(Lived(l, w))
  {
    SubmitTells(id, l.row, l.trail, w);
    SubmitKeepsLogs(id, l, w);
  }

  lemma SubmitKeepsLogs(id: nat, l: Life, w: Work)
    requires LogsAgree(l) && CanApprove(l.row.status) && Submits(id, l.row, w)
    ensures LogsAgree(Lived(l, w))
  {
    SubmitChain(id, l.row, l.trail, w);
    SubmitCounts(id, l.row, l.trail, w);
    SubmitStamps(l.row, w.row);
    SubmitCalls(l.row.status, l.calls, w.calls[0], w.row.status);
    assert w.calls == [w.calls[0]];
  }

  lemma ShiftKeepsLife(l: Life, w: Work)
    requires LifeOK(l) && Shifts(l.row, w)
    ensures LifeOK(Lived(l, w))
  {
    ShiftTells(l.row, l.trail, w);
    ShiftKeepsLogs(l, w);
  }

  lemma ShiftKeepsLogs(l: Life, w: Work)
    requires LogsAgree(l) && Shifts(l.row, w)
    ensures LogsAgree(Lived(l, w))
  {
    ShiftTrail(l.row, l.trail, w);
    ShiftStamps(l.row, w);
    assert l.calls + w.calls == l.calls;
  }

  /** Every method keeps a sound life sound. */
  lemma PerformKeepsLife(id: nat, l: Life, act: Act)
    requires LifeOK(l)
    ensures LifeOK(Lived(l, Perform(id, l.row, act).value))
  {
    var w := Perform(id, l.row, act).value;
    if act.Submit? && CanApprove(l.row.status) {
      SubmitWork(id, l.row, act.placed);
      SubmitKeepsLife(id, l, w);
    } else if w == Work(l.row, [], []) {
      assert Lived(l, w) == l;
    } else {
      ShiftWork(id, l.row, act);
      ShiftKeepsLife(l, w);
    }
  }
}
