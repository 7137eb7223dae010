/** The engine with the gateway behind it: every poll of an order is answered by a reading of CREON's
    order history (trading_engine.py, broker/creon_gateway.py, gateway/creon_client.py). */
module EndToEnd {
  import opened Wrappers
  import opened OrderStatuses
  import opened Tables
  import opened TradingSafety
  import opened EngineSpec
  import opened CreonOrders
  import opened OrderNumbers
  import opened CreonCancel
  import opened Composition

  /** What CREON did during one poll: it gave the history once, or it went through a cancel call. */
  datatype Source = Asked(pages: PageStream) | Canceling(com: ComAnswers)

  function GatewayAnswer(b: string, source: Source): Result<Snapshot, GatewayError> {
    match source
    case Asked(pages) => OrderStatus(b, pages)
    case Canceling(com) => CancelOutcome(b, com).answer
  }

  /** The history that an answer is folded from. */
  function LastPages(b: string, source: Source): PageStream {
    match source
    case Asked(pages) => pages
    case Canceling(com) => LastPagesOf(b, com)
  }

  lemma AnswerIsFoldOfLastPages(b: string, source: Source)
    requires GatewayAnswer(b, source).Success?
    ensures GatewayAnswer(b, source) == OrderStatus(b, LastPages(b, source))
  {
    if source.Canceling? {
      CancelAnswer(b, source.com);
    }
  }

  /** A gateway result as the engine's broker client returns it: an error response raises. */
  function AnswerOf(b: string, r: Result<Snapshot, GatewayError>): BrokerAnswer {
    match r
    case Failure(_) => BrokerAnswer.Raised
    case Success(s) => Answered(Some(b), StatusWord(s.status))
  }

  /** A poll that the gateway answers, while CREON's rows about the order are the given ones. They
      may come on any pages, in any order and number, among any other rows. */
  ghost predicate PolledFrom(op: Op, b: string, source: Source, rows: seq<Record>) {
    && ((op.Refresh? && source.Asked?) || (op.Cancel? && source.Canceling?))
    && op.answer == AnswerOf(b, GatewayAnswer(b, source))
    && (ReadHistory(LastPages(b, source)).Success? ==> SameRelated(b, ReadHistory(LastPages(b, source)).value, rows))
  }

  lemma PollIsAnsweredFrom(op: Op, user: nat, id: nat, b: string, source: Source, rows: seq<Record>)
    requires b != "" && HasOrder(b, rows) && PolledFrom(op, b, source, rows)
    ensures AnsweredFrom(op, user, id, FactsOf(b, rows))
  {
    if op.answer.Answered? {
      AnswerIsFoldOfLastPages(b, source);
      StatusSeesOnlyRelatedRows(b, ReadHistory(LastPages(b, source)).value, rows);
    }
  }

  /** CREON's rows over time, one list per moment: the order is always among them, and moves forward. */
  ghost predicate RowsMoveForward(b: string, moments: seq<seq<Record>>) {
    && (forall i :: 0 <= i < |moments| ==> HasOrder(b, moments[i]))
    && forall i, j :: 0 <= i && j == i + 1 < |moments| ==> Forward(FactsOf(b, moments[i]), FactsOf(b, moments[j]))
  }

  /** moments[k + 1] holds when request k is made. */
  ghost predicate AllPolledFrom(ops: seq<Op>, user: nat, id: nat, b: string, sources: seq<Source>, moments: seq<seq<Record>>)
    requires |sources| == |ops| && |moments| == |ops| + 1
  {
    forall k :: 0 <= k < |ops| && Polls(ops[k], user, id) ==> PolledFrom(ops[k], b, sources[k], moments[k + 1])
  }

  /** The facts at each moment. */
  function FactsOver(b: string, moments: seq<seq<Record>>): (history: seq<Facts>)
    requires forall i :: 0 <= i < |moments| ==> HasOrder(b, moments[i])
    ensures |history| == |moments|
    ensures forall i :: 0 <= i < |moments| ==> history[i] == FactsOf(b, moments[i])
  {
    seq(|moments|, i requires 0 <= i < |moments| => FactsOf(b, moments[i]))
  }

  lemma AllAnswered(ops: seq<Op>, user: nat, id: nat, b: string, sources: seq<Source>, moments: seq<seq<Record>>)
    requires |sources| == |ops| && |moments| == |ops| + 1 && b != "" && RowsMoveForward(b, moments)
    requires AllPolledFrom(ops, user, id, b, sources, moments)
    ensures AllAnsweredFrom(ops, user, id, FactsOver(b, moments))
  {
    forall k | 0 <= k < |ops|
      ensures AnsweredFrom(ops[k], user, id, FactsOver(b, moments)[k + 1])
    {
      if Polls(ops[k], user, id) {
        PollIsAnsweredFrom(ops[k], user, id, b, sources[k], moments[k + 1]);
      }
    }
  }

  lemma PlacedStaysPositive(history: seq<Facts>, k: nat)
    requires MovesForward(history) && k < |history| && JustPlaced(history[0])
    ensures history[k].quantity > 0
  {
    LaterIsForward(history, 0, k);
  }

  /** An order that the gateway accepted under p, by approval or automatic decision, and that is then
      polled through the gateway, whatever else anyone requests: the stored status is the status of
      CREON's rows at the moment of the last poll that was answered. */
  lemma StoredStatusIsCreonStatus(sys: Settings, s: Store, op: Op, p: string, b: string, ops: seq<Op>, sources: seq<Source>, moments: seq<seq<Record>>)
    requires Places(sys, s, op, p) && NormalizeBrokerOrderId(p) == Success(b)
    requires |sources| == |ops| && |moments| == |ops| + 1 && RowsMoveForward(b, moments) && JustPlaced(FactsOf(b, moments[0]))
    requires AllPolledFrom(ops, op.user, op.id, b, sources, moments)
    ensures op.id in Run(sys, Step(sys, s, op).store, ops).orders
    ensures StatusFromRecords(b, moments[LastRead(ops, op.user, op.id)]).Success?
    ensures Run(sys, Step(sys, s, op).store, ops).orders[op.id].status
         == StatusFromRecords(b, moments[LastRead(ops, op.user, op.id)]).value.status
  {
    var history := FactsOver(b, moments);
    NormalizedIsCanonical(p, b);
    AllAnswered(ops, op.user, op.id, b, sources, moments);
    PlacedOrderFollowsGateway(sys, s, op, p, ops, history);
    PlacedStaysPositive(history, LastRead(ops, op.user, op.id));
    StatusOfRows(b, moments[LastRead(ops, op.user, op.id)]);
  }

  lemma StatusOfRows(b: string, rows: seq<Record>)
    requires HasOrder(b, rows) && FactsOf(b, rows).quantity > 0
    ensures StatusFromRecords(b, rows).Success? && StatusFromRecords(b, rows).value.status == StatusOf(FactsOf(b, rows))
  {
  }
}
