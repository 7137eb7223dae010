/** Every way a cancel call at the CREON gateway can go, with the exchanges it makes and what it
    answers (gateway/creon_client.py). */
module CancelEffects {
  import opened Wrappers
  import opened PyText
  import opened OrderStatuses
  import opened CreonOrders
  import opened OrderNumbers
  import opened CreonCancel

  /** The row that names the symbol of a cancel request: the first of the order's own. */
  predicate IsFirstOf(b: string, rows: seq<Record>, r: Record) {
    exists i :: 0 <= i < |rows| && rows[i] == r && r.orderNumber == b && forall j :: 0 <= j < i ==> rows[j].orderNumber != b
  }

  lemma {:induction false} PrimaryIsFirst(b: string, rows: seq<Record>)
    requires HasOrder(b, rows)
    ensures IsFirstOf(b, rows, PrimaryRecord(b, rows))
  {
    if IsPrimary(b, rows[0]) {
      assert rows[0].orderNumber == b;
    } else {
      assert forall r :: r in rows && r != rows[0] ==> r in rows[1..];
      PrimaryIsFirst(b, rows[1..]);
      var i :| 0 <= i < |rows[1..]| && rows[1..][i] == PrimaryRecord(b, rows) && forall j :: 0 <= j < i ==> rows[1..][j].orderNumber != b;
      assert forall j :: 0 <= j < i + 1 ==> rows[j].orderNumber != b by {
        forall j | 0 <= j < i + 1
          ensures rows[j].orderNumber != b
        {
          if j > 0 {
            assert rows[1..][j - 1] == rows[j];
          }
        }
      }
      assert rows[i + 1] == PrimaryRecord(b, rows);
    }
  }

  /** The exchanges of a call up to the end of its first reading. */
  function Checked(com: ComAnswers): seq<ComEvent> {
    [ApartmentOpened, TradeInitAnswered(Some(0))] + PageEvents(com.before, PagesRead(com.before))
  }

  /** Without the COM libraries nothing happens; a failing session is closed before any reading. */
  lemma SessionFails(b: string, com: ComAnswers)
    ensures !com.apartment ==> CancelOutcome(b, com) == Outcome([], Failure(Configuration))
    ensures com.apartment && com.tradeInit == None ==>
      CancelOutcome(b, com) == Outcome([ApartmentOpened, TradeInitAnswered(None), ApartmentClosed], Failure(RequestFailed))
    ensures com.apartment && com.tradeInit.Some? && com.tradeInit.value != 0 ==>
      CancelOutcome(b, com) == Outcome([ApartmentOpened, TradeInitAnswered(com.tradeInit), ApartmentClosed], Failure(TradeInitFailed))
  {
  }

  predicate Opens(com: ComAnswers) {
    com.apartment && com.tradeInit == Some(0)
  }

  /** The history shows the order accepted or partly filled, with something left. */
  predicate ShownOpen(b: string, pages: PageStream) {
    && OrderStatus(b, pages).Success?
    && (OrderStatus(b, pages).value.status == Submitted || OrderStatus(b, pages).value.status == PartiallyFilled)
    && OrderStatus(b, pages).value.remaining > 0
  }

  lemma OnlyOpenStatuses(b: string, rows: seq<Record>)
    ensures StatusFromRecords(b, rows).Success? ==> IsBrokerStatus(StatusFromRecords(b, rows).value.status)
  {
  }

  lemma CancelableExactly(b: string, pages: PageStream)
    requires ParseInt(b).Some?
    ensures Cancelable(b, pages) <==> ShownOpen(b, pages)
  {
    if OrderStatus(b, pages).Success? {
      OnlyOpenStatuses(b, ReadHistory(pages).value);
    }
  }

  /** An order that is not open is answered as it is, or with the error of its reading, and no
      request is sent. */
  lemma NothingToCancel(b: string, com: ComAnswers)
    requires Opens(com) && ParseInt(b).Some? && !ShownOpen(b, com.before)
    ensures CancelOutcome(b, com) == Outcome(Checked(com) + [ApartmentClosed], OrderStatus(b, com.before))
  {
    CancelableExactly(b, com.before);
    assert CheckAndCancel(b, com) == CheckStatus(b, com.before);
  }

  /** The number that CREON gives the cancel request can be read: it is missing or an integer. */
  predicate Readable(id: ComValue) {
    id == Empty || id.Number? || id == Text("") || (id.Text? && ParseInt(id.text).Some?)
  }

  lemma CancelErrorExactly(reply: Reply)
    ensures CancelError(reply) == None <==> reply.Replied? && reply.status == 0 && Readable(reply.cancelOrderId)
    ensures CancelError(reply) == Some(CancelRejected) <==> reply.Replied? && reply.status != 0
    ensures CancelError(reply) == Some(RequestFailed) <==> reply == Reply.Raised || (reply.status == 0 && !Readable(reply.cancelOrderId))
  {
  }

  /** What follows the one request, which names the order by its number and its symbol. */
  function Requested(b: string, com: ComAnswers, symbol: string): seq<ComEvent>
    requires ParseInt(b).Some?
  {
    Checked(com) + [CancelAnswered(ParseInt(b).value, symbol, com.reply)]
  }

  lemma OneRequest(b: string, com: ComAnswers) returns (symbol: string)
    requires Opens(com) && ParseInt(b).Some? && ShownOpen(b, com.before)
    ensures exists r :: IsFirstOf(b, ReadHistory(com.before).value, r) && symbol == r.symbol
    ensures CancelOutcome(b, com).events
         == (if CancelError(com.reply) == None then Requested(b, com, symbol) + PageEvents(com.after, PagesRead(com.after))
             else Requested(b, com, symbol)) + [ApartmentClosed]
    ensures CancelOutcome(b, com).answer
         == (match CancelError(com.reply) case None => OrderStatus(b, com.after) case Some(e) => Failure(e))
  {
    var rows := ReadHistory(com.before).value;
    CancelableExactly(b, com.before);
    PrimaryIsFirst(b, rows);
    symbol := PrimaryRecord(b, rows).symbol;
    CheckThenCancel(b, com, rows, ParseInt(b).value);
    EventsInOrder(b, com, symbol);
  }

  lemma EventsInOrder(b: string, com: ComAnswers, symbol: string)
    requires ParseInt(b).Some?
    ensures [ApartmentOpened, TradeInitAnswered(Some(0))]
        + (CheckStatus(b, com.before).events + SendCancel(b, ParseInt(b).value, symbol, com).events)
      == if CancelError(com.reply) == None then Requested(b, com, symbol) + PageEvents(com.after, PagesRead(com.after))
         else Requested(b, com, symbol)
  {
    var first := [ApartmentOpened, TradeInitAnswered(Some(0))];
    var sent := [CancelAnswered(ParseInt(b).value, symbol, com.reply)];
    ConcatAssociates(first, CheckStatus(b, com.before).events, SendCancel(b, ParseInt(b).value, symbol, com).events);
    if CancelError(com.reply) == None {
      ConcatAssociates(Checked(com), sent, PageEvents(com.after, PagesRead(com.after)));
    }
  }

  /** An accepted request: the history is read again and its status is the answer. */
  lemma AcceptedCancel(b: string, com: ComAnswers) returns (symbol: string)
    requires Opens(com) && ParseInt(b).Some? && ShownOpen(b, com.before)
    requires com.reply.Replied? && com.reply.status == 0 && Readable(com.reply.cancelOrderId)
    ensures CancelOutcome(b, com) == Outcome(
      Requested(b, com, symbol) + PageEvents(com.after, PagesRead(com.after)) + [ApartmentClosed], OrderStatus(b, com.after))
  {
    CancelErrorExactly(com.reply);
    symbol := OneRequest(b, com);
  }

  /** A refused one is an error of its own, and nothing is read after it. */
  lemma RefusedCancel(b: string, com: ComAnswers) returns (symbol: string)
    requires Opens(com) && ParseInt(b).Some? && ShownOpen(b, com.before)
    requires com.reply.Replied? && com.reply.status != 0
    ensures CancelOutcome(b, com) == Outcome(Requested(b, com, symbol) + [ApartmentClosed], Failure(CancelRejected))
  {
    CancelErrorExactly(com.reply);
    symbol := OneRequest(b, com);
  }

  /** So is one that raises or gives an unreadable number, with the general error. */
  lemma BrokenCancel(b: string, com: ComAnswers) returns (symbol: string)
    requires Opens(com) && ParseInt(b).Some? && ShownOpen(b, com.before)
    requires com.reply == Reply.Raised || (com.reply.status == 0 && !Readable(com.reply.cancelOrderId))
    ensures CancelOutcome(b, com) == Outcome(Requested(b, com, symbol) + [ApartmentClosed], Failure(RequestFailed))
  {
    CancelErrorExactly(com.reply);
    symbol := OneRequest(b, com);
  }
}
