/** The cancel protocol of the CREON gateway (gateway/creon_client.py): check the history, send the
    cancel request, read the history again, all under the process-wide COM lock. */
module CreonCancel {
  import opened Wrappers
  import opened PyText
  import opened OrderStatuses
  import opened CreonOrders
  import opened OrderNumbers

  /** What the cancel object CpTd0314 does with a request. */
  datatype Reply = Raised | Replied(status: int, cancelOrderId: ComValue)

  /** One exchange with the COM objects and what came back. */
  datatype ComEvent =
    | ApartmentOpened
    | TradeInitAnswered(code: Option<int>)
    | PageAnswered(page: Page)
    | CancelAnswered(number: int, symbol: string, reply: Reply)
    | ApartmentClosed

  /** Everything that the COM objects will answer during one call: whether the apartment can be
      opened, the code of TradeInit (None when it raises), the history before and after the
      cancel request, and the reply to that request. */
  datatype ComAnswers = ComAnswers(
    apartment: bool, tradeInit: Option<int>, before: PageStream, reply: Reply, after: PageStream)

  datatype Outcome = Outcome(events: seq<ComEvent>, answer: Result<Snapshot, GatewayError>) {
    function After(first: seq<ComEvent>): Outcome {
      Outcome(first + events, answer)
    }
  }

  function PageEvents(pages: PageStream, n: nat): seq<ComEvent> {
    seq(n, k requires 0 <= k => PageAnswered(pages(k)))
  }

  /** One reading of the history and the fold of what it gave. */
  function CheckStatus(b: string, pages: PageStream): Outcome {
    Outcome(PageEvents(pages, PagesRead(pages)), OrderStatus(b, pages))
  }

  /** `_primary_order_record` */
  function PrimaryRecord(b: string, rows: seq<Record>): (r: Record)
    requires HasOrder(b, rows)
    ensures r in rows && IsPrimary(b, r)
  {
    if IsPrimary(b, rows[0]) then rows[0]
    else
      assert forall r :: r in rows && r != rows[0] ==> r in rows[1..];
      PrimaryRecord(b, rows[1..])
  }

  /** `_submit_cancel_0314`: the error it raises, if any. */
  function CancelError(reply: Reply): Option<GatewayError> {
    match reply
    case Raised => Some(RequestFailed)
    case Replied(status, id) =>
      if status != 0 then Some(CancelRejected)
      else if NormalizeOptionalOrderNumber(id).Failure? then Some(RequestFailed)
      else None
  }

  predicate CanSendCancel(s: Snapshot) {
    !IsTerminal(s.status) && s.remaining > 0
  }

  /** The history shows the order open with something left to cancel. */
  predicate Cancelable(b: string, pages: PageStream) {
    OrderStatus(b, pages).Success? && CanSendCancel(OrderStatus(b, pages).value) && ParseInt(b).Some?
  }

  function SendCancel(b: string, number: int, symbol: string, com: ComAnswers): Outcome {
    var sent := [CancelAnswered(number, symbol, com.reply)];
    match CancelError(com.reply)
    case Some(e) => Outcome(sent, Failure(e))
    case None => CheckStatus(b, com.after).After(sent)
  }

  /** `int(broker_order_id)`; its argument is a normalised id, so the error is not met. */
  function CheckAndCancel(b: string, com: ComAnswers): Outcome {
    var check := CheckStatus(b, com.before);
    if check.answer.Failure? || !CanSendCancel(check.answer.value) then check
    else match ParseInt(b)
      case None => Outcome(check.events, Failure(RequestFailed))
      case Some(number) =>
        var symbol := PrimaryRecord(b, ReadHistory(com.before).value).symbol;
        SendCancel(b, number, symbol, com).After(check.events)
  }

  lemma CheckThenCancel(b: string, com: ComAnswers, rows: seq<Record>, number: int)
    requires ReadHistory(com.before) == Success(rows) && HasOrder(b, rows) && ParseInt(b) == Some(number)
    requires CheckStatus(b, com.before).answer.Success? && CanSendCancel(CheckStatus(b, com.before).answer.value)
    ensures CheckAndCancel(b, com) == SendCancel(b, number, PrimaryRecord(b, rows).symbol, com).After(CheckStatus(b, com.before).events)
  {
  }

  lemma CheckIsAll(b: string, com: ComAnswers)
    requires CheckStatus(b, com.before).answer.Success? && CanSendCancel(CheckStatus(b, com.before).answer.value) ==> ParseInt(b).None?
    ensures CheckAndCancel(b, com).events == CheckStatus(b, com.before).events
    ensures CheckAndCancel(b, com).answer == CheckStatus(b, com.before).answer || CheckAndCancel(b, com).answer.Failure?
  {
  }

  function InsideApartment(b: string, com: ComAnswers): Outcome {
    var initialized := [ApartmentOpened, TradeInitAnswered(com.tradeInit)];
    match com.tradeInit
    case None => Outcome(initialized, Failure(RequestFailed))
    case Some(code) =>
      if code != 0 then Outcome(initialized, Failure(TradeInitFailed))
      else CheckAndCancel(b, com).After(initialized)
  }

  /** Everything one cancel call does between taking and releasing the lock. */
  function CancelOutcome(b: string, com: ComAnswers): Outcome {
    if !com.apartment then Outcome([], Failure(Configuration))
    else
      var inside := InsideApartment(b, com);
      Outcome(inside.events + [ApartmentClosed], inside.answer)
  }

  /** The history that the answer is folded from: the one after the request, if one is sent. */
  function LastPagesOf(b: string, com: ComAnswers): PageStream {
    if Cancelable(b, com.before) then com.after else com.before
  }

  lemma CheckAnswer(b: string, com: ComAnswers)
    requires CheckAndCancel(b, com).answer.Success?
    ensures CheckAndCancel(b, com).answer == OrderStatus(b, LastPagesOf(b, com))
  {
    if Cancelable(b, com.before) {
      CheckThenCancel(b, com, ReadHistory(com.before).value, ParseInt(b).value);
    } else {
      CheckIsAll(b, com);
    }
  }

  lemma CancelAnswer(b: string, com: ComAnswers)
    requires CancelOutcome(b, com).answer.Success?
    ensures CancelOutcome(b, com).answer == OrderStatus(b, LastPagesOf(b, com))
  {
    CheckAnswer(b, com);
  }

  class ComWorker {
    var locked: bool
    ghost var log: seq<ComEvent>

    constructor ()
      ensures !locked && log == []
    {
      locked, log := false, [];
    }

    /** `_fetch_order_records_5341` followed by `_status_from_order_records` */
    method ReadStatus(b: string, pages: PageStream) returns (r: Result<Snapshot, GatewayError>, rows: seq<Record>)
      modifies this`log
      ensures log == old(log) + CheckStatus(b, pages).events && r == CheckStatus(b, pages).answer
      ensures r.Success? ==> HasOrder(b, rows) && ReadHistory(pages) == Success(rows)
    {
      var fetched, pageCount := FetchOrderRecords(pages);
      log := log + PageEvents(pages, pageCount);
      rows := [];
      match fetched {
        case Failure(e) => r := Failure(e);
        case Success(records) =>
          rows := records;
          r := StatusFromRecords(b, records);
      }
    }

    /** The request itself and the reading after it. */
    method SendAndReadAgain(b: string, number: int, symbol: string, com: ComAnswers) returns (r: Result<Snapshot, GatewayError>)
      modifies this`log
      ensures log == old(log) + SendCancel(b, number, symbol, com).events && r == SendCancel(b, number, symbol, com).answer
    {
      log := log + [CancelAnswered(number, symbol, com.reply)];
      var error := CancelError(com.reply);
      if error.Some? {
        r := Failure(error.value);
      } else {
        var rows;
        r, rows := ReadStatus(b, com.after);
        ConcatAssociates(old(log), [CancelAnswered(number, symbol, com.reply)], CheckStatus(b, com.after).events);
      }
    }

    /** The body of `_cancel_order_once` after the session is open. */
    method CancelInApartment(b: string, com: ComAnswers) returns (r: Result<Snapshot, GatewayError>)
      modifies this`log
      ensures log == old(log) + CheckAndCancel(b, com).events && r == CheckAndCancel(b, com).answer
    {
      var current, rows := ReadStatus(b, com.before);
      var number := ParseInt(b);
      if current.Failure? || IsTerminal(current.value.status) || current.value.remaining <= 0 {
        r := current;
      } else if number.None? {
        r := Failure(RequestFailed);
      } else {
        var symbol := PrimaryRecord(b, rows).symbol;
        r := SendAndReadAgain(b, number.value, symbol, com);
        CheckThenCancel(b, com, rows, number.value);
        ConcatAssociates(old(log), CheckStatus(b, com.before).events, SendCancel(b, number.value, symbol, com).events);
      }
    }

    /** `_com_apartment` around `_initialize_trade` and the rest. */
    method InitializeAndCancel(b: string, com: ComAnswers) returns (r: Result<Snapshot, GatewayError>)
      modifies this`log
      ensures log == old(log) + InsideApartment(b, com).events + [ApartmentClosed] && r == InsideApartment(b, com).answer
    {
      ghost var initialized := [ApartmentOpened, TradeInitAnswered(com.tradeInit)];
      log := log + initialized;
      if com.tradeInit.None? {
        r := Failure(RequestFailed);
      } else if com.tradeInit.value != 0 {
        r := Failure(TradeInitFailed);
      } else {
        r := CancelInApartment(b, com);
        ConcatAssociates(old(log), initialized, CheckAndCancel(b, com).events);
      }
      log := log + [ApartmentClosed];
    }

    /** `_cancel_order_once`: the lock and the apartment are given back on every way out. A worker
        whose lock is taken answers that it is busy and does nothing. */
    method CancelOrderOnce(b: string, com: ComAnswers) returns (r: Result<Snapshot, GatewayError>)
      modifies this
      ensures locked == old(locked)
      ensures old(locked) ==> r == Failure(Busy) && log == old(log)
      ensures !old(locked) ==> log == old(log) + CancelOutcome(b, com).events && r == CancelOutcome(b, com).answer
    {
      if locked {
        return Failure(Busy);
      }
      locked := true;
      if !com.apartment {
        r := Failure(Configuration);
      } else {
        r := InitializeAndCancel(b, com);
        ConcatAssociates(old(log), InsideApartment(b, com).events, [ApartmentClosed]);
      }
      locked := false;
    }

    /** `cancel_order` */
    method CancelOrder(id: string, com: ComAnswers) returns (r: Result<Snapshot, GatewayError>)
      modifies this
      ensures locked == old(locked)
      ensures NormalizeBrokerOrderId(id).Failure? ==> r == Failure(InvalidOrderId) && log == old(log)
      ensures NormalizeBrokerOrderId(id).Success? && old(locked) ==> r == Failure(Busy) && log == old(log)
      ensures NormalizeBrokerOrderId(id).Success? && !old(locked) ==>
        && log == old(log) + CancelOutcome(NormalizeBrokerOrderId(id).value, com).events
        && r == CancelOutcome(NormalizeBrokerOrderId(id).value, com).answer
    {
      match NormalizeBrokerOrderId(id) {
        case Failure(e) => r := Failure(e);
        case Success(b) => r := CancelOrderOnce(b, com);
      }
    }
  }

  // ---------------------------------------------------------------------------------------------
  // What the log of a cancel call shows
  // ---------------------------------------------------------------------------------------------

  /** The rows that the history gave in the unbroken run of pages at the end of a log. */
  function LastReading(log: seq<ComEvent>): seq<Record> {
    if log != [] && log[|log| - 1].PageAnswered?
    then LastReading(log[..|log| - 1]) + log[|log| - 1].page.rows.GetOr([])
    else []
  }

  /** The log ends with a reading of the whole history, whose fold is the given snapshot. */
  ghost predicate JustRead(b: string, log: seq<ComEvent>, s: Snapshot) {
    && log != [] && log[|log| - 1].PageAnswered? && Good(log[|log| - 1].page) && !log[|log| - 1].page.more
    && StatusFromRecords(b, LastReading(log)) == Success(s)
  }

  /** Every cancel request in the log is for this order, and was sent only because the history just
      read shows the order open with something left to cancel. */
  ghost predicate SentRightly(b: string, log: seq<ComEvent>) {
    forall i: nat :: i < |log| && log[i].CancelAnswered? ==>
      ParseInt(b) == Some(log[i].number) && JustReadOpen(b, log[..i])
  }

  ghost predicate JustReadOpen(b: string, log: seq<ComEvent>) {
    exists s :: JustRead(b, log, s) && CanSendCancel(s)
  }

  function CountSent(log: seq<ComEvent>): nat {
    if log == [] then 0
    else CountSent(log[..|log| - 1]) + if log[|log| - 1].CancelAnswered? then 1 else 0
  }

  predicate EndsOutsideReading(log: seq<ComEvent>) {
    log == [] || !log[|log| - 1].PageAnswered?
  }

  lemma {:induction false} ReadingInLog(log: seq<ComEvent>, pages: PageStream, n: nat)
    requires EndsOutsideReading(log)
    ensures LastReading(log + PageEvents(pages, n)) == RowsOf(pages, n)
  {
    var whole := log + PageEvents(pages, n);
    if n == 0 {
      assert whole == log;
    } else {
      ReadingInLog(log, pages, n - 1);
      assert whole[..|whole| - 1] == log + PageEvents(pages, n - 1);
      assert whole[|whole| - 1] == PageAnswered(pages(n - 1));
    }
  }

  lemma ReadingStops(pages: PageStream)
    requires ReadHistory(pages).Success?
    ensures EndsAt(pages, PagesRead(pages)) && ReadHistory(pages) == Success(RowsOf(pages, PagesRead(pages)))
  {
  }

  lemma CheckIsJustRead(b: string, log: seq<ComEvent>, pages: PageStream)
    requires EndsOutsideReading(log) && OrderStatus(b, pages).Success?
    ensures JustRead(b, log + PageEvents(pages, PagesRead(pages)), OrderStatus(b, pages).value)
  {
    ReadingInLog(log, pages, PagesRead(pages));
    ReadingStops(pages);
    LastPageInLog(log, pages, PagesRead(pages));
  }

  lemma LastPageInLog(log: seq<ComEvent>, pages: PageStream, n: nat)
    requires n > 0
    ensures (log + PageEvents(pages, n))[|log| + n - 1] == PageAnswered(pages(n - 1))
  {
  }

  predicate NoCancel(events: seq<ComEvent>) {
    forall e :: e in events ==> !e.CancelAnswered?
  }

  lemma {:induction false} WithoutCancel(b: string, log: seq<ComEvent>, more: seq<ComEvent>)
    requires SentRightly(b, log) && NoCancel(more)
    ensures SentRightly(b, log + more) && CountSent(log + more) == CountSent(log)
  {
    if more == [] {
      assert log + more == log;
    } else {
      var front := log + more[..|more| - 1];
      WithoutCancel(b, log, more[..|more| - 1]);
      assert log + more == front + [more[|more| - 1]];
      assert more[|more| - 1] in more;
      OneMore(b, front, more[|more| - 1]);
    }
  }

  lemma OneMore(b: string, log: seq<ComEvent>, e: ComEvent)
    requires SentRightly(b, log)
    requires e.CancelAnswered? ==> ParseInt(b) == Some(e.number) && JustReadOpen(b, log)
    ensures SentRightly(b, log + [e])
    ensures CountSent(log + [e]) == CountSent(log) + if e.CancelAnswered? then 1 else 0
  {
    var whole := log + [e];
    assert whole[..|log|] == log;
    forall i: nat | i < |whole| && whole[i].CancelAnswered?
      ensures ParseInt(b) == Some(whole[i].number) && JustReadOpen(b, whole[..i])
    {
      PrefixesStay(log, [e], i);
    }
  }

  lemma PrefixesStay<T>(log: seq<T>, more: seq<T>, i: nat)
    ensures i <= |log| ==> (log + more)[..i] == log[..i]
  {
  }

  /** What holds of the log at the end of a stage that was entered with no request sent. */
  ghost predicate StageOK(b: string, log: seq<ComEvent>, answer: Result<Snapshot, GatewayError>) {
    && SentRightly(b, log) && CountSent(log) <= 1
    && (answer.Success? ==> JustRead(b, log, answer.value))
  }

  lemma CheckStage(b: string, log: seq<ComEvent>, pages: PageStream)
    requires EndsOutsideReading(log) && SentRightly(b, log)
    ensures SentRightly(b, log + CheckStatus(b, pages).events)
    ensures CountSent(log + CheckStatus(b, pages).events) == CountSent(log)
    ensures CheckStatus(b, pages).answer.Success? ==>
      JustRead(b, log + CheckStatus(b, pages).events, CheckStatus(b, pages).answer.value)
  {
    WithoutCancel(b, log, CheckStatus(b, pages).events);
    if CheckStatus(b, pages).answer.Success? {
      CheckIsJustRead(b, log, pages);
    }
  }

  lemma SendStage(b: string, number: int, symbol: string, com: ComAnswers, log: seq<ComEvent>)
    requires SentRightly(b, log) && CountSent(log) == 0
    requires ParseInt(b) == Some(number) && JustReadOpen(b, log)
    ensures CountSent(log + SendCancel(b, number, symbol, com).events) == 1
    ensures StageOK(b, log + SendCancel(b, number, symbol, com).events, SendCancel(b, number, symbol, com).answer)
  {
    var sent := CancelAnswered(number, symbol, com.reply);
    OneMore(b, log, sent);
    if CancelError(com.reply).None? {
      CheckStage(b, log + [sent], com.after);
      ConcatAssociates(log, [sent], CheckStatus(b, com.after).events);
    }
  }

  lemma CancelStage(b: string, com: ComAnswers, log: seq<ComEvent>)
    requires EndsOutsideReading(log) && SentRightly(b, log) && CountSent(log) == 0
    ensures StageOK(b, log + CheckAndCancel(b, com).events, CheckAndCancel(b, com).answer)
    ensures CountSent(log + CheckAndCancel(b, com).events) == 1 <==> Cancelable(b, com.before)
  {
    var check := CheckStatus(b, com.before);
    CheckStage(b, log, com.before);
    if check.answer.Success? && CanSendCancel(check.answer.value) && ParseInt(b).Some? {
      var rows := ReadHistory(com.before).value;
      var number, symbol := ParseInt(b).value, PrimaryRecord(b, rows).symbol;
      CheckThenCancel(b, com, rows, number);
      SendStage(b, number, symbol, com, log + check.events);
      ConcatAssociates(log, check.events, SendCancel(b, number, symbol, com).events);
    } else {
      CheckIsAll(b, com);
    }
  }

  /** The whole call: at most one request, sent exactly when the session opens and the history read
      then shows an open order, and the answered status is the fold of the history read last, which
      is read after the request if there was one. */
  lemma CancelIsGuarded(b: string, com: ComAnswers)
    ensures SentRightly(b, CancelOutcome(b, com).events) && CountSent(CancelOutcome(b, com).events) <= 1
    ensures CountSent(CancelOutcome(b, com).events) == 1 <==>
      com.apartment && com.tradeInit == Some(0) && Cancelable(b, com.before)
    ensures CancelOutcome(b, com).answer.Success? ==>
      exists log :: CancelOutcome(b, com).events == log + [ApartmentClosed] && JustRead(b, log, CancelOutcome(b, com).answer.value)
  {
    if com.apartment {
      var inside := InsideApartment(b, com);
      InsideIsGuarded(b, com);
      OneMore(b, inside.events, ApartmentClosed);
    }
  }

  lemma InsideIsGuarded(b: string, com: ComAnswers)
    ensures StageOK(b, InsideApartment(b, com).events, InsideApartment(b, com).answer)
    ensures CountSent(InsideApartment(b, com).events) == 1 <==> com.tradeInit == Some(0) && Cancelable(b, com.before)
  {
    NothingSentYet(b, com.tradeInit);
    CancelStage(b, com, [ApartmentOpened, TradeInitAnswered(com.tradeInit)]);
  }

  lemma NothingSentYet(b: string, code: Option<int>)
    ensures SentRightly(b, [ApartmentOpened, TradeInitAnswered(code)]) && CountSent([ApartmentOpened, TradeInitAnswered(code)]) == 0
  {
    assert [ApartmentOpened, TradeInitAnswered(code)][..1] == [ApartmentOpened];
    assert [ApartmentOpened][..0] == [];
  }

  /** A request is only ever sent for the number that the caller named. */
  lemma CancelNamesTheOrder(id: string, b: string, com: ComAnswers, i: nat)
    requires NormalizeBrokerOrderId(id) == Success(b)
    requires i < |CancelOutcome(b, com).events| && CancelOutcome(b, com).events[i].CancelAnswered?
    ensures NumberRequested(id).Some? && CancelOutcome(b, com).events[i].number == NumberRequested(id).value
  {
    CancelIsGuarded(b, com);
    NormalizedIsCanonical(id, b);
  }
}
