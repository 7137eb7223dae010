/** Order history of the CREON gateway: pages are read in a loop and folded into one status
    (gateway/creon_client.py). A page stream stands for the COM object: `pages(k)` is what the
    k-th request of one reading answers. */
module CreonOrders {
  import opened Wrappers
  import opened PyText
  import opened OrderStatuses

  datatype GatewayError = Configuration | Busy | TradeInitFailed | RequestFailed | PageLimit | OrderNotFound | CancelRejected | InvalidOrderId

  datatype Record = Record(
    orderNumber: string, originalOrderNumber: Option<string>, symbol: string,
    orderQuantity: int, totalFilled: int, confirmed: int, cancelable: Option<int>,
    amendContent: Option<string>, amendCode: Option<string>, rejection: Option<string>)

  /** One answer of the history object: its DIB status, its rows (None when a field does not
      decode) and its Continue flag. */
  datatype Page = Page(status: int, rows: Option<seq<Record>>, more: bool)

  type PageStream = nat -> Page

  const MAX_PAGES: nat := 50

  // ---------------------------------------------------------------------------------------------
  // Reading the history
  // ---------------------------------------------------------------------------------------------

  predicate Good(page: Page) {
    page.status == 0 && page.rows.Some?
  }

  /** The rows of the first n pages. */
  function RowsOf(pages: PageStream, n: nat): seq<Record> {
    if n == 0 then [] else RowsOf(pages, n - 1) + pages(n - 1).rows.GetOr([])
  }

  /** The first n pages are good and all of them say that more follow. */
  predicate Continues(pages: PageStream, n: nat) {
    forall k: nat :: k < n ==> Good(pages(k)) && pages(k).more
  }

  /** The history ends with its n-th page. */
  predicate EndsAt(pages: PageStream, n: nat) {
    n > 0 && Continues(pages, n - 1) && Good(pages(n - 1)) && !pages(n - 1).more
  }

  /** What a reading gives: all rows of a history that ends within the limit, an error when a page
      fails before that, and an error, never a part of the rows, when the history is longer. */
  ghost predicate IsReading(pages: PageStream, r: Result<seq<Record>, GatewayError>) {
    match r
    case Success(rows) => exists n: nat :: n <= MAX_PAGES && EndsAt(pages, n) && rows == RowsOf(pages, n)
    case Failure(e) =>
      || (e == PageLimit && Continues(pages, MAX_PAGES))
      || (e == RequestFailed && exists k: nat :: k < MAX_PAGES && Continues(pages, k) && !Good(pages(k)))
  }

  /** There is exactly one such result. */
  lemma ReadingIsUnique(pages: PageStream, r: Result<seq<Record>, GatewayError>, other: Result<seq<Record>, GatewayError>)
    requires IsReading(pages, r) && IsReading(pages, other)
    ensures r == other
  {
  }

  /** The reading from page k on, with the rows collected before it. */
  function ReadFrom(pages: PageStream, k: nat, before: seq<Record>): Result<seq<Record>, GatewayError>
    requires k < MAX_PAGES
    decreases MAX_PAGES - k
  {
    if !Good(pages(k)) then Failure(RequestFailed)
    else
      var rows := before + pages(k).rows.value;
      if !pages(k).more then Success(rows)
      else if k + 1 >= MAX_PAGES then Failure(PageLimit)
      else ReadFrom(pages, k + 1, rows)
  }

  lemma {:induction false} ReadFromIsReading(pages: PageStream, k: nat, before: seq<Record>)
    requires k < MAX_PAGES && Continues(pages, k) && before == RowsOf(pages, k)
    ensures IsReading(pages, ReadFrom(pages, k, before))
    decreases MAX_PAGES - k
  {
    if Good(pages(k)) && pages(k).more && k + 1 < MAX_PAGES {
      ReadFromIsReading(pages, k + 1, before + pages(k).rows.value);
    } else {
      LastPageIsReading(pages, k);
    }
  }

  lemma LastPageIsReading(pages: PageStream, k: nat)
    requires k < MAX_PAGES && Continues(pages, k) && (!Good(pages(k)) || !pages(k).more || k + 1 == MAX_PAGES)
    ensures IsReading(pages, ReadFrom(pages, k, RowsOf(pages, k)))
  {
    if Good(pages(k)) && !pages(k).more {
      assert EndsAt(pages, k + 1);
    }
  }

  function ReadHistory(pages: PageStream): (r: Result<seq<Record>, GatewayError>)
    ensures IsReading(pages, r)
  {
    ReadFromIsReading(pages, 0, []);
    ReadFrom(pages, 0, [])
  }

  /** A reading stops with its n-th page: the page failed, or was the last one, or reached the limit. */
  predicate StopsAfter(pages: PageStream, n: nat) {
    && 0 < n <= MAX_PAGES && Continues(pages, n - 1)
    && (!Good(pages(n - 1)) || !pages(n - 1).more || n == MAX_PAGES)
  }

  /** How many pages a reading has requested when it stops, k of them before. */
  function PagesFrom(pages: PageStream, k: nat): (n: nat)
    requires k < MAX_PAGES
    ensures Continues(pages, k) ==> StopsAfter(pages, n)
    decreases MAX_PAGES - k
  {
    if !Good(pages(k)) || !pages(k).more || k + 1 == MAX_PAGES then k + 1 else PagesFrom(pages, k + 1)
  }

  function PagesRead(pages: PageStream): (n: nat)
    ensures StopsAfter(pages, n)
  {
    PagesFrom(pages, 0)
  }

  /** `_fetch_order_records_5341` */
  method FetchOrderRecords(pages: PageStream) returns (r: Result<seq<Record>, GatewayError>, pageCount: nat)
    ensures r == ReadHistory(pages)
    ensures pageCount == PagesRead(pages)
  {
    var records: seq<Record> := [];
    pageCount := 0;
    while true
      invariant pageCount < MAX_PAGES
      invariant ReadFrom(pages, pageCount, records) == ReadHistory(pages)
      invariant PagesFrom(pages, pageCount) == PagesRead(pages)
      decreases MAX_PAGES - pageCount
    {
      var page := pages(pageCount);
      pageCount := pageCount + 1;
      if page.status != 0 || page.rows.None? {
        return Failure(RequestFailed), pageCount;
      }
      records := records + page.rows.value;
      if !page.more {
        return Success(records), pageCount;
      }
      if pageCount >= MAX_PAGES {
        return Failure(PageLimit), pageCount;
      }
    }
  }

  /** A history given as a list of pages. */
  function StreamOf(split: seq<seq<Record>>): PageStream {
    (k: nat) => if k < |split| then Page(0, Some(split[k]), k + 1 < |split|) else Page(0, Some([]), false)
  }

  function Concat(split: seq<seq<Record>>): seq<Record> {
    if split == [] then [] else Concat(split[..|split| - 1]) + split[|split| - 1]
  }

  lemma {:induction false} RowsOfStream(split: seq<seq<Record>>, n: nat)
    requires n <= |split|
    ensures RowsOf(StreamOf(split), n) == Concat(split[..n])
  {
    if n > 0 {
      RowsOfStream(split, n - 1);
      assert split[..n][..n - 1] == split[..n - 1];
    }
  }

  /** However the rows are split: up to 50 pages they are all returned, and beyond that it is an error. */
  lemma ReadingOfSplit(split: seq<seq<Record>>)
    requires split != []
    ensures ReadHistory(StreamOf(split)) == if |split| <= 50 then Success(Concat(split)) else Failure(PageLimit)
  {
    var pages := StreamOf(split);
    if |split| <= MAX_PAGES {
      RowsOfStream(split, |split|);
      assert split[..|split|] == split;
      assert EndsAt(pages, |split|);
      ReadingIsUnique(pages, ReadHistory(pages), Success(Concat(split)));
    } else {
      assert Continues(pages, MAX_PAGES);
      ReadingIsUnique(pages, ReadHistory(pages), Failure(PageLimit));
    }
  }

  // ---------------------------------------------------------------------------------------------
  // The status of one order
  // ---------------------------------------------------------------------------------------------

  function LowerChar(c: char): char {
    if 'A' <= c <= 'Z' then (c as int + 32) as char else c
  }

  function Lowered(s: string): string {
    Map(s, LowerChar)
  }

  predicate StartsAt(s: string, i: nat, part: string) {
    i + |part| <= |s| && s[i..i + |part|] == part
  }

  /** `part in s` */
  predicate Contains(s: string, part: string) {
    exists i: nat :: i <= |s| && StartsAt(s, i, part)
  }

  const CANCEL_IN_KOREAN := "\U{CDE8}\U{C18C}"

  /** `_is_cancel_record`; for finding "cancel", casefold differs from ASCII lower case nowhere. */
  predicate IsCancelRecord(r: Record) {
    || r.amendCode == Some("3")
    || (r.amendContent.Some? && Contains(Lowered(r.amendContent.value), "cancel"))
    || (r.amendContent.Some? && Contains(r.amendContent.value, CANCEL_IN_KOREAN))
  }

  /** The text is a word with anything before and after it. */
  ghost predicate Holds(s: string, word: string) {
    exists before, after :: s == before + word + after
  }

  lemma ContainsExactly(s: string, word: string)
    ensures Contains(s, word) <==> Holds(s, word)
  {
    if i: nat :| i <= |s| && StartsAt(s, i, word) {
      assert s == s[..i] + word + s[i + |word|..];
    }
    if before, after :| s == before + word + after {
      assert StartsAt(s, |before|, word);
    }
  }

  lemma LoweredSlice(s: string, i: nat, j: nat)
    requires i <= j <= |s|
    ensures Lowered(s)[i..j] == Lowered(s[i..j])
  {
  }

  lemma MiddleOf(before: string, word: string, after: string)
    ensures (before + word + after)[|before|..|before| + |word|] == word
  {
  }

  lemma LoweredFound(s: string, word: string, i: nat)
    requires StartsAt(Lowered(s), i, word)
    ensures Lowered(s[i..i + |word|]) == word && Holds(s, s[i..i + |word|])
  {
    LoweredSlice(s, i, i + |word|);
    assert s == s[..i] + s[i..i + |word|] + s[i + |word|..];
  }

  lemma LoweredHeld(before: string, w: string, after: string)
    ensures StartsAt(Lowered(before + w + after), |before|, Lowered(w))
  {
    MiddleOf(before, w, after);
    LoweredSlice(before + w + after, |before|, |before| + |w|);
  }

  lemma LoweredContainsExactly(s: string, word: string)
    ensures Contains(Lowered(s), word) <==> exists w :: Lowered(w) == word && Holds(s, w)
  {
    if i: nat :| i <= |s| && StartsAt(Lowered(s), i, word) {
      LoweredFound(s, word, i);
    }
    if w :| Lowered(w) == word && Holds(s, w) {
      var before, after :| s == before + w + after;
      LoweredHeld(before, w, after);
    }
  }

  /** "cancel" with each letter small or capital. */
  predicate IsCancelWord(w: string) {
    && |w| == 6 && w[0] in "cC" && w[1] in "aA" && w[2] in "nN"
    && w[3] in "cC" && w[4] in "eE" && w[5] in "lL"
  }

  lemma CancelWords()
    ensures forall w :: IsCancelWord(w) <==> Lowered(w) == "cancel"
  {
    forall w
      ensures IsCancelWord(w) <==> Lowered(w) == "cancel"
    {
      if |w| == 6 {
        assert Lowered(w) == [LowerChar(w[0]), LowerChar(w[1]), LowerChar(w[2]), LowerChar(w[3]), LowerChar(w[4]), LowerChar(w[5])];
      }
    }
  }

  /** A row is a cancel row exactly when it has code 3, or its text holds one of the two words, the
      English one in any capitals. */
  lemma CancelRecordExactly(r: Record)
    ensures IsCancelRecord(r) <==>
      || r.amendCode == Some("3")
      || (r.amendContent.Some? && exists w :: IsCancelWord(w) && Holds(r.amendContent.value, w))
      || (r.amendContent.Some? && Holds(r.amendContent.value, "\U{CDE8}\U{C18C}"))
  {
    CancelWords();
    if r.amendContent.Some? {
      LoweredContainsExactly(r.amendContent.value, "cancel");
      ContainsExactly(r.amendContent.value, CANCEL_IN_KOREAN);
    }
  }

  predicate IsPrimary(b: string, r: Record) {
    r.orderNumber == b
  }

  predicate HasRejection(r: Record) {
    r.rejection.Some? && r.rejection.value != ""
  }

  /** A cancel request for the order that was not itself rejected. */
  predicate IsSuccessfulCancel(b: string, r: Record) {
    r.originalOrderNumber == Some(b) && IsCancelRecord(r) && !HasRejection(r)
  }

  /** What the fold extracts from the rows of an order. */
  datatype Facts = Facts(quantity: int, filled: int, rejected: bool, canceled: bool, cancelable: Option<int>)

  datatype Snapshot = Snapshot(status: Status, filled: int, remaining: int)

  function StatusOf(f: Facts): Status {
    if f.filled >= f.quantity then Filled
    else if f.rejected && f.filled == 0 then Rejected
    else if f.canceled then Canceled
    else if f.filled > 0 then PartiallyFilled
    else Submitted
  }

  function SnapshotOf(f: Facts): Snapshot {
    var status := StatusOf(f);
    Snapshot(status, f.filled,
      if IsTerminal(status) then 0
      else if f.cancelable.Some? then f.cancelable.value
      else if f.quantity >= f.filled then f.quantity - f.filled else 0)
  }

  /** `max(f(row) for row in rows)` */
  function Largest(rows: seq<Record>, f: Record -> int): (m: int)
    requires rows != []
    ensures exists r :: r in rows && f(r) == m
    ensures forall r :: r in rows ==> f(r) <= m
  {
    var values := Map(rows, f);
    var m := MaxOf(values);
    assert forall r :: r in rows ==> f(r) in values by {
      forall r | r in rows
        ensures f(r) in values
      {
        var i :| 0 <= i < |rows| && rows[i] == r;
        assert values[i] == f(r);
      }
    }
    assert exists r :: r in rows && f(r) == m by {
      var i :| 0 <= i < |values| && values[i] == m;
      assert rows[i] in rows && f(rows[i]) == m;
    }
    m
  }

  predicate HasOrder(b: string, rows: seq<Record>) {
    exists r :: r in rows && IsPrimary(b, r)
  }

  function Primary(b: string, rows: seq<Record>): (p: seq<Record>)
    ensures forall r :: r in p <==> r in rows && IsPrimary(b, r)
    ensures HasOrder(b, rows) <==> p != []
  {
    var p := Filter(rows, (r: Record) => IsPrimary(b, r));
    assert p != [] ==> p[0] in rows;
    p
  }

  function Cancels(b: string, rows: seq<Record>): (p: seq<Record>)
    ensures forall r :: r in p <==> r in rows && IsSuccessfulCancel(b, r)
  {
    Filter(rows, (r: Record) => IsSuccessfulCancel(b, r))
  }

  predicate Rejection(primary: seq<Record>) {
    exists r :: r in primary && HasRejection(r)
  }

  function OpenRows(primary: seq<Record>): (open: seq<Record>)
    ensures forall r :: r in open <==> r in primary && r.cancelable.Some?
  {
    Filter(primary, (r: Record) => r.cancelable.Some?)
  }

  function CancelableOf(primary: seq<Record>): Option<int> {
    var open := OpenRows(primary);
    if open == [] then None else Some(Largest(open, (r: Record) => r.cancelable.GetOr(0)))
  }

  /** `cancellation_confirmed` */
  predicate Confirmed(cancels: seq<Record>, cancelable: Option<int>) {
    || (exists r :: r in cancels && r.confirmed > 0)
    || (cancels != [] && cancelable == Some(0))
  }

  function FactsOf(b: string, rows: seq<Record>): Facts
    requires HasOrder(b, rows)
  {
    var primary := Primary(b, rows);
    var cancelable := CancelableOf(primary);
    Facts(
      Largest(primary, (r: Record) => r.orderQuantity),
      Largest(primary, (r: Record) => r.totalFilled),
      Rejection(primary),
      Confirmed(Cancels(b, rows), cancelable),
      cancelable)
  }

  /** `_status_from_order_records` */
  function StatusFromRecords(b: string, rows: seq<Record>): Result<Snapshot, GatewayError> {
    if !HasOrder(b, rows) then Failure(OrderNotFound)
    else
      var f := FactsOf(b, rows);
      if f.quantity <= 0 then Failure(RequestFailed) else Success(SnapshotOf(f))
  }

  /** `_order_status_once` after the session is open: read everything, then fold. */
  function OrderStatus(b: string, pages: PageStream): Result<Snapshot, GatewayError> {
    match ReadHistory(pages)
    case Failure(e) => Failure(e)
    case Success(rows) => StatusFromRecords(b, rows)
  }

  // ---------------------------------------------------------------------------------------------
  // What the status means, said over the rows as a set
  // ---------------------------------------------------------------------------------------------

  /** The order has a row that reports exactly n shares filled, and no row that reports more. */
  ghost predicate LargestFill(b: string, rows: seq<Record>, n: int) {
    && (exists r :: r in rows && r.orderNumber == b && r.totalFilled == n)
    && (forall r :: r in rows && r.orderNumber == b ==> r.totalFilled <= n)
  }

  /** Some row of the order states a quantity above n. */
  ghost predicate OrderedMoreThan(b: string, rows: seq<Record>, n: int) {
    exists r :: r in rows && r.orderNumber == b && r.orderQuantity > n
  }

  /** The order's rows state n as their largest ordered quantity. */
  ghost predicate LargestOrder(b: string, rows: seq<Record>, n: int) {
    OrderedMoreThan(b, rows, n - 1) && !OrderedMoreThan(b, rows, n)
  }

  ghost predicate StatesCancelable(b: string, rows: seq<Record>) {
    exists r :: r in rows && r.orderNumber == b && r.cancelable.Some?
  }

  ghost predicate LargestCancelable(b: string, rows: seq<Record>, n: int) {
    && (exists r :: r in rows && r.orderNumber == b && r.cancelable == Some(n))
    && (forall r :: r in rows && r.orderNumber == b && r.cancelable.Some? ==> r.cancelable.value <= n)
  }

  ghost predicate SomeRejection(b: string, rows: seq<Record>) {
    exists r :: r in rows && r.orderNumber == b && r.rejection.GetOr("") != ""
  }

  /** A row about this order, for a cancel, without a text in its rejection field. */
  predicate CancelsWithoutRejection(b: string, r: Record) {
    r.originalOrderNumber == Some(b) && IsCancelRecord(r) && r.rejection.GetOr("") == ""
  }

  ghost predicate CancelConfirmed(b: string, rows: seq<Record>) {
    exists r :: r in rows && CancelsWithoutRejection(b, r) && (r.confirmed > 0 || LargestCancelable(b, rows, 0))
  }

  /** The status answered for each history, in the order in which the cases exclude each other. */
  lemma StatusMeaning(b: string, rows: seq<Record>, s: Snapshot)
    requires StatusFromRecords(b, rows) == Success(s)
    ensures LargestFill(b, rows, s.filled)
    ensures s.status == Filled <==> !OrderedMoreThan(b, rows, s.filled)
    ensures s.status == Rejected <==> s.status != Filled && s.filled == 0 && SomeRejection(b, rows)
    ensures s.status == Canceled <==> s.status !in {Filled, Rejected} && CancelConfirmed(b, rows)
    ensures s.status == PartiallyFilled <==> !IsTerminal(s.status) && s.filled > 0
    ensures s.status == Submitted <==> !IsTerminal(s.status) && s.filled <= 0
    ensures IsTerminal(s.status) ==> s.remaining == 0
  {
    FactsMeaning(b, rows);
    SnapshotMeaning(FactsOf(b, rows));
  }

  /** What is left of an open order: the largest cancelable quantity that its rows state, or, if they
      state none, the rest of the largest ordered quantity. */
  lemma RemainingMeaning(b: string, rows: seq<Record>, s: Snapshot)
    requires StatusFromRecords(b, rows) == Success(s) && !IsTerminal(s.status)
    ensures if StatesCancelable(b, rows) then LargestCancelable(b, rows, s.remaining) else LargestOrder(b, rows, s.filled + s.remaining)
  {
    FactsMeaning(b, rows);
    CancelableMeaning(b, rows);
    SnapshotMeaning(FactsOf(b, rows));
  }

  lemma SnapshotMeaning(f: Facts)
    ensures SnapshotOf(f).filled == f.filled
    ensures SnapshotOf(f).status == Filled <==> f.quantity <= f.filled
    ensures SnapshotOf(f).status == Rejected <==> f.quantity > f.filled && f.filled == 0 && f.rejected
    ensures SnapshotOf(f).status == Canceled <==> SnapshotOf(f).status !in {Filled, Rejected} && f.canceled
    ensures !IsTerminal(SnapshotOf(f).status) ==>
      SnapshotOf(f).remaining == (if f.cancelable.Some? then f.cancelable.value else f.quantity - f.filled)
  {
  }

  lemma FactsMeaning(b: string, rows: seq<Record>)
    requires HasOrder(b, rows)
    ensures LargestFill(b, rows, FactsOf(b, rows).filled)
    ensures forall n :: OrderedMoreThan(b, rows, n) <==> FactsOf(b, rows).quantity > n
    ensures FactsOf(b, rows).rejected <==> SomeRejection(b, rows)
    ensures FactsOf(b, rows).canceled <==> CancelConfirmed(b, rows)
  {
    CanceledMeaning(b, rows);
  }

  lemma LargestOfOpen(primary: seq<Record>)
    ensures CancelableOf(primary) == None <==> forall r :: r in primary ==> r.cancelable.None?
    ensures forall n :: CancelableOf(primary) == Some(n) <==>
      && (exists r :: r in primary && r.cancelable == Some(n))
      && (forall r :: r in primary && r.cancelable.Some? ==> r.cancelable.value <= n)
  {
    var open := OpenRows(primary);
    if open != [] {
      assert open[0] in open;
      LargestIsStated(primary, open);
    }
  }

  lemma LargestIsStated(primary: seq<Record>, open: seq<Record>)
    requires open != [] && forall r :: r in open <==> r in primary && r.cancelable.Some?
    ensures exists r :: r in primary && r.cancelable == Some(Largest(open, (r: Record) => r.cancelable.GetOr(0)))
    ensures forall r :: r in primary && r.cancelable.Some? ==> r.cancelable.value <= Largest(open, (r: Record) => r.cancelable.GetOr(0))
  {
    var m := Largest(open, (r: Record) => r.cancelable.GetOr(0));
    var r :| r in open && r.cancelable.GetOr(0) == m;
    assert r.cancelable == Some(m);
    assert forall r :: r in open ==> r.cancelable.GetOr(0) == r.cancelable.value;
  }

  lemma CancelableMeaning(b: string, rows: seq<Record>)
    ensures CancelableOf(Primary(b, rows)) != None <==> StatesCancelable(b, rows)
    ensures forall n :: CancelableOf(Primary(b, rows)) == Some(n) <==> LargestCancelable(b, rows, n)
  {
    LargestOfOpen(Primary(b, rows));
  }

  lemma SuccessfulCancels(b: string, rows: seq<Record>, r: Record)
    ensures r in Cancels(b, rows) <==> r in rows && CancelsWithoutRejection(b, r)
  {
  }

  lemma ConfirmedMeaning(b: string, rows: seq<Record>, cancelable: Option<int>)
    requires cancelable == Some(0) <==> LargestCancelable(b, rows, 0)
    ensures Confirmed(Cancels(b, rows), cancelable) <==> CancelConfirmed(b, rows)
  {
    var cancels := Cancels(b, rows);
    if Confirmed(cancels, cancelable) {
      var r := if exists r :: r in cancels && r.confirmed > 0 then (var r :| r in cancels && r.confirmed > 0; r) else cancels[0];
      SuccessfulCancels(b, rows, r);
    }
    if CancelConfirmed(b, rows) {
      var r :| r in rows && CancelsWithoutRejection(b, r) && (r.confirmed > 0 || LargestCancelable(b, rows, 0));
      SuccessfulCancels(b, rows, r);
    }
  }

  lemma CanceledMeaning(b: string, rows: seq<Record>)
    requires HasOrder(b, rows)
    ensures FactsOf(b, rows).canceled <==> CancelConfirmed(b, rows)
  {
    CancelableMeaning(b, rows);
    ConfirmedMeaning(b, rows, CancelableOf(Primary(b, rows)));
  }

  // ---------------------------------------------------------------------------------------------
  // Order, repetition, unrelated rows and page boundaries do not matter
  // ---------------------------------------------------------------------------------------------

  /** The two lists hold the same rows of this order and of requests about it. */
  ghost predicate SameRelated(b: string, rows: seq<Record>, other: seq<Record>) {
    forall r: Record :: r.orderNumber == b || r.originalOrderNumber == Some(b) ==> (r in rows <==> r in other)
  }

  lemma SameFacts(b: string, rows: seq<Record>, other: seq<Record>)
    requires SameRelated(b, rows, other) && HasOrder(b, rows) && HasOrder(b, other)
    ensures FactsOf(b, rows) == FactsOf(b, other)
  {
    var p, q := Primary(b, rows), Primary(b, other);
    SameCancelable(p, q);
    SameLargest(p, q, (r: Record) => r.orderQuantity);
    SameLargest(p, q, (r: Record) => r.totalFilled);
    SameRejection(p, q);
    SameConfirmed(Cancels(b, rows), Cancels(b, other), CancelableOf(p));
  }

  lemma SameLargest(p: seq<Record>, q: seq<Record>, f: Record -> int)
    requires p != [] && q != [] && forall r :: r in p <==> r in q
    ensures Largest(p, f) == Largest(q, f)
  {
    var m, n := Largest(p, f), Largest(q, f);
    var r :| r in p && f(r) == m;
    var t :| t in q && f(t) == n;
    assert r in q && t in p;
  }

  lemma SameRejection(p: seq<Record>, q: seq<Record>)
    requires forall r :: r in p <==> r in q
    ensures Rejection(p) == Rejection(q)
  {
  }

  lemma SameConfirmed(p: seq<Record>, q: seq<Record>, cancelable: Option<int>)
    requires forall r :: r in p <==> r in q
    ensures Confirmed(p, cancelable) == Confirmed(q, cancelable)
  {
    assert p != [] ==> p[0] in q;
    assert q != [] ==> q[0] in p;
  }

  lemma SameCancelable(p: seq<Record>, q: seq<Record>)
    requires forall r :: r in p <==> r in q
    ensures CancelableOf(p) == CancelableOf(q)
  {
    LargestOfOpen(p);
    LargestOfOpen(q);
  }

  /** Row order, repeated rows and rows about other orders change nothing. */
  lemma StatusSeesOnlyRelatedRows(b: string, rows: seq<Record>, other: seq<Record>)
    requires SameRelated(b, rows, other)
    ensures StatusFromRecords(b, rows) == StatusFromRecords(b, other)
  {
    if HasOrder(b, rows) {
      assert HasOrder(b, other);
      SameFacts(b, rows, other);
    }
  }

  /** Any two ways of spreading the same rows over at most 50 pages give the same answer. */
  lemma StatusIgnoresPages(b: string, split: seq<seq<Record>>, other: seq<seq<Record>>)
    requires 0 < |split| <= 50 && 0 < |other| <= 50
    requires SameRelated(b, Concat(split), Concat(other))
    ensures OrderStatus(b, StreamOf(split)) == OrderStatus(b, StreamOf(other))
  {
    ReadingOfSplit(split);
    ReadingOfSplit(other);
    StatusSeesOnlyRelatedRows(b, Concat(split), Concat(other));
  }

  /** Page n of the history is its last, and all pages to it are readable and successful. */
  ghost predicate ReadToEnd(pages: PageStream, n: nat) {
    && (forall k: nat :: k <= n ==> pages(k).status == 0 && pages(k).rows.Some?)
    && (forall k: nat :: k < n ==> pages(k).more)
    && !pages(n).more
  }

  /** Page n is the first that fails, and the pages before it lead to it. */
  ghost predicate FailsAt(pages: PageStream, n: nat) {
    && (forall k: nat :: k < n ==> pages(k).status == 0 && pages(k).rows.Some? && pages(k).more)
    && (pages(n).status != 0 || pages(n).rows.None?)
  }

  ghost predicate StatesOrder(b: string, rows: seq<Record>) {
    exists r :: r in rows && r.orderNumber == b
  }

  lemma ReadingToEnd(pages: PageStream, n: nat)
    requires n < 50 && ReadToEnd(pages, n)
    ensures ReadHistory(pages) == Success(RowsOf(pages, n + 1))
  {
    assert EndsAt(pages, n + 1);
    ReadingIsUnique(pages, ReadHistory(pages), Success(RowsOf(pages, n + 1)));
  }

  lemma ReadingThatFails(pages: PageStream, n: nat)
    requires n < 50 && FailsAt(pages, n)
    ensures ReadHistory(pages) == Failure(RequestFailed)
  {
    assert Continues(pages, n) && !Good(pages(n));
    ReadingIsUnique(pages, ReadHistory(pages), Failure(RequestFailed));
  }

  /** Every history ends or fails within 50 pages, or has all of them. */
  lemma ReadingCases(pages: PageStream) returns (n: nat)
    ensures ReadHistory(pages) == Failure(PageLimit) || (n < 50 && (ReadToEnd(pages, n) || FailsAt(pages, n)))
    ensures ReadHistory(pages) == Failure(PageLimit) <==>
      forall k: nat :: k < 50 ==> pages(k).status == 0 && pages(k).rows.Some? && pages(k).more
  {
    n := 0;
    match ReadHistory(pages)
    case Success(rows) =>
      var last: nat :| last <= MAX_PAGES && EndsAt(pages, last) && rows == RowsOf(pages, last);
      n := last - 1;
      assert ReadToEnd(pages, n);
    case Failure(e) =>
      if e != PageLimit {
        n :| n < MAX_PAGES && Continues(pages, n) && !Good(pages(n));
        assert FailsAt(pages, n);
      } else {
        assert Continues(pages, 50);
      }
  }

  /** Which pages give a status and which error, for every order and history: a status needs the
      whole history within 50 pages, a row of the order, and a quantity above 0. */
  lemma StatusNeedsWholeHistory(b: string, pages: PageStream)
    ensures OrderStatus(b, pages).Success? <==>
      exists n: nat :: n < 50 && ReadToEnd(pages, n) && OrderedMoreThan(b, RowsOf(pages, n + 1), 0)
    ensures OrderStatus(b, pages) == Failure(PageLimit) <==>
      forall k: nat :: k < 50 ==> pages(k).status == 0 && pages(k).rows.Some? && pages(k).more
    ensures OrderStatus(b, pages) == Failure(OrderNotFound) <==>
      exists n: nat :: n < 50 && ReadToEnd(pages, n) && !StatesOrder(b, RowsOf(pages, n + 1))
    ensures OrderStatus(b, pages).Failure? ==> OrderStatus(b, pages).error in {PageLimit, OrderNotFound, RequestFailed}
  {
    var n := ReadingCases(pages);
    forall m: nat | m < 50 && ReadToEnd(pages, m)
      ensures ReadHistory(pages) == Success(RowsOf(pages, m + 1))
    {
      ReadingToEnd(pages, m);
    }
    if n < 50 && FailsAt(pages, n) {
      ReadingThatFails(pages, n);
    }
    if n < 50 && ReadToEnd(pages, n) {
      AnswerFromRows(b, RowsOf(pages, n + 1));
    }
  }

  lemma AnswerFromRows(b: string, rows: seq<Record>)
    ensures StatusFromRecords(b, rows) == Failure(OrderNotFound) <==> !StatesOrder(b, rows)
    ensures StatusFromRecords(b, rows) == Failure(RequestFailed) <==> StatesOrder(b, rows) && !OrderedMoreThan(b, rows, 0)
    ensures StatusFromRecords(b, rows).Success? <==> OrderedMoreThan(b, rows, 0)
  {
    assert HasOrder(b, rows) <==> StatesOrder(b, rows);
    if HasOrder(b, rows) {
      FactsMeaning(b, rows);
    }
  }
}
