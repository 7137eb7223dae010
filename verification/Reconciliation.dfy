/** Comparing the application's positions with the broker's account snapshot
    (account_reconciliation.py): a sorted full outer join on the symbol. */
module Reconciliation {
  import opened Wrappers
  import opened Tables
  import opened TradingSafety

  /** A position on one side. The application always has a market price, a broker may have none. */
  datatype Holding<P> = Holding(symbol: string, quantity: int, price: P)

  type AppHolding = Holding<real>
  type BrokerHolding = Holding<Option<real>>

  datatype RowStatus = Matched | QuantityMismatch | MissingInBroker | MissingInApp | BrokerUnavailable

  datatype Row = Row(
    symbol: string, appQuantity: int, brokerQuantity: Option<int>,
    appValue: real, brokerValue: Option<real>, status: RowStatus)

  datatype BrokerStatus = PaperLedger | Synced | Unavailable

  datatype Response = Response(brokerStatus: BrokerStatus, rows: seq<Row>)

  // ---------------------------------------------------------------------------------------------
  // Sorted symbols
  // ---------------------------------------------------------------------------------------------

  /** Python's order of texts: by code points, a proper prefix first. */
  predicate Below(a: string, b: string) {
    if b == "" then false
    else if a == "" then true
    else a[0] < b[0] || (a[0] == b[0] && Below(a[1..], b[1..]))
  }

  /** The texts differ first where a ends or has the smaller character. */
  ghost predicate BelowAt(a: string, b: string, n: nat) {
    n <= |a| && n < |b| && a[..n] == b[..n] && (n == |a| || a[n] < b[n])
  }

  lemma {:induction false} BelowExactly(a: string, b: string)
    ensures Below(a, b) <==> exists n: nat :: BelowAt(a, b, n)
  {
    if b != "" && a != "" && a[0] == b[0] {
      BelowExactly(a[1..], b[1..]);
      if n: nat :| BelowAt(a[1..], b[1..], n) {
        assert a[..n + 1] == [a[0]] + a[1..][..n] && b[..n + 1] == [b[0]] + b[1..][..n];
        assert BelowAt(a, b, n + 1);
      }
      if n: nat :| BelowAt(a, b, n) {
        assert a[..n][1..] == a[1..][..n - 1] && b[..n][1..] == b[1..][..n - 1];
        assert BelowAt(a[1..], b[1..], n - 1);
      }
    } else if Below(a, b) {
      assert BelowAt(a, b, 0);
    } else {
      assert forall n: nat :: BelowAt(a, b, n) && n > 0 ==> a[..n][0] == b[..n][0];
    }
  }

  lemma {:induction false} BelowIsIrreflexive(a: string)
    ensures !Below(a, a)
  {
    if a != "" {
      BelowIsIrreflexive(a[1..]);
    }
  }

  lemma {:induction false} BelowIsTotal(a: string, b: string)
    ensures Below(a, b) || Below(b, a) || a == b
    ensures Below(a, b) ==> a != b
  {
    BelowIsIrreflexive(a);
    if a != "" && b != "" && a[0] == b[0] {
      BelowIsTotal(a[1..], b[1..]);
      assert a == [a[0]] + a[1..] && b == [b[0]] + b[1..];
    }
  }

  lemma {:induction false} BelowIsTransitive(a: string, b: string, c: string)
    requires Below(a, b) && Below(b, c)
    ensures Below(a, c)
  {
    if a != "" && a[0] == b[0] == c[0] {
      BelowIsTransitive(a[1..], b[1..], c[1..]);
    }
  }

  predicate StrictlySorted(s: seq<string>) {
    forall i, j :: 0 <= i < j < |s| ==> Below(s[i], s[j])
  }

  /** A symbol put into its place, unless it is there. */
  function Insert(x: string, s: seq<string>): (r: seq<string>)
    ensures forall y :: y in r <==> y == x || y in s
  {
    if s == [] then [x]
    else
      assert forall y :: y in s <==> y == s[0] || y in s[1..];
      if x == s[0] then s
      else if Below(x, s[0]) then [x] + s
      else [s[0]] + Insert(x, s[1..])
  }

  lemma {:induction false} InsertKeepsSorted(x: string, s: seq<string>)
    requires StrictlySorted(s)
    ensures StrictlySorted(Insert(x, s))
  {
    if s != [] && x != s[0] {
      if Below(x, s[0]) {
        forall j | 0 < j < |s|
          ensures Below(x, s[j])
        {
          BelowIsTransitive(x, s[0], s[j]);
        }
      } else {
        var rest := Insert(x, s[1..]);
        BelowIsTotal(x, s[0]);
        InsertKeepsSorted(x, s[1..]);
        forall j | 0 <= j < |rest|
          ensures Below(s[0], rest[j])
        {
          assert rest[j] in rest;
          if rest[j] != x {
            var k :| 0 < k < |s| && s[k] == rest[j];
          }
        }
      }
    }
  }

  /** `sorted(set(symbols))` */
  function SortedSet(symbols: seq<string>): (r: seq<string>)
    ensures StrictlySorted(r)
    ensures forall x :: x in r <==> x in symbols
  {
    if symbols == [] then []
    else
      var front, last := symbols[..|symbols| - 1], symbols[|symbols| - 1];
      assert symbols == front + [last];
      InsertKeepsSorted(last, SortedSet(front));
      Insert(last, SortedSet(front))
  }

  // ---------------------------------------------------------------------------------------------
  // The join
  // ---------------------------------------------------------------------------------------------

  /** `{p.symbol: p for p in holdings if p.quantity != 0}`: of two with one symbol the later stays. */
  function BySymbol<P>(holdings: seq<Holding<P>>): map<string, Holding<P>> {
    if holdings == [] then map[]
    else
      var earlier, last := BySymbol(holdings[..|holdings| - 1]), holdings[|holdings| - 1];
      if last.quantity != 0 then earlier[last.symbol := last] else earlier
  }

  function Lookup<P>(m: map<string, Holding<P>>, symbol: string): Option<Holding<P>> {
    if symbol in m then Some(m[symbol]) else None
  }

  function MarketValue(quantity: int, price: real): real {
    quantity as real * price
  }

  /** `_row_for` */
  function RowFor(symbol: string, app: Option<AppHolding>, broker: Option<BrokerHolding>): Row {
    Row(
      symbol,
      if app.Some? then app.value.quantity else 0,
      if broker.Some? then Some(broker.value.quantity) else None,
      if app.Some? then MarketValue(app.value.quantity, app.value.price) else 0.0,
      if broker.Some? && broker.value.price.Some?
      then Some(MarketValue(broker.value.quantity, broker.value.price.value)) else None,
      if app.Some? && broker.Some? then
        if app.value.quantity == broker.value.quantity then Matched else QuantityMismatch
      else if app.Some? then MissingInBroker else MissingInApp)
  }

  function SymbolsOf<P(!new)>(holdings: seq<Holding<P>>): seq<string> {
    Map(Filter(holdings, (h: Holding<P>) => h.quantity != 0), (h: Holding<P>) => h.symbol)
  }

  /** The rows of `_build_response`. */
  function Rows(app: seq<AppHolding>, broker: seq<BrokerHolding>): seq<Row> {
    var appBySymbol, brokerBySymbol := BySymbol(app), BySymbol(broker);
    Map(SortedSet(SymbolsOf(app) + SymbolsOf(broker)),
      (symbol: string) => RowFor(symbol, Lookup(appBySymbol, symbol), Lookup(brokerBySymbol, symbol)))
  }

  function UnavailableRow(h: AppHolding): Row {
    Row(h.symbol, h.quantity, None, MarketValue(h.quantity, h.price), None, BrokerUnavailable)
  }

  /** `run`; the snapshot is None when the broker raises. */
  function Reconcile(mode: BrokerMode, app: seq<AppHolding>, snapshot: Option<seq<BrokerHolding>>): Response {
    if mode == Paper then
      Response(PaperLedger, Rows(app, Map(app, (h: AppHolding) => Holding(h.symbol, h.quantity, Some(h.price)))))
    else match snapshot
      case None => Response(Unavailable, Map(app, UnavailableRow))
      case Some(broker) => Response(Synced, Rows(app, broker))
  }

  // ---------------------------------------------------------------------------------------------
  // What the rows say
  // ---------------------------------------------------------------------------------------------

  /** The side holds q shares of the symbol, and q is not 0. */
  ghost predicate Held<P(!new)>(holdings: seq<Holding<P>>, symbol: string, q: int) {
    q != 0 && exists h :: h in holdings && h.symbol == symbol && h.quantity == q
  }

  ghost predicate UniqueSymbols<P>(holdings: seq<Holding<P>>) {
    forall i, j :: 0 <= i < j < |holdings| && holdings[i].quantity != 0 && holdings[j].quantity != 0 ==>
      holdings[i].symbol != holdings[j].symbol
  }

  lemma {:induction false} BySymbolHolds<P(!new)>(holdings: seq<Holding<P>>, symbol: string)
    ensures symbol in BySymbol(holdings) ==>
      BySymbol(holdings)[symbol] in holdings && BySymbol(holdings)[symbol].symbol == symbol && BySymbol(holdings)[symbol].quantity != 0
    ensures symbol in BySymbol(holdings) <==> exists q :: Held(holdings, symbol, q)
  {
    if holdings != [] {
      var front, last := holdings[..|holdings| - 1], holdings[|holdings| - 1];
      BySymbolHolds(front, symbol);
      assert forall h :: h in holdings <==> h in front || h == last;
      if q :| Held(front, symbol, q) {
        assert Held(holdings, symbol, q);
      }
      if q :| Held(holdings, symbol, q) {
        assert Held(front, symbol, q) || (last.symbol == symbol && last.quantity == q);
      }
      if last.symbol == symbol && last.quantity != 0 {
        assert Held(holdings, symbol, last.quantity);
      }
    }
  }

  /** Of several positions in one symbol the last one that is not 0 stays. */
  lemma {:induction false} LastOneStays<P(!new)>(holdings: seq<Holding<P>>, i: nat)
    requires i < |holdings| && holdings[i].quantity != 0
    requires forall j :: i < j < |holdings| && holdings[j].symbol == holdings[i].symbol ==> holdings[j].quantity == 0
    ensures holdings[i].symbol in BySymbol(holdings) && BySymbol(holdings)[holdings[i].symbol] == holdings[i]
  {
    if i < |holdings| - 1 {
      LastOneStays(holdings[..|holdings| - 1], i);
    }
  }

  lemma {:induction false} BySymbolOfUnique<P(!new)>(holdings: seq<Holding<P>>, h: Holding<P>)
    requires UniqueSymbols(holdings) && h in holdings && h.quantity != 0
    ensures h.symbol in BySymbol(holdings) && BySymbol(holdings)[h.symbol] == h
  {
    var front, last := holdings[..|holdings| - 1], holdings[|holdings| - 1];
    if h in front {
      BySymbolOfUnique(front, h);
    }
  }

  /** With unique symbols the dictionary holds exactly the quantities of the list. */
  lemma QuantityHeld<P(!new)>(holdings: seq<Holding<P>>, symbol: string, q: int)
    requires UniqueSymbols(holdings)
    ensures Held(holdings, symbol, q) <==> symbol in BySymbol(holdings) && BySymbol(holdings)[symbol].quantity == q
  {
    BySymbolHolds(holdings, symbol);
    if Held(holdings, symbol, q) {
      var h :| h in holdings && h.symbol == symbol && h.quantity == q;
      BySymbolOfUnique(holdings, h);
    }
  }

  lemma SymbolsAreHeld<P(!new)>(holdings: seq<Holding<P>>, symbol: string)
    ensures symbol in SymbolsOf(holdings) <==> symbol in BySymbol(holdings)
  {
    BySymbolHolds(holdings, symbol);
    var held := Filter(holdings, (h: Holding<P>) => h.quantity != 0);
    if symbol in SymbolsOf(holdings) {
      var i :| 0 <= i < |held| && SymbolsOf(holdings)[i] == symbol;
      assert held[i] in held;
      assert Held(holdings, symbol, held[i].quantity);
    }
    if symbol in BySymbol(holdings) {
      var h := BySymbol(holdings)[symbol];
      var i :| 0 <= i < |held| && held[i] == h;
      assert SymbolsOf(holdings)[i] == symbol;
    }
  }

  ghost predicate HeldOnEitherSide(app: seq<AppHolding>, broker: seq<BrokerHolding>, symbol: string) {
    (exists q :: Held(app, symbol, q)) || (exists q :: Held(broker, symbol, q))
  }

  /** The rows are strictly sorted, and there is exactly one for each symbol held on either side. */
  lemma RowsAreSortedOuterJoin(app: seq<AppHolding>, broker: seq<BrokerHolding>)
    ensures forall i, j :: 0 <= i < j < |Rows(app, broker)| ==> Below(Rows(app, broker)[i].symbol, Rows(app, broker)[j].symbol)
    ensures forall symbol :: HeldOnEitherSide(app, broker, symbol) <==> exists row :: row in Rows(app, broker) && row.symbol == symbol
  {
    var symbols := SortedSet(SymbolsOf(app) + SymbolsOf(broker));
    var rows := Rows(app, broker);
    forall symbol
      ensures HeldOnEitherSide(app, broker, symbol) <==> exists row :: row in rows && row.symbol == symbol
    {
      SymbolsAreHeld(app, symbol);
      SymbolsAreHeld(broker, symbol);
      BySymbolHolds(app, symbol);
      BySymbolHolds(broker, symbol);
      assert HeldOnEitherSide(app, broker, symbol) <==> symbol in symbols;
      if symbol in symbols {
        var i :| 0 <= i < |symbols| && symbols[i] == symbol;
        assert rows[i] in rows && rows[i].symbol == symbol;
      }
    }
  }

  /** What one row says about its symbol. */
  ghost predicate RowIsRight(app: seq<AppHolding>, broker: seq<BrokerHolding>, row: Row) {
    && (forall q :: Held(app, row.symbol, q) <==> q == row.appQuantity != 0)
    && (forall q :: Held(broker, row.symbol, q) <==> row.brokerQuantity == Some(q))
    && (row.status == Matched <==> row.brokerQuantity == Some(row.appQuantity))
    && (row.status == QuantityMismatch <==> row.appQuantity != 0 && row.brokerQuantity.Some? && row.brokerQuantity.value != row.appQuantity)
    && (row.status == MissingInBroker <==> row.brokerQuantity == None)
    && (row.status == MissingInApp <==> row.appQuantity == 0)
  }

  /** The values are those of the two sides' own positions; a broker's without a price has none. */
  ghost predicate ValuesAreRight(app: seq<AppHolding>, broker: seq<BrokerHolding>, row: Row) {
    && (forall h :: h in app && h.symbol == row.symbol && h.quantity != 0 ==> row.appValue == h.quantity as real * h.price)
    && (row.appQuantity == 0 ==> row.appValue == 0.0)
    && (forall h :: h in broker && h.symbol == row.symbol && h.quantity != 0 ==>
         row.brokerValue == if h.price.Some? then Some(h.quantity as real * h.price.value) else None)
    && (row.brokerQuantity == None ==> row.brokerValue == None)
  }

  lemma RowsAreRight(app: seq<AppHolding>, broker: seq<BrokerHolding>, row: Row)
    requires UniqueSymbols(app) && UniqueSymbols(broker) && row in Rows(app, broker)
    ensures RowIsRight(app, broker, row) && ValuesAreRight(app, broker, row)
  {
    var symbol := row.symbol;
    assert symbol in SortedSet(SymbolsOf(app) + SymbolsOf(broker));
    SymbolsAreHeld(app, symbol);
    SymbolsAreHeld(broker, symbol);
    BySymbolHolds(app, symbol);
    BySymbolHolds(broker, symbol);
    forall q
      ensures Held(app, symbol, q) <==> symbol in BySymbol(app) && BySymbol(app)[symbol].quantity == q
      ensures Held(broker, symbol, q) <==> symbol in BySymbol(broker) && BySymbol(broker)[symbol].quantity == q
    {
      QuantityHeld(app, symbol, q);
      QuantityHeld(broker, symbol, q);
    }
    forall h | h in app && h.symbol == symbol && h.quantity != 0
      ensures row.appValue == MarketValue(h.quantity, h.price)
    {
      BySymbolOfUnique(app, h);
    }
    forall h | h in broker && h.symbol == symbol && h.quantity != 0
      ensures row.brokerValue == if h.price.Some? then Some(MarketValue(h.quantity, h.price.value)) else None
    {
      BySymbolOfUnique(broker, h);
    }
  }

  /** Both sides hold the same quantities of the same symbols. */
  ghost predicate SameHoldings(app: seq<AppHolding>, broker: seq<BrokerHolding>) {
    forall symbol, q :: Held(app, symbol, q) <==> Held(broker, symbol, q)
  }

  ghost predicate AllMatched(rows: seq<Row>) {
    forall row :: row in rows ==> row.status == Matched
  }

  lemma AllMatchedExactly(app: seq<AppHolding>, broker: seq<BrokerHolding>)
    requires UniqueSymbols(app) && UniqueSymbols(broker)
    ensures AllMatched(Rows(app, broker)) <==> SameHoldings(app, broker)
  {
    RowsAreSortedOuterJoin(app, broker);
    if AllMatched(Rows(app, broker)) {
      forall symbol, q
        ensures Held(app, symbol, q) <==> Held(broker, symbol, q)
      {
        if Held(app, symbol, q) || Held(broker, symbol, q) {
          assert HeldOnEitherSide(app, broker, symbol);
          var row :| row in Rows(app, broker) && row.symbol == symbol;
          RowsAreRight(app, broker, row);
        }
      }
    }
    if SameHoldings(app, broker) {
      forall row | row in Rows(app, broker)
        ensures row.status == Matched
      {
        RowsAreRight(app, broker, row);
        assert HeldOnEitherSide(app, broker, row.symbol);
        assert Held(app, row.symbol, row.appQuantity) <==> Held(broker, row.symbol, row.appQuantity);
      }
    }
  }

  // ---------------------------------------------------------------------------------------------
  // Values
  // ---------------------------------------------------------------------------------------------

  function TotalAppValue(rows: seq<Row>): real {
    if rows == [] then 0.0 else TotalAppValue(rows[..|rows| - 1]) + rows[|rows| - 1].appValue
  }

  function TotalValue(holdings: seq<AppHolding>): real {
    if holdings == [] then 0.0
    else
      var last := holdings[|holdings| - 1];
      TotalValue(holdings[..|holdings| - 1]) + last.quantity as real * last.price
  }

  function ValueAt(m: map<string, AppHolding>, symbol: string): real {
    if symbol in m then MarketValue(m[symbol].quantity, m[symbol].price) else 0.0
  }

  function ValueOver(symbols: seq<string>, m: map<string, AppHolding>): real {
    if symbols == [] then 0.0
    else ValueOver(symbols[..|symbols| - 1], m) + ValueAt(m, symbols[|symbols| - 1])
  }

  ghost predicate Distinct(symbols: seq<string>) {
    forall i, j :: 0 <= i < j < |symbols| ==> symbols[i] != symbols[j]
  }

  lemma {:induction false} ValueOfOneMore(symbols: seq<string>, m: map<string, AppHolding>, h: AppHolding)
    requires Distinct(symbols) && h.symbol !in m
    ensures ValueOver(symbols, m[h.symbol := h])
         == ValueOver(symbols, m) + if h.symbol in symbols then MarketValue(h.quantity, h.price) else 0.0
  {
    if symbols != [] {
      ValueOfOneMore(symbols[..|symbols| - 1], m, h);
    }
  }

  lemma {:induction false} ValueOfNone(symbols: seq<string>)
    ensures ValueOver(symbols, map[]) == 0.0
  {
    if symbols != [] {
      ValueOfNone(symbols[..|symbols| - 1]);
    }
  }

  lemma {:induction false} ValueOverAll(holdings: seq<AppHolding>, symbols: seq<string>)
    requires UniqueSymbols(holdings) && Distinct(symbols)
    requires forall h :: h in holdings && h.quantity != 0 ==> h.symbol in symbols
    ensures ValueOver(symbols, BySymbol(holdings)) == TotalValue(holdings)
  {
    if holdings == [] {
      ValueOfNone(symbols);
    } else {
      var front, last := holdings[..|holdings| - 1], holdings[|holdings| - 1];
      ValueOverAll(front, symbols);
      if last.quantity != 0 {
        NotYetHeld(holdings);
        ValueOfOneMore(symbols, BySymbol(front), last);
      }
    }
  }

  lemma NotYetHeld(holdings: seq<AppHolding>)
    requires UniqueSymbols(holdings) && holdings != [] && holdings[|holdings| - 1].quantity != 0
    ensures holdings[|holdings| - 1].symbol !in BySymbol(holdings[..|holdings| - 1])
  {
    BySymbolHolds(holdings[..|holdings| - 1], holdings[|holdings| - 1].symbol);
  }

  lemma {:induction false} TotalOfRows(symbols: seq<string>, app: map<string, AppHolding>, broker: map<string, BrokerHolding>, rows: seq<Row>)
    requires rows == Map(symbols, (symbol: string) => RowFor(symbol, Lookup(app, symbol), Lookup(broker, symbol)))
    ensures TotalAppValue(rows) == ValueOver(symbols, app)
  {
    if symbols != [] {
      TotalOfRows(symbols[..|symbols| - 1], app, broker, rows[..|rows| - 1]);
    }
  }

  /** No value is lost or counted twice: the rows' values add up to quantity times price over the
      application's positions. */
  lemma RowsKeepTotalValue(app: seq<AppHolding>, broker: seq<BrokerHolding>)
    requires UniqueSymbols(app)
    ensures TotalAppValue(Rows(app, broker)) == TotalValue(app)
  {
    var symbols := SortedSet(SymbolsOf(app) + SymbolsOf(broker));
    TotalOfRows(symbols, BySymbol(app), BySymbol(broker), Rows(app, broker));
    forall i, j | 0 <= i < j < |symbols|
      ensures symbols[i] != symbols[j]
    {
      BelowIsTotal(symbols[i], symbols[j]);
    }
    forall h | h in app && h.quantity != 0
      ensures h.symbol in symbols
    {
      BySymbolOfUnique(app, h);
      SymbolsAreHeld(app, h.symbol);
    }
    ValueOverAll(app, symbols);
  }

  // ---------------------------------------------------------------------------------------------
  // The whole comparison
  // ---------------------------------------------------------------------------------------------

  /** Paper mode compares the positions with themselves. */
  lemma {:induction false} SelfBySymbol(app: seq<AppHolding>, broker: seq<BrokerHolding>)
    requires broker == Map(app, (h: AppHolding) => Holding(h.symbol, h.quantity, Some(h.price)))
    ensures BySymbol(broker).Keys == BySymbol(app).Keys
    ensures forall symbol :: symbol in BySymbol(app) ==> BySymbol(broker)[symbol].quantity == BySymbol(app)[symbol].quantity
  {
    if app != [] {
      SelfBySymbol(app[..|app| - 1], broker[..|app| - 1]);
    }
  }

  /** The two sides that are compared, and the status that says where the broker's side is from. */
  lemma ResponseExactly(mode: BrokerMode, app: seq<AppHolding>, snapshot: Option<seq<BrokerHolding>>)
    ensures var r := Reconcile(mode, app, snapshot);
      && (r.brokerStatus == PaperLedger <==> mode == Paper)
      && (r.brokerStatus == Synced <==> mode != Paper && snapshot.Some?)
      && (r.brokerStatus == Unavailable <==> mode != Paper && snapshot.None?)
      && (r.brokerStatus == Synced ==> r.rows == Rows(app, snapshot.value))
      && (r.brokerStatus == PaperLedger ==> exists own :: OwnSide(app, own) && r.rows == Rows(app, own))
  {
    assert OwnSide(app, Map(app, (h: AppHolding) => Holding(h.symbol, h.quantity, Some(h.price))));
  }

  /** The application's positions as the broker's. */
  ghost predicate OwnSide(app: seq<AppHolding>, own: seq<BrokerHolding>) {
    |own| == |app| && forall i :: 0 <= i < |app| ==> own[i] == Holding(app[i].symbol, app[i].quantity, Some(app[i].price))
  }

  lemma PaperModeAlwaysMatches(app: seq<AppHolding>, snapshot: Option<seq<BrokerHolding>>)
    ensures AllMatched(Reconcile(Paper, app, snapshot).rows)
  {
    var broker := Map(app, (h: AppHolding) => Holding(h.symbol, h.quantity, Some(h.price)));
    SelfBySymbol(app, broker);
    forall row | row in Rows(app, broker)
      ensures row.status == Matched
    {
      assert row.symbol in SortedSet(SymbolsOf(app) + SymbolsOf(broker));
      SymbolsAreHeld(app, row.symbol);
      SymbolsAreHeld(broker, row.symbol);
    }
  }

  /** Without a snapshot there is one row for each application position, in its order, and still no
      value is lost. */
  lemma {:induction false} UnavailableKeepsRows(mode: BrokerMode, app: seq<AppHolding>)
    requires mode != Paper
    ensures var rows := Reconcile(mode, app, None).rows;
      && |rows| == |app| && TotalAppValue(rows) == TotalValue(app)
      && forall i :: 0 <= i < |app| ==>
           rows[i] == Row(app[i].symbol, app[i].quantity, None, app[i].quantity as real * app[i].price, None, BrokerUnavailable)
  {
    if app != [] {
      UnavailableKeepsRows(mode, app[..|app| - 1]);
      assert Map(app, UnavailableRow)[..|app| - 1] == Map(app[..|app| - 1], UnavailableRow);
    }
  }

  /** `_app_positions`: the user's rows with a quantity, in the order that the database gives. */
  ghost predicate Lists(positions: map<PositionKey, PositionRow>, user: nat, app: seq<AppHolding>) {
    && UniqueSymbols(app)
    && (forall h :: h in app <==>
         && PositionKey(user, h.symbol) in positions
         && positions[PositionKey(user, h.symbol)].quantity == h.quantity != 0
         && positions[PositionKey(user, h.symbol)].marketPrice == h.price)
  }

  /** In the live modes everything matches exactly when the broker reports the table's quantities. */
  lemma LiveModesMatchExactly(mode: BrokerMode, positions: map<PositionKey, PositionRow>, user: nat,
                              app: seq<AppHolding>, broker: seq<BrokerHolding>)
    requires mode != Paper && Lists(positions, user, app) && UniqueSymbols(broker)
    ensures AllMatched(Reconcile(mode, app, Some(broker)).rows) <==>
      forall symbol, q :: Held(broker, symbol, q) <==>
        PositionKey(user, symbol) in positions && positions[PositionKey(user, symbol)].quantity == q != 0
  {
    AllMatchedExactly(app, broker);
    forall symbol, q
      ensures Held(app, symbol, q) <==>
        PositionKey(user, symbol) in positions && positions[PositionKey(user, symbol)].quantity == q != 0
    {
      if PositionKey(user, symbol) in positions && positions[PositionKey(user, symbol)].quantity == q != 0 {
        assert Holding(symbol, q, positions[PositionKey(user, symbol)].marketPrice) in app;
      }
    }
  }
}
