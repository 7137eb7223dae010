/** The rows and tables that the trading engine reads and writes (models.py). A `Store` is the
    contents of the tables as a value; `Database` holds the same rows as objects. */
module Tables {
  import opened Wrappers
  import opened OrderStatuses

  predicate IsHundredths(x: real) {
    (x * 100.0).Floor as real == x * 100.0
  }

  /** What a Numeric(18, 2) column keeps of a value: the nearest hundredth, halves away from 0. */
  function RoundHundredths(x: real): (r: real)
    ensures x >= 0.0 ==> r >= 0.0
  {
    if x >= 0.0 then (x * 100.0 + 0.5).Floor as real / 100.0
    else -((-x * 100.0 + 0.5).Floor as real / 100.0)
  }

  /** A limit price as requests and decisions carry it, with any number of decimals. */
  type Price = x: real | 0.0 <= x

  type Quantity = q: int | q > 0 witness 1

  type Confidence = c: real | 0.0 <= c <= 1.0

  datatype Side = Buy | Sell
  datatype OrderType = Market | Limit

  /** What is ordered. Storing it rounds the limit price, and nothing else of it ever changes. */
  datatype OrderTerms = OrderTerms(
    user: nat, symbol: string, side: Side, quantity: Quantity, orderType: OrderType, limitPrice: Option<Price>)

  /** The terms as the orders table keeps them. */
  function Stored(terms: OrderTerms): OrderTerms {
    match terms.limitPrice
    case None => terms
    case Some(price) => terms.(limitPrice := Some(RoundHundredths(price)))
  }

  datatype OrderRow = OrderRow(
    terms: OrderTerms, status: Status, brokerOrderId: Option<string>, attempts: nat, stamps: set<Stamp>)

  /** A new order's row. */
  function FreshRow(terms: OrderTerms): OrderRow {
    OrderRow(terms, PendingApproval, None, 0, {})
  }

  datatype OrderEvent = OrderEvent(orderId: nat, was: Option<Status>, now: Status, kind: EventKind)

  /** What a call into the broker may do: raise, or answer with any status word and optional id. */
  datatype BrokerAnswer = Raised | Answered(brokerOrderId: Option<string>, status: string)

  /** One call of `place_order`. */
  datatype PlaceCall = PlaceCall(orderId: nat, terms: OrderTerms, answer: BrokerAnswer)

  datatype PositionRow = PositionRow(quantity: int, avgPrice: real, marketPrice: real)

  /** The unique key of the positions table. */
  datatype PositionKey = PositionKey(user: nat, symbol: string)

  datatype SafetyRow = SafetyRow(
    maxOrder: nat, maxPosition: nat, minConfidence: Confidence, manualApproval: bool, liveOptIn: bool)

  datatype Store = Store(
    orders: map<nat, OrderRow>,
    events: seq<OrderEvent>,
    positions: map<PositionKey, PositionRow>,
    safety: map<nat, SafetyRow>,
    calls: seq<PlaceCall>)

  class Order {
    const id: nat
    /** Between a flush and the commit the limit price is still the unrounded one. */
    var terms: OrderTerms
    var status: Status
    var brokerOrderId: Option<string>
    var attempts: nat
    var stamps: set<Stamp>

    constructor (id: nat, terms: OrderTerms)
      ensures this.id == id && Row() == FreshRow(terms)
    {
      this.id, this.terms := id, terms;
      status, brokerOrderId, attempts, stamps := PendingApproval, None, 0, {};
    }

    function Row(): OrderRow
      reads this
    {
      OrderRow(terms, status, brokerOrderId, attempts, stamps)
    }
  }

  class Position {
    const key: PositionKey
    var quantity: int
    var avgPrice: real
    var marketPrice: real

    constructor (key: PositionKey, quantity: int, avgPrice: real, marketPrice: real)
      ensures this.key == key && Row() == PositionRow(quantity, avgPrice, marketPrice)
    {
      this.key := key;
      this.quantity, this.avgPrice, this.marketPrice := quantity, avgPrice, marketPrice;
    }

    function Row(): PositionRow
      reads this
    {
      PositionRow(quantity, avgPrice, marketPrice)
    }
  }

  ghost function OrderRowsOf(orders: map<nat, Order>): map<nat, OrderRow>
    reads orders.Values
  {
    map id | id in orders :: orders[id].Row()
  }

  class Database {
    var orders: map<nat, Order>
    var events: seq<OrderEvent>
    var positions: map<PositionKey, Position>
    var safety: map<nat, SafetyRow>
    /** Not a table: every call of `place_order` that the engine has made. */
    ghost var calls: seq<PlaceCall>

    constructor ()
      ensures Valid() && View() == Store(map[], [], map[], map[], [])
      ensures fresh(Rows())
    {
      orders, events, positions, safety, calls := map[], [], map[], map[], [];
    }

    /** Each row sits under its own key, so no row object sits under two. */
    ghost predicate Valid()
      reads this
    {
      && (forall id :: id in orders ==> orders[id].id == id)
      && (forall key :: key in positions ==> positions[key].key == key)
    }

    ghost function Rows(): set<object>
      reads this
    {
      orders.Values + positions.Values
    }

    /** The row objects of a table stay in it, and the others in it are newly allocated. */
    twostate predicate AddsFreshOrders()
      reads this
    {
      && (forall id :: id in old(orders) ==> id in orders && orders[id] == old(orders)[id])
      && (forall id :: id in orders ==> id in old(orders) || fresh(orders[id]))
    }

    twostate predicate AddsFreshPositions()
      reads this
    {
      && (forall key :: key in old(positions) ==> key in positions && positions[key] == old(positions)[key])
      && (forall key :: key in positions ==> key in old(positions) || fresh(positions[key]))
    }

    ghost function OrderRows(): map<nat, OrderRow>
      reads this`orders, orders.Values
    {
      OrderRowsOf(orders)
    }

    ghost function PositionRows(): map<PositionKey, PositionRow>
      reads this`positions, positions.Values
    {
      map key | key in positions :: positions[key].Row()
    }

    /** The contents of all tables. */
    ghost function View(): Store
      reads this, orders.Values, positions.Values
    {
      Store(OrderRows(), events, PositionRows(), safety, calls)
    }

    /** What a rollback does to rows added since: they are no longer in the tables. */
    method Rollback(orders: map<nat, Order>, events: seq<OrderEvent>, safety: map<nat, SafetyRow>)
      modifies this`orders, this`events, this`safety
      ensures View() == old(View()).(orders := OrderRowsOf(orders), events := events, safety := safety)
      ensures this.orders == orders
    {
      this.orders, this.events, this.safety := orders, events, safety;
    }

    /** The rows of the objects that were in the table before one was added. */
    lemma RowsBefore(orders: map<nat, Order>, rows: map<nat, OrderRow>, id: nat, row: OrderRow)
      requires forall k :: k in orders ==> k in this.orders && this.orders[k] == orders[k]
      requires rows.Keys == orders.Keys && id !in orders && OrderRows() == rows[id := row]
      ensures OrderRowsOf(orders) == rows
    {
      assert forall k :: k in orders ==> OrderRows()[k] == rows[k];
    }

    ghost predicate Holds(order: Order)
      reads this
    {
      order.id in orders && orders[order.id] == order
    }
  }
}
