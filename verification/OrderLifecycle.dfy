/** The methods of order_lifecycle.py on row objects: each changes one order and appends one event. */
module OrderLifecycle {
  import opened Wrappers
  import opened OrderStatuses
  import opened Tables
  import opened OrderMachine
  import opened EngineSpec

  /** `_stamp_status_time`: a stamp once set stays. */
  method StampStatusTime(order: Order, status: Status)
    modifies order`stamps
    ensures order.stamps == old(order.stamps) + StampFor(status)
  {
    if status == Approved {
      order.stamps := order.stamps + {ApprovedAt};
    } else if status in {Submitting, Submitted} {
      order.stamps := order.stamps + {SubmittedAt};
    } else if status == Filled {
      order.stamps := order.stamps + {FilledAt};
    } else if status == Rejected {
      order.stamps := order.stamps + {RejectedAt};
    } else if status == SubmissionFailed {
      order.stamps := order.stamps + {FailedAt};
    } else if status == Canceled {
      order.stamps := order.stamps + {CanceledAt};
    }
  }

  /** The assignments of `transition_order` to the row. */
  method MoveRow(order: Order, target: Status, brokerOrderId: Option<string>)
    modifies order
    ensures order.Row() == Moved(old(order.Row()), target, brokerOrderId)
  {
    order.status := target;
    if brokerOrderId.Some? {
      order.brokerOrderId := brokerOrderId;
    }
    StampStatusTime(order, target);
  }

  /** `ok == false` is the ValueError, raised before anything is changed. */
  method TransitionOrder(db: Database, order: Order, target: Status, kind: EventKind, brokerOrderId: Option<string>)
    returns (ok: bool)
    requires db.Valid() && db.Holds(order)
    modifies order, db`events
    ensures db.Valid() && db.Holds(order)
    ensures ok <==> CanTransition(old(order.status), target)
    ensures !ok ==> db.View() == old(db.View()) && order.Row() == old(order.Row())
    ensures ok ==> order.Row() == Moved(old(order.Row()), target, brokerOrderId)
    ensures ok ==> db.View() == Commit(old(db.View()), order.id, Shifted(order.id, old(order.Row()), target, kind, brokerOrderId))
  {
    var was := order.status;
    ok := CanTransition(was, target);
    if !ok {
      return;
    }
    MoveRow(order, target, brokerOrderId);
    db.events := db.events + [OrderEvent(order.id, Some(was), target, kind)];
    assert db.OrderRows() == old(db.OrderRows())[order.id := order.Row()];
  }

  method RecordOrderEvent(db: Database, order: Order, kind: EventKind)
    requires db.Valid() && db.Holds(order)
    modifies db`events
    ensures db.View() == Commit(old(db.View()), order.id, Noted(order.id, order.Row(), kind))
  {
    db.events := db.events + [OrderEvent(order.id, Some(order.status), order.status, kind)];
    assert db.OrderRows() == old(db.OrderRows())[order.id := order.Row()];
  }

  /** What the commit leaves of a new order: its limit price is rounded by the column. */
  method SettleTerms(db: Database, order: Order)
    requires db.Valid() && db.Holds(order)
    modifies order`terms
    ensures db.View() == Settled(old(db.View()), order.id)
  {
    order.terms := Stored(order.terms);
    assert db.OrderRows() == old(db.OrderRows())[order.id := order.Row()];
  }

  /** `db.add(Order(...))` and `initialize_order_status`. */
  method AddOrder(db: Database, id: nat, terms: OrderTerms, kind: EventKind) returns (order: Order)
    requires db.Valid() && id !in db.orders
    modifies db`orders, db`events
    ensures db.Valid() && fresh(order) && order.id == id && db.orders == old(db.orders)[id := order]
    ensures db.View() == WithNewOrder(old(db.View()), id, terms, kind)
  {
    order := new Order(id, terms);
    db.orders := db.orders[id := order];
    db.events := db.events + [OrderEvent(id, None, PendingApproval, kind)];
    assert db.OrderRows() == old(db.OrderRows())[id := order.Row()];
  }
}
