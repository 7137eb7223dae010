/** Requests served one after the other on the database: each by an engine of its own for the
    requesting user, as the routes build one per request (routes.py, trading_engine.py). */
module EngineService {
  import opened Wrappers
  import opened Tables
  import opened TradingSafety
  import opened OrderMachine
  import opened EngineSpec
  import opened TradingEngine

  method Serve(db: Database, sys: Settings, op: Op) returns (reply: Reply)
    requires db.Valid()
    modifies db, db.orders.Values, db.positions.Values
    ensures db.Valid() && db.AddsFreshOrders() && db.AddsFreshPositions()
    ensures Outcome(db.View(), reply) == Step(sys, old(db.View()), op)
  {
    var engine := new Engine(db, sys, op.user);
    match op {
      case CreateManual(user, id, create) =>
        reply := engine.CreateManualOrder(id, create);
      case Decide(user, id, requested, decision, snapshotPrice, quote, placed) =>
        var risk;
        reply, risk := engine.RunDecision(id, requested, decision, snapshotPrice, quote, placed);
      case SetSafety(user, payload) =>
        reply := engine.UpdateSafetySettings(payload);
      case _ =>
        reply := ServeOnOrder(engine, op);
    }
  }

  /** The requests about one existing order. */
  method ServeOnOrder(engine: Engine, op: Op) returns (reply: Reply)
    requires engine.db.Valid() && engine.userId == op.user
    requires op.PreviewOrder? || op.ApproveOrder? || op.Cancel? || op.Refresh?
    modifies engine.db, engine.db.orders.Values, engine.db.positions.Values
    ensures engine.db.Valid() && engine.db.AddsFreshOrders() && engine.db.AddsFreshPositions()
    ensures Outcome(engine.db.View(), reply) == Step(engine.sys, old(engine.db.View()), op)
  {
    match op {
      case PreviewOrder(user, id, quote) =>
        reply := engine.PreviewOrderApproval(id, quote);
      case ApproveOrder(user, id, text, quote, placed) =>
        reply := engine.ApproveOrder(id, text, quote, placed);
      case Cancel(user, id, answer) =>
        reply := engine.CancelOrder(id, answer);
      case Refresh(user, id, answer) =>
        reply := engine.RefreshOrderStatus(id, answer);
    }
  }

  /** So what is proved about runs holds of the database after any sequence of engine calls. */
  method ServeAll(db: Database, sys: Settings, ops: seq<Op>)
    requires db.Valid()
    modifies db, db.orders.Values, db.positions.Values
    ensures db.Valid() && db.AddsFreshOrders() && db.AddsFreshPositions()
    ensures db.View() == Run(sys, old(db.View()), ops)
  {
    for i := 0 to |ops|
      invariant db.Valid() && db.AddsFreshOrders() && db.AddsFreshPositions()
      invariant db.View() == Run(sys, old(db.View()), ops[..i])
    {
      var reply := Serve(db, sys, ops[i]);
      assert ops[..i + 1][..i] == ops[..i];
    }
    assert ops[..|ops|] == ops;
  }
}
