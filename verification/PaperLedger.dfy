/** The paper positions table as a fold over fills (`_upsert_paper_position`), and what the folded
    quantity and average price are. */
module PaperLedger {
  import opened Wrappers
  import opened Tables

  /** One fill: signed shares (BUY positive) at a price. */
  datatype Fill = Fill(shares: int, price: real)

  /** `limit_price or 0`, with 0 replaced by 1. */
  function FillPrice(terms: OrderTerms): real {
    if terms.limitPrice.Some? && terms.limitPrice.value != 0.0 then terms.limitPrice.value else 1.0
  }

  function SignedQuantity(terms: OrderTerms): int {
    var quantity: int := terms.quantity;
    if terms.side == Buy then quantity else -quantity
  }

  function FillOf(terms: OrderTerms): Fill {
    Fill(SignedQuantity(terms), FillPrice(terms))
  }

  /** (current cost + added cost) / new quantity */
  function WeightedAverage(quantity: int, average: real, shares: int, price: real): real
    requires quantity + shares > 0
  {
    (quantity as real * average + shares as real * price) / (quantity + shares) as real
  }

  /** The row after one fill. */
  function Booked(row: Option<PositionRow>, f: Fill): PositionRow {
    match row
    case None => PositionRow(f.shares, RoundHundredths(f.price), RoundHundredths(f.price))
    case Some(p) =>
      var quantity := p.quantity + f.shares;
      if quantity <= 0 then PositionRow(0, p.avgPrice, RoundHundredths(f.price))
      else if f.shares < 0 then PositionRow(quantity, p.avgPrice, RoundHundredths(f.price))
      else
        PositionRow(quantity, RoundHundredths(WeightedAverage(p.quantity, p.avgPrice, f.shares, f.price)), RoundHundredths(f.price))
  }

  /** The row after all fills on one (user, symbol), oldest first. */
  function Fold(fills: seq<Fill>): Option<PositionRow> {
    if fills == [] then None
    else Some(Booked(Fold(fills[..|fills| - 1]), fills[|fills| - 1]))
  }

  function PositionAt(s: Store, key: PositionKey): Option<PositionRow> {
    if key in s.positions then Some(s.positions[key]) else None
  }

  /** The tables after `_upsert_paper_position` for an order of these terms. */
  function WithFill(s: Store, user: nat, terms: OrderTerms): Store {
    var key := PositionKey(user, terms.symbol);
    s.(positions := s.positions[key := Booked(PositionAt(s, key), FillOf(terms))])
  }

  /** The branches for a symbol that already has a row. */
  method UpdatePosition(row: Position, signed: int, price: real)
    modifies row
    ensures row.Row() == Booked(Some(old(row.Row())), Fill(signed, price))
  {
    var quantity := row.quantity + signed;
    if quantity <= 0 {
      row.quantity := 0;
      row.marketPrice := RoundHundredths(price);
      return;
    }
    if signed < 0 {
      row.quantity := quantity;
      row.marketPrice := RoundHundredths(price);
      return;
    }
    row.avgPrice := RoundHundredths(WeightedAverage(row.quantity, row.avgPrice, signed, price));
    row.quantity := quantity;
    row.marketPrice := RoundHundredths(price);
  }

  method UpsertPaperPosition(db: Database, user: nat, terms: OrderTerms)
    requires db.Valid()
    modifies db`positions, db.positions.Values
    ensures db.Valid()
    ensures db.View() == WithFill(old(db.View()), user, terms)
    ensures db.AddsFreshPositions()
  {
    var price := FillPrice(terms);
    var key := PositionKey(user, terms.symbol);
    var signed := SignedQuantity(terms);
    var row: Position;
    if key in db.positions {
      row := db.positions[key];
      UpdatePosition(row, signed, price);
    } else {
      row := new Position(key, signed, RoundHundredths(price), RoundHundredths(price));
      db.positions := db.positions[key := row];
    }
    assert db.PositionRows() == old(db.PositionRows())[key := row.Row()];
  }
}
