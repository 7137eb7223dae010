/** What the folded position is: the quantity in closed form, and how far the stored average is from
    the exact one. Fills are oldest first. */
module PaperLedgerFacts {
  import opened Wrappers
  import opened Tables
  import opened PaperLedger

  // ---------------------------------------------------------------------------------------------
  // What one filled order does to the positions table
  // ---------------------------------------------------------------------------------------------

  /** The price of a fill: the limit price unless it is missing or 0, and then 1. */
  predicate FilledAt(terms: OrderTerms, price: real) {
    price == if terms.limitPrice == None || terms.limitPrice == Some(0.0) then 1.0 else terms.limitPrice.value
  }

  lemma FilledAtExactly(terms: OrderTerms, price: real)
    requires FilledAt(terms, price)
    ensures FillPrice(terms) == price
  {
  }

  /** One row changes, that of the order's user and symbol, and no other table. */
  lemma FillTouchesOneRow(s: Store, user: nat, terms: OrderTerms, key: PositionKey)
    ensures PositionKey(user, terms.symbol) in WithFill(s, user, terms).positions
    ensures key != PositionKey(user, terms.symbol) ==> PositionAt(WithFill(s, user, terms), key) == PositionAt(s, key)
    ensures WithFill(s, user, terms).(positions := s.positions) == s
  {
  }

  /** A first fill opens the row with the order's quantity, negative for a sale, at its price. */
  lemma FirstFillEffect(s: Store, user: nat, terms: OrderTerms, price: real)
    requires PositionKey(user, terms.symbol) !in s.positions && FilledAt(terms, price)
    ensures WithFill(s, user, terms).positions[PositionKey(user, terms.symbol)]
         == PositionRow(if terms.side == Sell then 0 - terms.quantity else terms.quantity, RoundHundredths(price), RoundHundredths(price))
  {
    FilledAtExactly(terms, price);
  }

  /** A sale on an existing row takes the order's quantity away, but not below 0, and leaves the
      average. */
  lemma SaleEffect(s: Store, user: nat, terms: OrderTerms, price: real, row: PositionRow)
    requires PositionAt(s, PositionKey(user, terms.symbol)) == Some(row) && terms.side == Sell && FilledAt(terms, price)
    ensures WithFill(s, user, terms).positions[PositionKey(user, terms.symbol)]
         == PositionRow(if row.quantity > terms.quantity then row.quantity - terms.quantity else 0, row.avgPrice, RoundHundredths(price))
  {
    FilledAtExactly(terms, price);
  }

  /** A purchase on an existing row adds the order's quantity, and its cost to the average. A row that
      was short by the quantity or more ends flat with its old average. */
  lemma PurchaseEffect(s: Store, user: nat, terms: OrderTerms, price: real, row: PositionRow)
    requires PositionAt(s, PositionKey(user, terms.symbol)) == Some(row) && terms.side == Buy && FilledAt(terms, price)
    ensures row.quantity + terms.quantity <= 0 ==>
      WithFill(s, user, terms).positions[PositionKey(user, terms.symbol)] == PositionRow(0, row.avgPrice, RoundHundredths(price))
    ensures row.quantity + terms.quantity > 0 ==>
      WithFill(s, user, terms).positions[PositionKey(user, terms.symbol)]
      == PositionRow(row.quantity + terms.quantity,
           RoundHundredths(WeightedAverage(row.quantity, row.avgPrice, terms.quantity, price)), RoundHundredths(price))
  {
    FilledAtExactly(terms, price);
  }

  /** Rounding treats losses as gains, so halves move away from 0. */
  lemma RoundingIsOdd(x: real)
    ensures RoundHundredths(-x) == -RoundHundredths(x)
    ensures x >= 0.0 && IsHundredths(x + 0.005) ==> RoundHundredths(x) == x + 0.005
  {
    if x >= 0.0 && IsHundredths(x + 0.005) {
      assert x * 100.0 + 0.5 == (x + 0.005) * 100.0;
    }
  }

  // ---------------------------------------------------------------------------------------------
  // The quantity is a walk clamped at 0 from the second fill on
  // ---------------------------------------------------------------------------------------------

  function Total(fills: seq<Fill>): int {
    if fills == [] then 0 else Total(fills[..|fills| - 1]) + fills[|fills| - 1].shares
  }

  function QuantityAfter(fills: seq<Fill>): int {
    if fills == [] then 0 else Fold(fills).value.quantity
  }

  /** With S_k the total of the first k fills: q is the largest of S_n and all S_n - S_k, 2 <= k <= n. */
  ghost predicate IsClampedTotal(q: int, fills: seq<Fill>) {
    && q >= Total(fills)
    && (forall k :: 2 <= k <= |fills| ==> q >= Total(fills) - Total(fills[..k]))
    && (q == Total(fills) || exists k :: 2 <= k <= |fills| && q == Total(fills) - Total(fills[..k]))
  }

  lemma FirstFillIsUnclamped(fills: seq<Fill>)
    requires |fills| == 1
    ensures QuantityAfter(fills) == Total(fills) == fills[0].shares
  {
    assert fills[..|fills| - 1] == [];
    assert Fold(fills) == Some(Booked(None, fills[0]));
  }

  lemma {:induction false} QuantityIsClampedTotal(fills: seq<Fill>)
    requires |fills| >= 2
    ensures IsClampedTotal(QuantityAfter(fills), fills)
  {
    var n := |fills|;
    var front := fills[..n - 1];
    var q := QuantityAfter(fills);
    assert fills[..n] == fills;
    if n == 2 {
      FirstFillIsUnclamped(front);
    } else {
      QuantityIsClampedTotal(front);
      forall k | 2 <= k <= n
        ensures q >= Total(fills) - Total(fills[..k])
      {
        assert k < n ==> front[..k] == fills[..k];
      }
      if q != 0 && QuantityAfter(front) != Total(front) {
        var k :| 2 <= k <= |front| && QuantityAfter(front) == Total(front) - Total(front[..k]);
        assert front[..k] == fills[..k];
      }
    }
  }

  /** From the second fill on the quantity is not negative, and it is the plain sum if and only if
      no running total from the second on is negative. */
  lemma QuantityIsPlainTotalExactly(fills: seq<Fill>)
    requires |fills| >= 2
    ensures QuantityAfter(fills) >= 0
    ensures QuantityAfter(fills) == Total(fills) <==> forall k :: 2 <= k <= |fills| ==> Total(fills[..k]) >= 0
  {
    QuantityIsClampedTotal(fills);
    assert fills[..|fills|] == fills;
  }

  // ---------------------------------------------------------------------------------------------
  // The stored average
  // ---------------------------------------------------------------------------------------------

  lemma RoundIsNear(x: real)
    ensures -0.005 <= RoundHundredths(x) - x <= 0.005
  {
  }

  lemma FloorIsMonotone(x: real, y: real)
    requires x <= y
    ensures x.Floor <= y.Floor
  {
  }

  lemma RoundIsMonotone(x: real, y: real)
    requires x <= y
    ensures RoundHundredths(x) <= RoundHundredths(y)
  {
    if x >= 0.0 {
      FloorIsMonotone(x * 100.0 + 0.5, y * 100.0 + 0.5);
    } else if y < 0.0 {
      FloorIsMonotone(-y * 100.0 + 0.5, -x * 100.0 + 0.5);
    } else {
      FloorIsMonotone(0.5, y * 100.0 + 0.5);
      FloorIsMonotone(0.5, -x * 100.0 + 0.5);
    }
  }

  lemma FloorOfHalfMore(k: int)
    ensures (k as real + 0.5).Floor == k
  {
  }

  lemma RoundKeepsHundredths(x: real)
    requires IsHundredths(x)
    ensures RoundHundredths(x) == x
  {
    var k := (x * 100.0).Floor;
    assert x * 100.0 == k as real;
    FloorOfHalfMore(k);
    FloorOfHalfMore(-k);
    assert -x * 100.0 == (-k) as real;
  }

  // ---------------------------------------------------------------------------------------------
  // When the unrounded price of a fill shows in the row
  // ---------------------------------------------------------------------------------------------

  /** Booking an order at its limit price and at its stored limit price gives two rows: the price is
      above 0 but is stored as 0, which fills at 1; or a purchase is blended into an average that
      the two prices bring to different hundredths. */
  predicate RoundingShows(row: Option<PositionRow>, terms: OrderTerms) {
    && terms.limitPrice.Some?
    && var price := terms.limitPrice.value;
       || 0.0 < price < 0.005
       || (terms.side == Buy && price >= 0.005 && row.Some? && row.value.quantity + terms.quantity > 0
           && RoundHundredths(WeightedAverage(row.value.quantity, row.value.avgPrice, terms.quantity, price))
              != RoundHundredths(WeightedAverage(row.value.quantity, row.value.avgPrice, terms.quantity, RoundHundredths(price))))
  }

  lemma RoundsToZero(x: real)
    requires x >= 0.0
    ensures RoundHundredths(x) == 0.0 <==> x < 0.005
  {
  }

  lemma RoundsOnce(x: real)
    ensures IsHundredths(RoundHundredths(x)) && RoundHundredths(RoundHundredths(x)) == RoundHundredths(x)
  {
    if x >= 0.0 {
      assert RoundHundredths(x) * 100.0 == (x * 100.0 + 0.5).Floor as real;
    } else {
      assert RoundHundredths(x) * 100.0 == (-(-x * 100.0 + 0.5).Floor) as real;
    }
    RoundKeepsHundredths(RoundHundredths(x));
  }

  lemma RoundingShowsExactly(row: Option<PositionRow>, terms: OrderTerms)
    ensures Booked(row, FillOf(terms)) != Booked(row, FillOf(Stored(terms))) <==> RoundingShows(row, terms)
  {
    if terms.limitPrice.Some? {
      var price := terms.limitPrice.value;
      RoundsToZero(price);
      RoundsOnce(price);
      RoundKeepsHundredths(1.0);
    }
  }

  lemma HundredthsDoNotShow(row: Option<PositionRow>, terms: OrderTerms)
    requires terms.limitPrice.Some? ==> IsHundredths(terms.limitPrice.value)
    ensures Stored(terms) == terms && !RoundingShows(row, terms)
  {
    if terms.limitPrice.Some? {
      RoundKeepsHundredths(terms.limitPrice.value);
      RoundsToZero(terms.limitPrice.value);
    }
  }

  /** Opened by a BUY, and no fill is empty. */
  predicate OpensLong(fills: seq<Fill>) {
    && fills != [] && fills[0].shares > 0
    && forall i :: 0 <= i < |fills| ==> fills[i].shares != 0
  }

  predicate InHundredths(fills: seq<Fill>) {
    forall i :: 0 <= i < |fills| ==> IsHundredths(fills[i].price)
  }

  /** The prices of the BUYs since the position was last flat. */
  function BuysSinceFlat(fills: seq<Fill>): seq<real> {
    if fills == [] then []
    else
      var f := fills[|fills| - 1];
      var before := BuysSinceFlat(fills[..|fills| - 1]);
      if QuantityAfter(fills) == 0 then [] else if f.shares > 0 then before + [f.price] else before
  }

  /** Orders give fills of some shares at a positive price, stored ones in whole hundredths. */
  lemma OrdersFill(terms: OrderTerms)
    ensures FillOf(terms).shares != 0 && FillOf(terms).price > 0.0
    ensures IsHundredths(FillOf(Stored(terms)).price)
  {
    if terms.limitPrice.Some? {
      RoundsOnce(terms.limitPrice.value);
    }
  }

  lemma {:induction false} LongStaysNonNegative(fills: seq<Fill>)
    requires OpensLong(fills)
    ensures QuantityAfter(fills) >= 0
    ensures QuantityAfter(fills) > 0 <==> BuysSinceFlat(fills) != []
  {
    var front := fills[..|fills| - 1];
    if |fills| == 1 {
      FirstFillIsUnclamped(fills);
    } else {
      LongStaysNonNegative(front);
    }
  }

  lemma BlendIsBetween(quantity: int, average: real, shares: int, price: real, lo: real, hi: real)
    requires quantity >= 0 && shares > 0 && lo <= price <= hi && (quantity > 0 ==> lo <= average <= hi)
    ensures lo <= WeightedAverage(quantity, average, shares, price) <= hi
  {
    var q, s := quantity as real, shares as real;
    if quantity > 0 {
      ScaleBounds(q, average, lo, hi);
    }
    ScaleBounds(s, price, lo, hi);
    SumScales(q, s, lo);
    SumScales(q, s, hi);
    DivideBounds(q * average + s * price, q + s, lo, hi);
  }

  lemma ScaleBounds(d: real, x: real, lo: real, hi: real)
    requires d >= 0.0 && lo <= x <= hi
    ensures d * lo <= d * x <= d * hi
  {
  }

  lemma SumScales(q: real, s: real, x: real)
    ensures (q + s) * x == q * x + s * x
  {
  }

  lemma ScaleStrictly(d: real, a: real, b: real)
    requires d > 0.0 && a < b
    ensures d * a < d * b
  {
  }

  lemma DivideBounds(x: real, d: real, lo: real, hi: real)
    requires d > 0.0 && d * lo <= x <= d * hi
    ensures lo <= x / d <= hi
  {
    var y := x / d;
    assert d * y == x;
    if y < lo {
      ScaleStrictly(d, y, lo);
      assert false;
    }
    if y > hi {
      ScaleStrictly(d, hi, y);
      assert false;
    }
  }

  lemma BlendRoundsWithin(p: PositionRow, f: Fill, lo: real, hi: real)
    requires p.quantity >= 0 && f.shares > 0 && lo <= f.price <= hi
    requires p.quantity > 0 ==> RoundHundredths(lo) <= p.avgPrice <= RoundHundredths(hi)
    ensures RoundHundredths(lo) <= RoundHundredths(WeightedAverage(p.quantity, p.avgPrice, f.shares, f.price)) <= RoundHundredths(hi)
  {
    var exact := WeightedAverage(p.quantity, p.avgPrice, f.shares, f.price);
    var low := if lo <= RoundHundredths(lo) then lo else RoundHundredths(lo);
    var high := if hi >= RoundHundredths(hi) then hi else RoundHundredths(hi);
    BlendIsBetween(p.quantity, p.avgPrice, f.shares, f.price, low, high);
    RoundIsMonotone(low, exact);
    RoundIsMonotone(exact, high);
    RoundsOnce(lo);
    RoundsOnce(hi);
  }

  /** Any two bounds of the BUY prices since last flat, rounded, are bounds of the average. */
  lemma {:induction false} AverageStaysWithin(fills: seq<Fill>, lo: real, hi: real)
    requires OpensLong(fills) && QuantityAfter(fills) > 0
    requires forall p :: p in BuysSinceFlat(fills) ==> lo <= p <= hi
    ensures RoundHundredths(lo) <= Fold(fills).value.avgPrice <= RoundHundredths(hi)
  {
    var n := |fills|;
    var front, f := fills[..n - 1], fills[n - 1];
    if n == 1 {
      assert front == [] && f.price in BuysSinceFlat(fills);
      RoundIsMonotone(lo, f.price);
      RoundIsMonotone(f.price, hi);
    } else {
      LongStaysNonNegative(front);
      forall p | p in BuysSinceFlat(front)
        ensures lo <= p <= hi
      {
        assert p in BuysSinceFlat(fills);
      }
      if QuantityAfter(front) > 0 {
        AverageStaysWithin(front, lo, hi);
      }
      if f.shares > 0 {
        assert f.price in BuysSinceFlat(fills);
        BlendRoundsWithin(Fold(front).value, f, lo, hi);
      }
    }
  }

  lemma {:induction false} LowestAndHighest(s: seq<real>) returns (i: nat, j: nat)
    requires s != []
    ensures i < |s| && j < |s| && forall x :: x in s ==> s[i] <= x <= s[j]
  {
    if |s| == 1 {
      i, j := 0, 0;
    } else {
      var a, b := LowestAndHighest(s[1..]);
      i := if s[0] <= s[1..][a] then 0 else a + 1;
      j := if s[0] >= s[1..][b] then 0 else b + 1;
      assert s == [s[0]] + s[1..];
    }
  }

  lemma {:induction false} BuysAreHundredths(fills: seq<Fill>)
    requires InHundredths(fills)
    ensures forall p :: p in BuysSinceFlat(fills) ==> IsHundredths(p)
  {
    if fills != [] {
      BuysAreHundredths(fills[..|fills| - 1]);
    }
  }

  /** While shares are held, the stored average lies between the lowest and the highest BUY price
      since the position was last flat, both rounded as the column rounds. */
  lemma AverageIsBetweenBuyPrices(fills: seq<Fill>) returns (lowest: real, highest: real)
    requires OpensLong(fills) && QuantityAfter(fills) > 0
    ensures lowest in BuysSinceFlat(fills) && highest in BuysSinceFlat(fills)
    ensures forall p :: p in BuysSinceFlat(fills) ==> lowest <= p <= highest
    ensures RoundHundredths(lowest) <= Fold(fills).value.avgPrice <= RoundHundredths(highest)
    ensures InHundredths(fills) ==> lowest <= Fold(fills).value.avgPrice <= highest
  {
    LongStaysNonNegative(fills);
    var i, j := LowestAndHighest(BuysSinceFlat(fills));
    lowest, highest := BuysSinceFlat(fills)[i], BuysSinceFlat(fills)[j];
    AverageStaysWithin(fills, lowest, highest);
    if InHundredths(fills) {
      BuysAreHundredths(fills);
      RoundKeepsHundredths(lowest);
      RoundKeepsHundredths(highest);
    }
  }

  // ---------------------------------------------------------------------------------------------
  // Drift of the stored average from the exact one
  // ---------------------------------------------------------------------------------------------

  /** Shares held and what they cost, without rounding: a BUY adds its cost, a SELL takes away its
      share of the cost, and a sale of everything leaves nothing. */
  datatype Basis = Basis(shares: int, cost: real)

  function KeptCost(b: Basis, shares: int): real
    requires b.shares > 0
  {
    b.cost * shares as real / b.shares as real
  }

  function BasisAfter(b: Basis, f: Fill): Basis {
    var shares := b.shares + f.shares;
    if shares <= 0 then Basis(0, 0.0)
    else if f.shares > 0 then Basis(shares, b.cost + f.shares as real * f.price)
    else if b.shares > 0 then Basis(shares, KeptCost(b, shares))
    else Basis(0, 0.0)
  }

  function ExactBasis(fills: seq<Fill>): Basis {
    if fills == [] then Basis(0, 0.0) else BasisAfter(ExactBasis(fills[..|fills| - 1]), fills[|fills| - 1])
  }

  function ExactAverage(b: Basis): real
    requires b.shares > 0
  {
    b.cost / b.shares as real
  }

  lemma {:induction false} BasisHasQuantity(fills: seq<Fill>)
    requires OpensLong(fills)
    ensures ExactBasis(fills).shares == QuantityAfter(fills)
    ensures QuantityAfter(fills) == 0 ==> ExactBasis(fills).cost == 0.0
  {
    var front := fills[..|fills| - 1];
    if |fills| == 1 {
      FirstFillIsUnclamped(fills);
      assert front == [];
    } else {
      BasisHasQuantity(front);
      LongStaysNonNegative(front);
    }
  }

  /** A BUY blends the exact average as the code's formula does, and a SELL leaves it alone. */
  lemma ExactAverageAfterBuy(b: Basis, f: Fill)
    requires b.shares > 0 && f.shares > 0
    ensures ExactAverage(BasisAfter(b, f)) == WeightedAverage(b.shares, ExactAverage(b), f.shares, f.price)
  {
    assert b.shares as real * ExactAverage(b) == b.cost;
  }

  lemma ExactAverageAfterSell(b: Basis, f: Fill)
    requires b.shares > 0 && f.shares < 0 && b.shares + f.shares > 0
    ensures ExactAverage(BasisAfter(b, f)) == ExactAverage(b)
  {
    var shares := b.shares + f.shares;
    KeptCostScales(b, shares);
    EqualRatios(KeptCost(b, shares), shares as real, b.cost, b.shares as real);
  }

  lemma KeptCostScales(b: Basis, shares: int)
    requires b.shares > 0
    ensures KeptCost(b, shares) * b.shares as real == b.cost * shares as real
  {
  }

  lemma EqualRatios(x: real, n: real, c: real, q: real)
    requires n > 0.0 && q > 0.0 && x * q == c * n
    ensures x / n == c / q
  {
    var r, t := x / n, c / q;
    assert r * n == x && t * q == c;
    assert (r * n) * q == (t * q) * n;
    assert (r - t) * (n * q) == 0.0;
    assert n * q > 0.0;
  }

  function Gap(a: real, b: real): real {
    if a >= b then a - b else b - a
  }

  /** Blending in a purchase does not widen the gap between two averages. */
  lemma BlendShrinksGap(quantity: int, a: real, e: real, shares: int, price: real)
    requires quantity > 0 && shares > 0
    ensures Gap(WeightedAverage(quantity, a, shares, price), WeightedAverage(quantity, e, shares, price)) <= Gap(a, e)
  {
    if a < e {
      BlendShrinksOrdered(quantity, e, a, shares, price);
    } else {
      BlendShrinksOrdered(quantity, a, e, shares, price);
    }
  }

  lemma BlendShrinksOrdered(quantity: int, a: real, e: real, shares: int, price: real)
    requires quantity > 0 && shares > 0 && a >= e
    ensures 0.0 <= WeightedAverage(quantity, a, shares, price) - WeightedAverage(quantity, e, shares, price) <= a - e
  {
    var q, d := quantity as real, (quantity + shares) as real;
    var x, y := q * a + shares as real * price, q * e + shares as real * price;
    assert x - y == q * (a - e);
    assert 0.0 <= q * (a - e) <= d * (a - e);
    DivideBounds(x - y, d, 0.0, a - e);
    assert (x - y) / d == x / d - y / d;
  }

  /** The BUYs since the position was last flat that had to be blended in: all but the first. */
  function Blends(fills: seq<Fill>): int {
    |BuysSinceFlat(fills)| - 1
  }

  /** How often rounding may have moved the average: once for each BUY since last flat, the first
      of which moves nothing if prices are whole hundredths. */
  function Roundings(fills: seq<Fill>): int {
    if InHundredths(fills) then Blends(fills) else |BuysSinceFlat(fills)|
  }

  /** The stored average stays within half a hundredth, for each such BUY, of the exact
      cost-weighted average, over any mix of BUYs and SELLs at any prices. */
  lemma {:induction false} AverageDrift(fills: seq<Fill>)
    requires OpensLong(fills) && QuantityAfter(fills) > 0
    ensures ExactBasis(fills).shares == QuantityAfter(fills)
    ensures Gap(Fold(fills).value.avgPrice, ExactAverage(ExactBasis(fills))) <= 0.005 * Roundings(fills) as real
  {
    var n := |fills|;
    var front, f := fills[..n - 1], fills[n - 1];
    BasisHasQuantity(fills);
    assert ExactBasis(fills) == BasisAfter(ExactBasis(front), f);
    if n == 1 {
      assert front == [];
      FirstBuyIsExact(Basis(0, 0.0), f);
      FirstBuyIsNear(fills, f);
    } else {
      BasisHasQuantity(front);
      LongStaysNonNegative(front);
      var p := Fold(front).value;
      var b := ExactBasis(front);
      if QuantityAfter(front) == 0 {
        FirstBuyIsExact(b, f);
        FirstBlendIsPrice(p, f);
        FirstBuyIsNear(fills, f);
      } else {
        AverageDrift(front);
        assert Roundings(front) <= Roundings(fills) - (if f.shares > 0 then 1 else 0);
        if f.shares > 0 {
          DriftOfBuy(p, b, f, 0.005 * Roundings(front) as real);
        } else {
          ExactAverageAfterSell(b, f);
        }
      }
    }
  }

  lemma FirstBuyIsNear(fills: seq<Fill>, f: Fill)
    requires fills != [] && f == fills[|fills| - 1] && BuysSinceFlat(fills) == [f.price]
    ensures Gap(RoundHundredths(f.price), f.price) <= 0.005 * Roundings(fills) as real
  {
    RoundIsNear(f.price);
    if InHundredths(fills) {
      RoundKeepsHundredths(f.price);
    }
  }

  lemma DriftOfBuy(p: PositionRow, b: Basis, f: Fill, drift: real)
    requires p.quantity == b.shares > 0 && f.shares > 0
    requires Gap(p.avgPrice, ExactAverage(b)) <= drift
    ensures Gap(Booked(Some(p), f).avgPrice, ExactAverage(BasisAfter(b, f))) <= drift + 0.005
  {
    ExactAverageAfterBuy(b, f);
    BlendShrinksGap(p.quantity, p.avgPrice, ExactAverage(b), f.shares, f.price);
    RoundIsNear(WeightedAverage(p.quantity, p.avgPrice, f.shares, f.price));
  }

  lemma FirstBuyIsExact(b: Basis, f: Fill)
    requires b == Basis(0, 0.0) && f.shares > 0
    ensures BasisAfter(b, f).shares > 0 && ExactAverage(BasisAfter(b, f)) == f.price
  {
  }

  lemma FirstBlendIsPrice(p: PositionRow, f: Fill)
    requires p.quantity == 0 && f.shares > 0
    ensures WeightedAverage(p.quantity, p.avgPrice, f.shares, f.price) == f.price
  {
    assert 0.0 * p.avgPrice == 0.0;
  }
}
