/** Order routing and position keeping (control-api/app/oms.py).

    Money and quantities are exact reals: the rounding of the program's floats is not modelled. */
module Oms {
  import opened Common

  datatype Side = Buy | Sell

  function Abs(x: real): real {
    if x < 0.0 then -x else x
  }

  function Min(x: real, y: real): real {
    if x <= y then x else y
  }

  function SignedQty(side: Side, qty: real): real {
    if side.Buy? then qty else -qty
  }

  /** The position and the profit one fill books. */
  datatype Folded = Folded(qty: real, avg: real, realized: real)

  /** Fold a fill into a position: weighted average when opening or adding, realized profit when
      reducing, and a restart at the fill price when the position flips through zero. */
  function ApplyToPosition(qty: real, avg: real, side: Side, fillQty: real, fillPrice: real): Folded {
    var signed := SignedQty(side, fillQty);
    var newQty := qty + signed;
    if qty == 0.0 || ((qty > 0.0) == (signed > 0.0)) then
      var denom := Abs(newQty);
      var newAvg := if denom != 0.0 then (Abs(qty) * avg + Abs(signed) * fillPrice) / denom else 0.0;
      Folded(newQty, newAvg, 0.0)
    else
      var closing := Min(Abs(signed), Abs(qty));
      var direction := if qty > 0.0 then 1.0 else -1.0;
      var realized := closing * (fillPrice - avg) * direction;
      if Abs(signed) <= Abs(qty) then
        Folded(newQty, if newQty != 0.0 then avg else 0.0, realized)
      else
        Folded(newQty, fillPrice, realized)
  }

  // ------------------------------------------------------------------ a position over many fills

  datatype Fill = Fill(side: Side, qty: real, price: real)

  datatype Position = Position(qty: real, avg: real, realized: real)

  const Flat := Position(0.0, 0.0, 0.0)

  /** routers/trading.py folds every fill into the stored position this way. */
  function FoldFill(p: Position, f: Fill): Position {
    var r := ApplyToPosition(p.qty, p.avg, f.side, f.qty, f.price);
    Position(r.qty, r.avg, p.realized + r.realized)
  }

  function FoldAll(p: Position, fills: seq<Fill>): Position
    decreases |fills|
  {
    if fills == [] then p else FoldAll(FoldFill(p, fills[0]), fills[1..])
  }

  /** Cash paid for the fills: buys cost, sells bring in. */
  function CashSpent(fills: seq<Fill>): real {
    if fills == [] then 0.0
    else SignedQty(fills[0].side, fills[0].qty) * fills[0].price + CashSpent(fills[1..])
  }

  function NetTraded(fills: seq<Fill>): real {
    if fills == [] then 0.0 else SignedQty(fills[0].side, fills[0].qty) + NetTraded(fills[1..])
  }

  // ------------------------------------------------------------------ conservation

  /** Opening or adding: the cost of the position grows by exactly the fill's notional. */
  lemma {:induction false} IncreaseAddsCost(qty: real, avg: real, side: Side, fillQty: real, price: real)
    requires var s := SignedQty(side, fillQty); qty == 0.0 || ((qty > 0.0) == (s > 0.0))
    ensures var r := ApplyToPosition(qty, avg, side, fillQty, price);
            && r.qty == qty + SignedQty(side, fillQty)
            && r.qty * r.avg == qty * avg + SignedQty(side, fillQty) * price
  {
    var s := SignedQty(side, fillQty);
    var r := ApplyToPosition(qty, avg, side, fillQty, price);
    var cost := Abs(qty) * avg + Abs(s) * price;
    if r.qty != 0.0 {
      QuotientTimes(cost, Abs(r.qty));
      if r.qty < 0.0 {
        Negate(r.qty, r.avg);
        Negate(qty, avg);
        Negate(s, price);
      }
    }
  }

  lemma {:induction false} Negate(x: real, y: real)
    ensures (-x) * y == -(x * y)
  {
  }

  lemma {:induction false} Distribute(x: real, y: real, z: real)
    ensures (x + y) * z == x * z + y * z
    ensures z * (x - y) == z * x - z * y
  {
  }

  /** Reducing or flipping: the closed part books the difference between fill price and average. */
  lemma {:induction false} ReduceBooksProfit(qty: real, avg: real, side: Side, fillQty: real, price: real)
    requires var s := SignedQty(side, fillQty); qty != 0.0 && ((qty > 0.0) != (s > 0.0))
    ensures var s := SignedQty(side, fillQty);
            var r := ApplyToPosition(qty, avg, side, fillQty, price);
            var closed := if Abs(s) <= Abs(qty) then -s else qty;
            r.realized == closed * (price - avg)
  {
    var s := SignedQty(side, fillQty);
    var closing := Min(Abs(s), Abs(qty));
    if qty < 0.0 {
      Negate(closing, price - avg);
    }
  }

  /** One fill of any kind: booked profit plus cash spent equals the change of the position's cost. */
  lemma {:induction false} FillConserves(qty: real, avg: real, side: Side, fillQty: real, price: real)
    ensures var r := ApplyToPosition(qty, avg, side, fillQty, price);
            && r.qty == qty + SignedQty(side, fillQty)
            && r.realized + qty * avg + SignedQty(side, fillQty) * price == r.qty * r.avg
  {
    var s := SignedQty(side, fillQty);
    if qty == 0.0 || ((qty > 0.0) == (s > 0.0)) {
      IncreaseAddsCost(qty, avg, side, fillQty, price);
    } else {
      ReduceBooksProfit(qty, avg, side, fillQty, price);
      if Abs(s) <= Abs(qty) {
        Distribute(qty, s, avg);
        Distribute(price, avg, -s);
        Negate(s, price);
        Negate(s, avg);
      } else {
        Distribute(qty, s, price);
        Distribute(price, avg, qty);
      }
    }
  }

  /** Profit is neither created nor lost over any sequence of fills, from any starting position. */
  lemma {:induction false} FillsConserve(p: Position, fills: seq<Fill>)
    ensures var q := FoldAll(p, fills);
            && q.qty == p.qty + NetTraded(fills)
            && q.realized - p.realized == q.qty * q.avg - p.qty * p.avg - CashSpent(fills)
    decreases |fills|
  {
    hide ApplyToPosition;
    if fills != [] {
      var f := fills[0];
      FillConserves(p.qty, p.avg, f.side, f.qty, f.price);
      FillsConserve(FoldFill(p, f), fills[1..]);
    }
  }

  /** Starting flat: at every mark, realized plus unrealized profit is cash flow plus the holding's
      value; and a book that ends flat has realized exactly its net cash flow. */
  lemma {:induction false} ProfitIsCashFlow(fills: seq<Fill>, mark: real)
    ensures var q := FoldAll(Flat, fills);
            && q.realized == q.qty * q.avg - CashSpent(fills)
            && q.realized + q.qty * (mark - q.avg) == NetTraded(fills) * mark - CashSpent(fills)
            && (NetTraded(fills) == 0.0 ==> q.realized == -CashSpent(fills))
  {
    hide ApplyToPosition, FoldAll;
    FillsConserve(Flat, fills);
    var q := FoldAll(Flat, fills);
    Distribute(mark, q.avg, q.qty);
  }

  // ------------------------------------------------------------------ splitting a fill

  /** The average of a non-flat position is determined by its cost. */
  lemma {:induction false} CostDeterminesAverage(n: real, a: real, b: real)
    requires n != 0.0 && n * a == n * b
    ensures a == b
  {
    Distribute(a, b, n);
  }

  /** A fill of nothing changes only the average of a flat position, which it resets. */
  lemma {:induction false} ZeroFill(qty: real, avg: real, side: Side, price: real)
    ensures ApplyToPosition(qty, avg, side, 0.0, price) == Folded(qty, if qty == 0.0 then 0.0 else avg, 0.0)
  {
    var r := ApplyToPosition(qty, avg, side, 0.0, price);
    if qty != 0.0 {
      QuotientTimes(Abs(qty) * avg, Abs(qty));
      CostDeterminesAverage(Abs(qty), (Abs(qty) * avg) / Abs(qty), avg);
    }
  }

  lemma {:induction false} BooksNothing(qty: real, avg: real, side: Side, q: real, price: real)
    requires q > 0.0 && (qty == 0.0 || ((qty > 0.0) == side.Buy?))
    ensures ApplyToPosition(qty, avg, side, q, price).realized == 0.0
  {
  }

  /** Opening from flat puts the position at the fill price. */
  lemma {:induction false} OpenAtPrice(avg: real, side: Side, q: real, price: real)
    requires q > 0.0
    ensures ApplyToPosition(0.0, avg, side, q, price) == Folded(SignedQty(side, q), price, 0.0)
  {
    hide ApplyToPosition;
    IncreaseAddsCost(0.0, avg, side, q, price);
    var r := ApplyToPosition(0.0, avg, side, q, price);
    CostDeterminesAverage(r.qty, r.avg, price);
    BooksNothing(0.0, avg, side, q, price);
  }

  /** Adding at the average leaves the average where it is. */
  lemma {:induction false} AddAtAverage(qty: real, side: Side, q: real, price: real)
    requires q > 0.0 && qty != 0.0 && ((qty > 0.0) == side.Buy?)
    ensures ApplyToPosition(qty, price, side, q, price) == Folded(qty + SignedQty(side, q), price, 0.0)
  {
    hide ApplyToPosition;
    var s := SignedQty(side, q);
    IncreaseAddsCost(qty, price, side, q, price);
    Distribute(qty, s, price);
    CostDeterminesAverage(qty + s, ApplyToPosition(qty, price, side, q, price).avg, price);
    BooksNothing(qty, price, side, q, price);
  }

  /** Two increases in a row cost what one does. */
  lemma {:induction false} SplitIncrease(p: Position, side: Side, a: real, b: real, price: real)
    requires a > 0.0 && b > 0.0
    requires p.qty == 0.0 || ((p.qty > 0.0) == side.Buy?)
    ensures FoldFill(FoldFill(p, Fill(side, a, price)), Fill(side, b, price)).avg
         == FoldFill(p, Fill(side, a + b, price)).avg
  {
    hide ApplyToPosition;
    var whole := FoldFill(p, Fill(side, a + b, price));
    var first := FoldFill(p, Fill(side, a, price));
    var both := FoldFill(first, Fill(side, b, price));
    IncreaseAddsCost(p.qty, p.avg, side, a + b, price);
    IncreaseAddsCost(p.qty, p.avg, side, a, price);
    IncreaseAddsCost(first.qty, first.avg, side, b, price);
    Distribute(SignedQty(side, a), SignedQty(side, b), price);
    assert both.qty == whole.qty != 0.0;
    CostDeterminesAverage(whole.qty, whole.avg, both.avg);
  }

  lemma {:induction false} SplitAverage(p: Position, side: Side, a: real, b: real, price: real)
    requires a >= 0.0 && b >= 0.0
    ensures FoldFill(FoldFill(p, Fill(side, a, price)), Fill(side, b, price)).avg
         == FoldFill(p, Fill(side, a + b, price)).avg
  {
    var first := FoldFill(p, Fill(side, a, price));
    if b == 0.0 {
      ZeroFill(first.qty, first.avg, side, price);
    } else if a == 0.0 {
      ZeroFill(p.qty, p.avg, side, price);
      if p.qty == 0.0 {
        OpenAtPrice(p.avg, side, b, price);
        OpenAtPrice(0.0, side, b, price);
      }
    } else if p.qty == 0.0 || ((p.qty > 0.0) == side.Buy?) {
      SplitIncrease(p, side, a, b, price);
    } else if a == Abs(p.qty) {
      OpenAtPrice(0.0, side, b, price);
    } else if a > Abs(p.qty) {
      AddAtAverage(first.qty, side, b, price);
    }
  }

  /** A filled order may arrive in two parts at one price: quantity, average and total realized
      profit are the same, wherever the split falls relative to the zero crossing. */
  lemma {:induction false} SplitFill(p: Position, side: Side, a: real, b: real, price: real)
    requires a >= 0.0 && b >= 0.0
    ensures FoldFill(FoldFill(p, Fill(side, a, price)), Fill(side, b, price))
         == FoldFill(p, Fill(side, a + b, price))
  {
    hide ApplyToPosition;
    var first := FoldFill(p, Fill(side, a, price));
    var s, t := SignedQty(side, a), SignedQty(side, b);
    SplitAverage(p, side, a, b, price);
    FillConserves(p.qty, p.avg, side, a + b, price);
    FillConserves(p.qty, p.avg, side, a, price);
    FillConserves(first.qty, first.avg, side, b, price);
    Distribute(s, t, price);
  }
}
