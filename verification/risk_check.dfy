/** Pre-trade portfolio limits (control-api/app/risk_check.py, check_portfolio_limits): a daily loss
    limit and a concentration limit, judged against the position rows before the order fills. */
module RiskCheck {
  import opened Common
  import opened Oms

  /** A zero limit is not enforced. */
  datatype Settings = Settings(maxDailyLoss: real, maxConcentration: real)

  datatype CheckResult = Approved | DailyLossBreached | TooConcentrated

  /** One tenant's position rows; the fold below keeps one row a symbol. */
  datatype Row = Row(symbol: string, pos: Position)

  type Book = seq<Row>

  type Day = int

  ghost predicate UniqueSymbols(book: Book) {
    forall i, j :: 0 <= i < j < |book| ==> book[i].symbol != book[j].symbol
  }

  /** The tenant's row for a symbol, flat when there is none. */
  function Holding(book: Book, symbol: string): Position
    decreases |book|
  {
    if book == [] then Flat
    else if book[0].symbol == symbol then book[0].pos
    else Holding(book[1..], symbol)
  }

  function Notional(p: Position): real {
    Abs(p.qty * p.avg)
  }

  function TotalRealized(book: Book): real
    decreases |book|
  {
    if book == [] then 0.0 else book[0].pos.realized + TotalRealized(book[1..])
  }

  /** Notional held in every symbol but this one. */
  function OtherNotional(book: Book, symbol: string): (n: real)
    ensures n >= 0.0
    decreases |book|
  {
    if book == [] then 0.0
    else (if book[0].symbol == symbol then 0.0 else Notional(book[0].pos)) + OtherNotional(book[1..], symbol)
  }

  function TotalNotional(book: Book): real
    decreases |book|
  {
    if book == [] then 0.0 else Notional(book[0].pos) + TotalNotional(book[1..])
  }

  predicate IsReducing(p: Position, side: Side) {
    p.qty != 0.0 && ((side.Sell? && p.qty > 0.0) || (side.Buy? && p.qty < 0.0))
  }

  /** The fold of routers/trading.py: update the symbol's row, or add one. */
  function FoldTrade(book: Book, symbol: string, f: Fill): Book
    decreases |book|
  {
    if book == [] then [Row(symbol, FoldFill(Flat, f))]
    else if book[0].symbol == symbol then [Row(symbol, FoldFill(book[0].pos, f))] + book[1..]
    else [book[0]] + FoldTrade(book[1..], symbol, f)
  }

  /** The order goes against the position held. */
  ghost predicate Against(book: Book, symbol: string, side: Side) {
    var held := Holding(book, symbol).qty;
    (held > 0.0 && side == Sell) || (held < 0.0 && side == Buy)
  }

  predicate ConcentrationBreached(book: Book, symbol: string, qty: real, refPrice: real, limit: real) {
    var newNotional := Notional(Holding(book, symbol)) + Abs(qty * refPrice);
    var total := OtherNotional(book, symbol) + newNotional;
    total > 0.0 && newNotional / total > limit
  }

  predicate LossBreached(totalRealized: real, baseline: real, limit: real) {
    totalRealized - baseline < -Abs(limit)
  }

  /** The gate and the daily baseline rows it inserts on first use. */
  class RiskGate {
    var baselines: map<Day, real>

    constructor ()
      ensures baselines == map[]
    {
      baselines := map[];
    }

    method CheckPortfolioLimits(settings: Settings, book: Book, today: Day,
                                symbol: string, side: Side, qty: real, refPrice: real)
      returns (result: CheckResult)
      modifies this
      ensures IsReducing(Holding(book, symbol), side) ==> result == Approved
      ensures result == Verdict(settings, book, old(baselines), today, symbol, side, qty, refPrice)
      ensures baselines == BaselinesAfter(settings, book, old(baselines), today, symbol, side)
      ensures baselines == if settings.maxDailyLoss == 0.0 || Against(book, symbol, side) || today in old(baselines)
                           then old(baselines) else old(baselines)[today := TotalRealized(book)]
      ensures result == DailyLossBreached
         <==> && !Against(book, symbol, side) && settings.maxDailyLoss != 0.0 && today in old(baselines)
              && TotalRealized(book) < old(baselines)[today] - Abs(settings.maxDailyLoss)
      ensures result == TooConcentrated ==> !Against(book, symbol, side) && settings.maxConcentration != 0.0
      ensures result == Approved && !Against(book, symbol, side) && settings.maxConcentration != 0.0
              && UniqueSymbols(book) && qty >= 0.0
          ==> WithinShare(FoldTrade(book, symbol, Fill(side, qty, refPrice)), symbol, settings.maxConcentration)
      ensures result == TooConcentrated && UniqueSymbols(book) && qty >= 0.0 && Holding(book, symbol).avg >= 0.0 && refPrice >= 0.0
          ==> !WithinShare(FoldTrade(book, symbol, Fill(side, qty, refPrice)), symbol, settings.maxConcentration)
    {
      hide FoldTrade, WithinShare, ConcentrationBreached, TotalRealized, Holding, UniqueSymbols;
      if !IsReducing(Holding(book, symbol), side) && UniqueSymbols(book) && qty >= 0.0 {
        ConcentrationExact(book, symbol, side, qty, refPrice, settings.maxConcentration);
      }
      if settings.maxDailyLoss == 0.0 && settings.maxConcentration == 0.0 {
        return Approved;
      }
      if IsReducing(Holding(book, symbol), side) {
        return Approved;
      }
      if settings.maxDailyLoss != 0.0 {
        var totalRealized := TotalRealized(book);
        if today !in baselines {
          baselines := baselines[today := totalRealized];
        }
        if LossBreached(totalRealized, baselines[today], settings.maxDailyLoss) {
          return DailyLossBreached;
        }
      }
      if settings.maxConcentration != 0.0
         && ConcentrationBreached(book, symbol, qty, refPrice, settings.maxConcentration)
      {
        return TooConcentrated;
      }
      return Approved;
    }
  }

  /** A check that gets as far as the loss test writes the day's baseline if there is none. */
  function BaselinesAfter(settings: Settings, book: Book, baselines: map<Day, real>, today: Day,
                          symbol: string, side: Side): map<Day, real>
  {
    if settings.maxDailyLoss != 0.0 && !IsReducing(Holding(book, symbol), side) && today !in baselines
    then baselines[today := TotalRealized(book)]
    else baselines
  }

  function Verdict(settings: Settings, book: Book, baselines: map<Day, real>, today: Day,
                   symbol: string, side: Side, qty: real, refPrice: real): CheckResult
  {
    if IsReducing(Holding(book, symbol), side) then Approved
    else if settings.maxDailyLoss != 0.0 && today in baselines
            && LossBreached(TotalRealized(book), baselines[today], settings.maxDailyLoss)
    then DailyLossBreached
    else if settings.maxConcentration != 0.0
            && ConcentrationBreached(book, symbol, qty, refPrice, settings.maxConcentration)
    then TooConcentrated
    else Approved
  }

  // ------------------------------------------------------------------ the book under one fold

  lemma {:induction false} FoldTradeHolding(book: Book, symbol: string, f: Fill)
    ensures Holding(FoldTrade(book, symbol, f), symbol) == FoldFill(Holding(book, symbol), f)
    ensures OtherNotional(FoldTrade(book, symbol, f), symbol) == OtherNotional(book, symbol)
    decreases |book|
  {
    hide ApplyToPosition;
    if book != [] && book[0].symbol != symbol {
      FoldTradeHolding(book[1..], symbol, f);
      assert FoldTrade(book, symbol, f)[1..] == FoldTrade(book[1..], symbol, f);
    } else if book != [] {
      assert FoldTrade(book, symbol, f)[1..] == book[1..];
    }
  }

  lemma {:induction false} FoldTradeSymbols(book: Book, symbol: string, f: Fill, s: string)
    ensures (exists r :: r in FoldTrade(book, symbol, f) && r.symbol == s)
        <==> s == symbol || exists r :: r in book && r.symbol == s
    decreases |book|
  {
    hide ApplyToPosition;
    var after := FoldTrade(book, symbol, f);
    if book == [] {
      assert after[0] in after;
    } else if book[0].symbol == symbol {
      assert after[0] in after && book[0] in book;
      assert forall r :: r in after <==> r == after[0] || r in book[1..];
      assert forall r :: r in book <==> r == book[0] || r in book[1..];
    } else {
      FoldTradeSymbols(book[1..], symbol, f, s);
      assert forall r :: r in after <==> r == book[0] || r in FoldTrade(book[1..], symbol, f);
      assert forall r :: r in book <==> r == book[0] || r in book[1..];
    }
  }

  /** Folding keeps one row a symbol. */
  lemma {:induction false} FoldTradeUnique(book: Book, symbol: string, f: Fill)
    requires UniqueSymbols(book)
    ensures UniqueSymbols(FoldTrade(book, symbol, f))
    decreases |book|
  {
    hide ApplyToPosition;
    if book != [] && book[0].symbol != symbol {
      var rest := FoldTrade(book[1..], symbol, f);
      FoldTradeUnique(book[1..], symbol, f);
      FoldTradeSymbols(book[1..], symbol, f, book[0].symbol);
      assert forall r :: r in book[1..] ==> r.symbol != book[0].symbol;
      assert forall j :: 0 <= j < |rest| ==> rest[j] in rest;
    }
  }

  /** The totals are sums over the rows, and a symbol's holding is that of its row. */
  lemma {:induction false} TotalsAdd(x: Book, y: Book)
    ensures TotalRealized(x + y) == TotalRealized(x) + TotalRealized(y)
    ensures TotalNotional(x + y) == TotalNotional(x) + TotalNotional(y)
    decreases |x|
  {
    hide Notional;
    if x == [] {
      assert x + y == y;
    } else {
      assert (x + y)[1..] == x[1..] + y;
      TotalsAdd(x[1..], y);
    }
  }

  lemma {:induction false} RowCounts(r: Row)
    ensures TotalRealized([r]) == r.pos.realized
    ensures TotalNotional([r]) == if r.pos.qty * r.pos.avg >= 0.0 then r.pos.qty * r.pos.avg else -(r.pos.qty * r.pos.avg)
  {
    assert [r][1..] == [];
  }

  lemma {:induction false} HoldingIsRow(book: Book, i: nat)
    requires UniqueSymbols(book) && i < |book|
    ensures Holding(book, book[i].symbol) == book[i].pos
    decreases |book|
  {
    if i > 0 {
      HoldingIsRow(book[1..], i - 1);
    }
  }

  lemma {:induction false} NoRowIsFlat(book: Book, symbol: string)
    requires forall r :: r in book ==> r.symbol != symbol
    ensures Holding(book, symbol) == Position(0.0, 0.0, 0.0)
    decreases |book|
  {
    if book != [] {
      assert book[0] in book;
      NoRowIsFlat(book[1..], symbol);
    }
  }

  /** The whole book is this symbol plus the others. */
  lemma {:induction false} TotalSplits(book: Book, symbol: string)
    requires UniqueSymbols(book)
    ensures TotalNotional(book) == Notional(Holding(book, symbol)) + OtherNotional(book, symbol)
    decreases |book|
  {
    if book != [] {
      if book[0].symbol == symbol {
        OthersAreAll(book[1..], symbol);
      } else {
        TotalSplits(book[1..], symbol);
      }
    }
  }

  lemma {:induction false} OthersAreAll(book: Book, symbol: string)
    requires forall r :: r in book ==> r.symbol != symbol
    ensures OtherNotional(book, symbol) == TotalNotional(book)
    decreases |book|
  {
    if book != [] {
      assert book[0] in book;
      OthersAreAll(book[1..], symbol);
    }
  }

  /** The symbol's share of the portfolio is within the limit (an empty portfolio always is). */
  predicate WithinShare(book: Book, symbol: string, limit: real) {
    var total := TotalNotional(book);
    total > 0.0 ==> Notional(Holding(book, symbol)) / total <= limit
  }

  // ------------------------------------------------------------------ concentration

  lemma {:induction false} AbsSum(x: real, y: real)
    ensures Abs(x + y) <= Abs(x) + Abs(y)
    ensures (x >= 0.0 && y >= 0.0) || (x <= 0.0 && y <= 0.0) ==> Abs(x + y) == Abs(x) + Abs(y)
  {
  }

  lemma {:induction false} AbsProduct(x: real, y: real)
    ensures Abs(-x * y) == Abs(x * y)
    ensures y >= 0.0 && x >= 0.0 ==> x * y >= 0.0
    ensures y >= 0.0 && x <= 0.0 ==> x * y <= 0.0
  {
  }

  /** The share grows with the symbol's own notional. */
  lemma {:induction false} ShareMonotone(small: real, large: real, others: real)
    requires 0.0 <= small <= large && others >= 0.0 && small + others > 0.0
    ensures small / (small + others) <= large / (large + others)
  {
    var a, b := small + others, large + others;
    var x, y := small / a, large / b;
    QuotientTimes(small, a);
    QuotientTimes(large, b);
    CrossMultiply(small, large, others);
    calc {
      x * (a * b);
      (x * a) * b;
      small * b;
    }
    calc {
      y * (a * b);
      (y * b) * a;
      large * a;
    }
    ProductPositive(a, b);
    Cancel(x, y, a * b);
  }

  lemma {:induction false} CrossMultiply(small: real, large: real, others: real)
    requires 0.0 <= small <= large && others >= 0.0
    ensures small * (large + others) <= large * (small + others)
  {
    assert small * others <= large * others;
    assert small * (large + others) == small * large + small * others;
    assert large * (small + others) == large * small + large * others;
  }

  /** A trade that is not reducing adds its own cost to the position's. */
  lemma {:induction false} GrowingCost(p: Position, side: Side, qty: real, refPrice: real)
    requires !IsReducing(p, side) && qty >= 0.0
    ensures var after := FoldFill(p, Fill(side, qty, refPrice));
            after.qty * after.avg == p.qty * p.avg + SignedQty(side, qty) * refPrice
  {
    if qty == 0.0 {
      ZeroFill(p.qty, p.avg, side, refPrice);
    } else {
      IncreaseAddsCost(p.qty, p.avg, side, qty, refPrice);
    }
  }

  lemma {:induction false} SameSign(p: Position, side: Side, qty: real)
    requires !IsReducing(p, side) && qty >= 0.0
    ensures var s := SignedQty(side, qty);
            && (s == qty || s == -qty)
            && ((p.qty >= 0.0 && s >= 0.0) || (p.qty <= 0.0 && s <= 0.0))
  {
  }

  /** What a trade that is not reducing does to its symbol's notional. */
  lemma {:induction false} GrowingNotional(p: Position, side: Side, qty: real, refPrice: real)
    requires !IsReducing(p, side) && qty >= 0.0
    ensures var after := Notional(FoldFill(p, Fill(side, qty, refPrice)));
            && after <= Notional(p) + Abs(qty * refPrice)
            && (p.avg >= 0.0 && refPrice >= 0.0 ==> after == Notional(p) + Abs(qty * refPrice))
  {
    hide FoldFill, SignedQty, IsReducing, Notional, Abs;
    var cost, added := p.qty * p.avg, SignedQty(side, qty) * refPrice;
    GrowingCost(p, side, qty, refPrice);
    AddedCost(p, side, qty, refPrice);
    AbsSum(cost, added);
    NotionalIs(p, cost);
    NotionalIs(FoldFill(p, Fill(side, qty, refPrice)), cost + added);
  }

  lemma {:induction false} NotionalIs(p: Position, cost: real)
    requires p.qty * p.avg == cost
    ensures Notional(p) == Abs(cost)
  {
  }

  lemma {:induction false} AddedCost(p: Position, side: Side, qty: real, refPrice: real)
    requires !IsReducing(p, side) && qty >= 0.0
    ensures var cost, added := p.qty * p.avg, SignedQty(side, qty) * refPrice;
            && Abs(added) == Abs(qty * refPrice)
            && (p.avg >= 0.0 && refPrice >= 0.0 ==> (cost >= 0.0 && added >= 0.0) || (cost <= 0.0 && added <= 0.0))
  {
    SameSign(p, side, qty);
    AbsProduct(qty, refPrice);
    AbsProduct(SignedQty(side, qty), refPrice);
    AbsProduct(p.qty, p.avg);
  }

  /** An approved trade that is not reducing leaves its symbol within the limit once it has filled at
      the reference price; and with prices that are not negative the gate refuses nothing more. */
  lemma {:induction false} ConcentrationExact(book: Book, symbol: string, side: Side, qty: real, refPrice: real, limit: real)
    requires UniqueSymbols(book) && qty >= 0.0
    requires !IsReducing(Holding(book, symbol), side)
    ensures var after := FoldTrade(book, symbol, Fill(side, qty, refPrice));
            && (!ConcentrationBreached(book, symbol, qty, refPrice, limit) ==> WithinShare(after, symbol, limit))
            && (Holding(book, symbol).avg >= 0.0 && refPrice >= 0.0 ==>
                  (WithinShare(after, symbol, limit) <==> !ConcentrationBreached(book, symbol, qty, refPrice, limit)))
  {
    hide ApplyToPosition;
    var f := Fill(side, qty, refPrice);
    var after := FoldTrade(book, symbol, f);
    var p := Holding(book, symbol);
    FoldTradeHolding(book, symbol, f);
    FoldTradeUnique(book, symbol, f);
    TotalSplits(after, symbol);
    GrowingNotional(p, side, qty, refPrice);
    var mine, bound, others := Notional(FoldFill(p, f)), Notional(p) + Abs(qty * refPrice), OtherNotional(book, symbol);
    assert TotalNotional(after) == mine + others;
    if mine + others > 0.0 {
      ShareMonotone(mine, bound, others);
    }
  }

  lemma {:induction false} AbsOfProduct(x: real, y: real)
    ensures Abs(x * y) == Abs(x) * Abs(y)
  {
    if x < 0.0 {
      assert -x * y == -(x * y);
    }
    if y < 0.0 {
      assert x * -y == -(x * y);
    }
  }

  /** What a trade against the position leaves of its notional: a close keeps the average, a flip stands
      at the fill price. */
  lemma {:induction false} ReducedNotional(p: Position, side: Side, qty: real, refPrice: real)
    requires IsReducing(p, side) && qty >= 0.0
    ensures var after := Notional(FoldFill(p, Fill(side, qty, refPrice)));
            && (qty <= Abs(p.qty) ==> after <= Notional(p))
            && (qty > Abs(p.qty) ==> after == (qty - Abs(p.qty)) * Abs(refPrice))
  {
    var r := FoldFill(p, Fill(side, qty, refPrice));
    AbsOfProduct(p.qty, p.avg);
    AbsOfProduct(r.qty, r.avg);
    if qty == 0.0 {
      ZeroFill(p.qty, p.avg, side, refPrice);
    } else if qty <= Abs(p.qty) {
      Scale(Abs(p.avg), Abs(r.qty), Abs(p.qty));
    }
  }

  /** A reducing trade is let through whatever it leaves behind. It keeps the symbol's share from growing,
      whatever the rest of the book holds, exactly when it does not flip through zero or flips into a
      position whose notional at the fill price is no larger than what was held. */
  lemma {:induction false} ReducingShareIff(p: Position, side: Side, qty: real, refPrice: real)
    requires IsReducing(p, side) && qty >= 0.0
    ensures (forall others: real :: others > 0.0 ==>
               Share(Notional(FoldFill(p, Fill(side, qty, refPrice))), others) <= Share(Notional(p), others))
        <==> qty <= Abs(p.qty) || (qty - Abs(p.qty)) * Abs(refPrice) <= Notional(p)
  {
    hide ApplyToPosition;
    var after := Notional(FoldFill(p, Fill(side, qty, refPrice)));
    ReducedNotional(p, side, qty, refPrice);
    if after <= Notional(p) {
      forall others: real | others > 0.0
        ensures Share(after, others) <= Share(Notional(p), others)
      {
        ShareMonotone(after, Notional(p), others);
      }
    } else {
      assert Share(after, 1.0) > Share(Notional(p), 1.0) by {
        StrictShare(Notional(p), after);
      }
    }
  }

  /** A holding's share of a portfolio whose other symbols hold `others`. */
  function Share(mine: real, others: real): real
    requires mine >= 0.0 && others > 0.0
  {
    mine / (mine + others)
  }

  lemma {:induction false} StrictShare(small: real, large: real)
    requires 0.0 <= small < large
    ensures small / (small + 1.0) < large / (large + 1.0)
  {
    var x, y := small / (small + 1.0), large / (large + 1.0);
    QuotientTimes(small, small + 1.0);
    QuotientTimes(large, large + 1.0);
    ShareMonotone(small, large, 1.0);
    if x == y {
      assert x * (large + 1.0) - x * (small + 1.0) == x * (large - small);
      CostDeterminesAverage(large - small, x, 1.0);
    }
  }

  /** The hole is real: selling 100 against a long position of 10 is waved through and leaves the
      symbol at ninety of ninety-nine, over a limit of nine tenths. */
  lemma {:induction false} FlipEscapesLimit()
    ensures var book := [Row("AAPL", Position(10.0, 1.0, 0.0)), Row("MSFT", Position(9.0, 1.0, 0.0))];
            && Verdict(Settings(0.0, 0.9), book, map[], 0, "AAPL", Sell, 100.0, 1.0) == Approved
            && WithinShare(book, "AAPL", 0.9)
            && !WithinShare(FoldTrade(book, "AAPL", Fill(Sell, 100.0, 1.0)), "AAPL", 0.9)
  {
    var book := [Row("AAPL", Position(10.0, 1.0, 0.0)), Row("MSFT", Position(9.0, 1.0, 0.0))];
    var after := FoldTrade(book, "AAPL", Fill(Sell, 100.0, 1.0));
    assert after == [Row("AAPL", Position(-90.0, 1.0, 0.0))] + book[1..];
    assert book[1..] == [Row("MSFT", Position(9.0, 1.0, 0.0))];
    assert after[1..] == book[1..];
    assert TotalNotional(book[1..]) == 9.0;
  }

  // ------------------------------------------------------------------ daily loss

  /** Every growing order is stopped while the realized total is more than the limit below `dayStart`,
      for every book, order and concentration limit. */
  ghost predicate StopsLossSince(dayStart: real, limit: real, concentration: real, baselines: map<Day, real>, today: Day) {
    forall book: Book, symbol: string, side: Side, qty: real, refPrice: real ::
      !IsReducing(Holding(book, symbol), side) && LossBreached(TotalRealized(book), dayStart, limit) ==>
        Verdict(Settings(limit, concentration), book, baselines, today, symbol, side, qty, refPrice) == DailyLossBreached
  }

  /** The check stops losses counted from the start of the day exactly when a baseline exists and is not
      below the realized total the day started with. */
  lemma {:induction false} DailyLossIff(dayStart: real, limit: real, concentration: real,
                                             baselines: map<Day, real>, today: Day)
    requires limit != 0.0
    ensures StopsLossSince(dayStart, limit, concentration, baselines, today)
        <==> today in baselines && baselines[today] >= dayStart
  {
    if today !in baselines || baselines[today] < dayStart {
      var total := if today in baselines then baselines[today] - Abs(limit) else dayStart - Abs(limit) - 1.0;
      var book := [Row("", Position(0.0, 0.0, total))];
      assert book[1..] == [] && TotalRealized(book) == total;
      assert !IsReducing(Holding(book, ""), Buy) && LossBreached(total, dayStart, limit);
      assert Verdict(Settings(limit, concentration), book, baselines, today, "", Buy, 0.0, 0.0) != DailyLossBreached;
    }
  }

  /** One day: orders checked and fills folded, in any order. */
  datatype Act = Check(symbol: string, side: Side, qty: real, refPrice: real) | Filled(symbol: string, fill: Fill)

  datatype Desk = Desk(book: Book, baselines: map<Day, real>)

  function ActOn(settings: Settings, today: Day, d: Desk, a: Act): Desk {
    match a
    case Check(symbol, side, _, _) => d.(baselines := BaselinesAfter(settings, d.book, d.baselines, today, symbol, side))
    case Filled(symbol, fill) => d.(book := FoldTrade(d.book, symbol, fill))
  }

  function RunDay(settings: Settings, today: Day, d: Desk, acts: seq<Act>): Desk
    decreases |acts|
  {
    if acts == [] then d else RunDay(settings, today, ActOn(settings, today, d, acts[0]), acts[1..])
  }

  /** The realized total at the first check of a growing order, if there has been one. */
  function FirstGrowing(book: Book, acts: seq<Act>): Option<real>
    decreases |acts|
  {
    if acts == [] then None
    else
      match acts[0]
      case Check(symbol, side, _, _) =>
        if IsReducing(Holding(book, symbol), side) then FirstGrowing(book, acts[1..]) else Some(TotalRealized(book))
      case Filled(symbol, fill) => FirstGrowing(FoldTrade(book, symbol, fill), acts[1..])
  }

  /** The baseline of a day is written once, at its first growing check, with the realized total of that
      moment; no other day is touched. */
  lemma {:induction false} BaselineWrittenOnce(settings: Settings, today: Day, d: Desk, acts: seq<Act>)
    requires settings.maxDailyLoss != 0.0
    ensures RunDay(settings, today, d, acts).baselines
         == match FirstGrowing(d.book, acts)
            case None => d.baselines
            case Some(total) => if today in d.baselines then d.baselines else d.baselines[today := total]
    decreases |acts|
  {
    hide FoldTrade, IsReducing, TotalRealized;
    if acts != [] {
      BaselineWrittenOnce(settings, today, ActOn(settings, today, d, acts[0]), acts[1..]);
    }
  }

  /** So over any day that starts without a baseline, whatever was checked and filled before, a growing
      order is stopped for its loss exactly when the realized total is more than the limit below what it
      was at the day's first growing check. */
  lemma {:induction false} GrowthStoppedIff(settings: Settings, today: Day, d: Desk, acts: seq<Act>,
                                            symbol: string, side: Side, qty: real, refPrice: real)
    requires settings.maxDailyLoss != 0.0 && today !in d.baselines
    requires !IsReducing(Holding(RunDay(settings, today, d, acts).book, symbol), side)
    ensures var now := RunDay(settings, today, d, acts);
            var first := FirstGrowing(d.book, acts);
            var verdict := Verdict(settings, now.book, now.baselines, today, symbol, side, qty, refPrice);
            var stopped := verdict == DailyLossBreached;
            stopped <==> (first.Some? && TotalRealized(now.book) < first.value - Abs(settings.maxDailyLoss))
  {
    hide RunDay, FirstGrowing, FoldTrade, TotalRealized, ConcentrationBreached;
    BaselineWrittenOnce(settings, today, d, acts);
  }

  /** Losses before the first growing check are not counted: a day opens with a sale that realizes a loss
      of 90 against a limit of 50, and the next order to buy is approved. */
  lemma {:induction false} LossBeforeFirstCheckEscapes()
    ensures var settings := Settings(50.0, 0.0);
            var opening := [Row("AAPL", Position(10.0, 10.0, 0.0))];
            var d := RunDay(settings, 0, Desk(opening, map[]), [Filled("AAPL", Fill(Sell, 10.0, 1.0))]);
            && LossBreached(TotalRealized(d.book), TotalRealized(opening), 50.0)
            && !IsReducing(Holding(d.book, "AAPL"), Buy)
            && Verdict(settings, d.book, d.baselines, 0, "AAPL", Buy, 1.0, 1.0) == Approved
  {
    var opening := [Row("AAPL", Position(10.0, 10.0, 0.0))];
    var acts := [Filled("AAPL", Fill(Sell, 10.0, 1.0))];
    assert acts[1..] == [] && opening[1..] == [];
    var after := FoldTrade(opening, "AAPL", Fill(Sell, 10.0, 1.0));
    assert after == [Row("AAPL", Position(0.0, 0.0, -90.0))];
    assert after[1..] == [] && TotalRealized(after) == -90.0 && TotalRealized(opening) == 0.0;
    assert RunDay(Settings(50.0, 0.0), 0, Desk(opening, map[]), acts) == Desk(after, map[]);
  }
}
