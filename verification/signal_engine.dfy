/** The trading bot's decision pass (control-api/app/signal_engine.py, evaluate_tenant): sizing against
    a risk budget shared by all open positions, entries and exits.

    An order is either refused or fills at the reference price. Prices are positive; money is exact. */
module SignalEngine {
  import opened Common
  import opened Text
  import Backtest
  import Forecast

  type Price = Backtest.Price

  const MaxRiskPct := 1.0
  const MaxBasket := 6
  const MaxPositionsCap := 10

  datatype Mode = Manual | Auto

  datatype Config = Config(mode: Mode, symbols: seq<string>, maxPositions: int,
                           paperCapital: real, riskPct: real, stopLossPct: real)

  /** A bot position, in the order the positions were opened. */
  datatype Holding = Holding(symbol: string, qty: int, entry: real, stop: real)

  type Book = seq<Holding>

  /** What the pass learns about one symbol: its forecast, and how orders for it would be answered. */
  datatype Quote = Quote(signal: Backtest.Signal, tradable: bool, accepted: bool)

  datatype Event =
    | ScreenError | TapeError
    | NoTrades | Waiting | Untradable | NoBudget | Refused
    | Opened(qty: int, entry: real, stop: real)
    | Holds
    | Closed(stopHit: bool, price: real)

  function Clamp(x: real, low: real, high: real): real {
    if x < low then low else if x > high then high else x
  }

  function RiskPct(c: Config): real {
    Clamp(c.riskPct, 0.0, MaxRiskPct)
  }

  /** The stop in use: the configured one or a tenth of a percent, whichever is larger. */
  function StopLossPct(c: Config): (p: real)
    ensures p >= 0.1 && p >= c.stopLossPct && (p == 0.1 || p == c.stopLossPct)
  {
    if c.stopLossPct < 0.1 then 0.1 else c.stopLossPct
  }

  function RiskCap(c: Config): real {
    (if c.paperCapital < 0.0 then 0.0 else c.paperCapital) * (RiskPct(c) / 100.0)
  }

  function MaxPositions(c: Config): (n: nat)
    ensures 1 <= n <= MaxPositionsCap
  {
    if c.maxPositions < 1 then 1 else if c.maxPositions > MaxPositionsCap then MaxPositionsCap else c.maxPositions
  }

  // ------------------------------------------------------------------ the book

  function RiskOf(h: Holding): real {
    (h.qty as real) * (h.entry - h.stop)
  }

  /** The loss the book takes if every position is sold at its stop. */
  function UsedRisk(book: Book): real {
    if book == [] then 0.0 else RiskOf(book[0]) + UsedRisk(book[1..])
  }

  function Find(book: Book, symbol: string): Option<Holding> {
    if book == [] then None
    else if book[0].symbol == symbol then Some(book[0])
    else Find(book[1..], symbol)
  }

  function Remove(book: Book, symbol: string): Book {
    if book == [] then []
    else if book[0].symbol == symbol then book[1..]
    else [book[0]] + Remove(book[1..], symbol)
  }

  ghost predicate Sound(book: Book) {
    && (forall i :: 0 <= i < |book| ==> book[i].qty >= 1 && book[i].entry > book[i].stop)
    && (forall i, j :: 0 <= i < j < |book| ==> book[i].symbol != book[j].symbol)
  }

  // ------------------------------------------------------------------ one symbol

  /** Whole shares that a stop-out could lose within the remaining budget. */
  function Size(cap: real, used: real, distance: real): int {
    var available := if cap - used < 0.0 then 0.0 else cap - used;
    if distance > 0.0 then (available / distance).Floor else 0
  }

  /** The decision for one symbol, and the book after it. */
  function Decide(cap: real, stopLossPct: real, book: Book, symbol: string, q: Quote): (Book, Event) {
    if q.signal.last.None? then (book, NoTrades)
    else
      var last := q.signal.last.value;
      match Find(book, symbol)
      case None =>
        var stop := Backtest.StopPrice(last, stopLossPct);
        var qty := Size(cap, UsedRisk(book), last - stop);
        if q.signal.trend != Forecast.Up then (book, Waiting)
        else if !q.tradable then (book, Untradable)
        else if qty < 1 then (book, NoBudget)
        else if !q.accepted then (book, Refused)
        else (book + [Holding(symbol, qty, last, stop)], Opened(qty, last, stop))
      case Some(h) =>
        var stopHit := last <= h.stop;
        if !(stopHit || q.signal.trend == Forecast.Down) then (book, Holds)
        else if !q.accepted then (book, Refused)
        else (Remove(book, symbol), Closed(stopHit, last))
  }

  function DecideAll(cap: real, stopLossPct: real, book: Book, symbols: seq<string>, quotes: seq<Quote>): (Book, seq<Event>)
    requires |quotes| == |symbols|
    decreases |symbols|
  {
    if symbols == [] then (book, [])
    else
      var (b, e) := Decide(cap, stopLossPct, book, symbols[0], quotes[0]);
      var (rest, events) := DecideAll(cap, stopLossPct, b, symbols[1..], quotes[1..]);
      (rest, [e] + events)
  }

  // ------------------------------------------------------------------ which symbols

  datatype Ranked = Ranked(symbol: string, trend: Forecast.Trend)

  function Symbols(book: Book): seq<string> {
    seq(|book|, i requires 0 <= i < |book| => book[i].symbol)
  }

  /** Keep first occurrences, as dict.fromkeys does. */
  function Dedupe(xs: seq<string>): (ys: seq<string>)
    ensures forall x :: x in ys <==> x in xs
  {
    if xs == [] then []
    else
      var init := Dedupe(xs[..|xs| - 1]);
      var last := xs[|xs| - 1];
      assert xs == xs[..|xs| - 1] + [last];
      if last in init then init else init + [last]
  }

  function Candidates(ranked: seq<Ranked>, held: seq<string>): seq<string> {
    if ranked == [] then []
    else
      (if ranked[0].trend == Forecast.Up && ranked[0].symbol !in held then [ranked[0].symbol] else [])
      + Candidates(ranked[1..], held)
  }

  /** The configured basket in upper case, empty entries left out. */
  function Basket(configured: seq<string>): seq<string> {
    if configured == [] then []
    else (if configured[0] != "" then [UpperAll(configured[0])] else []) + Basket(configured[1..])
  }

  /** In auto mode the positions held, then the best candidates for the free slots; in manual mode the
      configured basket. */
  function PassSymbols(c: Config, book: Book, ranked: seq<Ranked>): seq<string> {
    match c.mode
    case Auto =>
      var held := Symbols(book);
      var slots := if MaxPositions(c) > |held| then MaxPositions(c) - |held| else 0;
      Dedupe(held + Take(Candidates(ranked, held), slots))
    case Manual => Take(Dedupe(Basket(c.symbols)), MaxBasket)
  }

  function Pass(c: Config, book: Book, symbols: seq<string>, quotes: seq<Quote>): (Book, seq<Event>)
    requires |quotes| == |symbols|
  {
    DecideAll(RiskCap(c), StopLossPct(c), book, symbols, quotes)
  }

  /** What a pass makes of a position it looks at: gone when an accepted order takes it out at its stop or
      against the momentum, and as it was otherwise. */
  ghost predicate Watched(h: Holding, q: Quote, after: Book) {
    if q.signal.last.Some? && q.accepted && (q.signal.last.value <= h.stop || q.signal.trend == Forecast.Down)
    then forall p :: p in after ==> p.symbol != h.symbol
    else h in after
  }

  // ------------------------------------------------------------------ the program

  /** How a pass ends. */
  datatype Ending = NoScreen | NoSymbols | NoTape | Evaluated

  /** The stored positions of one tenant. */
  class Session {
    var positions: Book

    constructor ()
      ensures positions == []
    {
      positions := [];
    }

    /** The market as this pass sees it: forecasts, tradability and the answer to an order. */
    method QuoteFor(symbol: string) returns (q: Quote) {
      q := *;
    }

    /** The universe, screened and ranked by momentum; None when the screen raises. */
    method RankUniverse() returns (ranked: Option<seq<Ranked>>) {
      ranked := *;
    }

    /** Whether the shards could be read for the trade tape. */
    method FetchTape(symbols: seq<string>) returns (fetched: bool) {
      fetched := *;
    }

    /** One tenant's pass: which symbols, then one decision each. A screen or a tape that cannot be read, or
        nothing to look at, ends the pass with every position as it was. */
    method EvaluateTenant(c: Config)
      returns (ending: Ending, ghost ranked: seq<Ranked>, ghost quotes: seq<Quote>, log: seq<Event>)
      modifies this
      ensures ending.NoScreen? ==> c.mode.Auto? && positions == old(positions) && log == [ScreenError]
      ensures ending.NoSymbols? ==>
                PassSymbols(c, old(positions), ranked) == [] && positions == old(positions) && log == []
      ensures ending.NoTape? ==> positions == old(positions) && log == [TapeError]
      ensures !ending.NoScreen? && PassSymbols(c, old(positions), ranked) == [] ==> ending.NoSymbols?
      ensures ending.Evaluated? ==>
                && |quotes| == |PassSymbols(c, old(positions), ranked)|
                && (positions, log) == Pass(c, old(positions), PassSymbols(c, old(positions), ranked), quotes)
      ensures ending.Evaluated? && c.mode.Auto? && Sound(old(positions)) ==>
                && |quotes| >= |old(positions)|
                && forall i :: 0 <= i < |old(positions)| ==> Watched(old(positions)[i], quotes[i], positions)
      ensures Sound(old(positions)) && UsedRisk(old(positions)) <= RiskCap(c) ==>
                Sound(positions) && UsedRisk(positions) <= RiskCap(c)
    {
      ranked, quotes, log := [], [], [];
      var screened: seq<Ranked> := [];
      if c.mode.Auto? {
        var r := RankUniverse();
        if r.None? {
          return NoScreen, ranked, quotes, [ScreenError];
        }
        screened := r.value;
      }
      ranked := screened;
      var symbols := PassSymbols(c, positions, screened);
      if symbols == [] {
        return NoSymbols, ranked, quotes, log;
      }
      var fetched := FetchTape(symbols);
      if !fetched {
        return NoTape, ranked, quotes, [TapeError];
      }
      ending := Evaluated;
      ghost var before := positions;
      quotes, log := VisitSymbols(c, symbols);
      if c.mode.Auto? && Sound(before) {
        HeldAreWatched(c, before, ranked, quotes);
      }
      if Sound(before) {
        PassWithinBudget(RiskCap(c), StopLossPct(c), before, symbols, quotes, |symbols|);
        assert symbols[..|symbols|] == symbols && quotes[..|symbols|] == quotes;
      }
    }

    /** The pass's loop, over a working copy kept in step with the stored positions. */
    method VisitSymbols(c: Config, symbols: seq<string>) returns (ghost quotes: seq<Quote>, log: seq<Event>)
      modifies this
      ensures |quotes| == |symbols| && (positions, log) == Pass(c, old(positions), symbols, quotes)
    {
      hide Find, Remove, UsedRisk, Size, Backtest.StopPrice;
      var working := positions;
      var cap, stopLossPct := RiskCap(c), StopLossPct(c);
      quotes, log := [], [];
      for i := 0 to |symbols|
        invariant |quotes| == i && working == positions
        invariant DecideAll(cap, stopLossPct, old(positions), symbols[..i], quotes) == (positions, log)
      {
        var symbol := symbols[i];
        var q := QuoteFor(symbol);
        DecideAllSnoc(cap, stopLossPct, old(positions), symbols[..i], quotes, symbol, q);
        assert symbols[..i + 1] == symbols[..i] + [symbol];
        quotes := quotes + [q];
        if q.signal.last.None? {
          log := log + [NoTrades];
          continue;
        }
        var last := q.signal.last.value;
        var pos := Find(working, symbol);
        if pos.None? {
          if q.signal.trend != Forecast.Up {
            log := log + [Waiting];
            continue;
          }
          if !q.tradable {
            log := log + [Untradable];
            continue;
          }
          var stop := Backtest.StopPrice(last, stopLossPct);
          var distance := last - stop;
          var qty := Size(cap, UsedRisk(working), distance);
          if qty < 1 {
            log := log + [NoBudget];
            continue;
          }
          if !q.accepted {
            log := log + [Refused];
            continue;
          }
          var opened' := Holding(symbol, qty, last, stop);
          positions := positions + [opened'];
          working := working + [opened'];
          log := log + [Opened(qty, last, stop)];
          continue;
        }
        var stopHit := last <= pos.value.stop;
        if !(stopHit || q.signal.trend == Forecast.Down) {
          log := log + [Holds];
          continue;
        }
        if !q.accepted {
          log := log + [Refused];
          continue;
        }
        positions := Remove(positions, symbol);
        working := Remove(working, symbol);
        log := log + [Closed(stopHit, last)];
      }
      assert symbols[..|symbols|] == symbols;
    }
  }

  lemma {:induction false} DecideAllSnoc(cap: real, stopLossPct: real, book: Book, symbols: seq<string>,
                                         quotes: seq<Quote>, symbol: string, q: Quote)
    requires |quotes| == |symbols|
    ensures var (b, events) := DecideAll(cap, stopLossPct, book, symbols, quotes);
            var (after, e) := Decide(cap, stopLossPct, b, symbol, q);
            DecideAll(cap, stopLossPct, book, symbols + [symbol], quotes + [q]) == (after, events + [e])
    decreases |symbols|
  {
    hide Decide;
    var more, got := symbols + [symbol], quotes + [q];
    if symbols == [] {
      assert more[0] == symbol && more[1..] == [] && got[0] == q && got[1..] == [];
      var (after, e) := Decide(cap, stopLossPct, book, symbol, q);
      assert [e] + [] == [] + [e];
    } else {
      assert more[1..] == symbols[1..] + [symbol] && got[1..] == quotes[1..] + [q];
      var (b0, e0) := Decide(cap, stopLossPct, book, symbols[0], quotes[0]);
      DecideAllSnoc(cap, stopLossPct, b0, symbols[1..], quotes[1..], symbol, q);
      var (b, events) := DecideAll(cap, stopLossPct, b0, symbols[1..], quotes[1..]);
      var (after, e) := Decide(cap, stopLossPct, b, symbol, q);
      assert [e0] + (events + [e]) == [e0] + events + [e];
    }
  }

  // ------------------------------------------------------------------ the risk budget

  lemma {:induction false} UsedRiskConcat(x: Book, y: Book)
    ensures UsedRisk(x + y) == UsedRisk(x) + UsedRisk(y)
  {
    if x == [] {
      assert x + y == y;
    } else {
      assert (x + y)[1..] == x[1..] + y;
      UsedRiskConcat(x[1..], y);
    }
  }

  lemma {:induction false} RiskPositive(h: Holding)
    requires h.qty >= 1 && h.entry > h.stop
    ensures RiskOf(h) > 0.0
  {
  }

  lemma {:induction false} RemoveMembers(book: Book, symbol: string)
    ensures forall h :: h in Remove(book, symbol) ==> h in book
    ensures |Remove(book, symbol)| == if Find(book, symbol).Some? then |book| - 1 else |book|
  {
    if book != [] && book[0].symbol != symbol {
      RemoveMembers(book[1..], symbol);
    }
  }

  lemma {:induction false} FrontOfSound(h: Holding, rest: Book)
    requires Sound(rest) && h.qty >= 1 && h.entry > h.stop
    requires forall k :: 0 <= k < |rest| ==> rest[k].symbol != h.symbol
    ensures Sound([h] + rest) && UsedRisk([h] + rest) == RiskOf(h) + UsedRisk(rest)
  {
    hide RiskOf;
    assert ([h] + rest)[1..] == rest;
  }

  /** Closing a position gives its risk back. */
  lemma {:induction false} RemoveGivesBack(book: Book, symbol: string)
    requires Sound(book)
    ensures Sound(Remove(book, symbol)) && UsedRisk(Remove(book, symbol)) <= UsedRisk(book)
    ensures Find(Remove(book, symbol), symbol).None?
    ensures forall h :: h in Remove(book, symbol) ==> h in book
    ensures |Remove(book, symbol)| == if Find(book, symbol).Some? then |book| - 1 else |book|
  {
    hide RiskOf;
    RemoveMembers(book, symbol);
    if book != [] {
      RiskPositive(book[0]);
      if book[0].symbol == symbol {
        NotFound(book[1..], symbol);
      } else {
        var rest := Remove(book[1..], symbol);
        RemoveGivesBack(book[1..], symbol);
        assert forall k :: 0 <= k < |rest| ==> rest[k] in rest;
        FrontOfSound(book[0], rest);
      }
    }
  }

  lemma {:induction false} NotFound(book: Book, symbol: string)
    requires forall i :: 0 <= i < |book| ==> book[i].symbol != symbol
    ensures Find(book, symbol).None?
  {
    if book != [] {
      NotFound(book[1..], symbol);
    }
  }

  lemma {:induction false} FoundNowhere(book: Book, symbol: string)
    requires Find(book, symbol).None?
    ensures forall i :: 0 <= i < |book| ==> book[i].symbol != symbol
  {
    if book != [] {
      FoundNowhere(book[1..], symbol);
    }
  }

  /** The size is the largest that fits: one share more would break the budget. */
  lemma {:induction false} SizeIsLargest(cap: real, used: real, distance: real)
    requires distance > 0.0 && used <= cap
    ensures Size(cap, used, distance) >= 0
    ensures var n := Size(cap, used, distance) as real;
            used + n * distance <= cap < used + (n + 1.0) * distance
  {
    var q := (cap - used) / distance;
    assert q * distance == cap - used;
    var n := q.Floor as real;
    Scale(distance, n, q);
    StrictScale(distance, q, n + 1.0);
    if q < 0.0 {
      StrictScale(distance, q, 0.0);
    }
  }

  /** A sized position risks no more than what the budget had left. */
  lemma {:induction false} SizeFits(cap: real, used: real, distance: real)
    requires distance > 0.0 && Size(cap, used, distance) >= 1
    ensures used + (Size(cap, used, distance) as real) * distance <= cap
  {
    var available := if cap - used < 0.0 then 0.0 else cap - used;
    var q := available / distance;
    assert q * distance == available;
    Scale(distance, q.Floor as real, q);
    assert available == 0.0 ==> q == 0.0;
  }

  lemma {:induction false} StopBelow(last: Price, stopLossPct: real)
    requires stopLossPct > 0.0
    ensures Backtest.StopPrice(last, stopLossPct) < last
  {
    var share := stopLossPct / 100.0;
    assert share > 0.0;
    assert last * (1.0 - share) == last - last * share;
    ProductPositive(last, share);
  }

  function Max(x: real, y: real): real {
    if x >= y then x else y
  }

  lemma {:induction false} OpeningWithinBudget(cap: real, book: Book, symbol: string, last: Price, stop: real)
    requires Sound(book) && Find(book, symbol).None? && stop < last
    requires Size(cap, UsedRisk(book), last - stop) >= 1
    ensures var after := book + [Holding(symbol, Size(cap, UsedRisk(book), last - stop), last, stop)];
            Sound(after) && UsedRisk(after) <= cap
  {
    hide Size, RiskOf, UsedRisk;
    var used, distance := UsedRisk(book), last - stop;
    var qty := Size(cap, used, distance);
    var h := Holding(symbol, qty, last, stop);
    SizeFits(cap, used, distance);
    RiskOfNew(symbol, qty, last, stop);
    assert UsedRisk([h]) == (qty as real) * distance;
    UsedRiskConcat(book, [h]);
    FoundNowhere(book, symbol);
  }

  /** One decision: the book stays sound and its risk stays within the larger of the cap and what it was. */
  lemma {:induction false} DecideWithinBudget(cap: real, stopLossPct: real, book: Book, symbol: string, q: Quote)
    requires Sound(book) && stopLossPct > 0.0
    ensures var after := Decide(cap, stopLossPct, book, symbol, q).0;
            Sound(after) && UsedRisk(after) <= Max(cap, UsedRisk(book))
  {
    hide Size, UsedRisk, Sound, Backtest.StopPrice;
    if q.signal.last.Some? {
      var last := q.signal.last.value;
      var stop := Backtest.StopPrice(last, stopLossPct);
      StopBelow(last, stopLossPct);
      if Find(book, symbol).Some? {
        RemoveGivesBack(book, symbol);
      } else if Size(cap, UsedRisk(book), last - stop) >= 1 {
        OpeningWithinBudget(cap, book, symbol, last, stop);
      }
    }
  }

  /** A symbol that is not held is opened exactly when its momentum is up, it can be traded, the order is
      accepted and one share's loss at the stop still fits; and then with as many shares as fit. */
  lemma {:induction false} OpenedIff(cap: real, stopLossPct: real, book: Book, symbol: string, q: Quote)
    returns (n: int)
    requires stopLossPct > 0.0 && UsedRisk(book) <= cap && Find(book, symbol).None? && q.signal.last.Some?
    ensures var after := Decide(cap, stopLossPct, book, symbol, q).0;
            var last := q.signal.last.value;
            var stop := last * (1.0 - stopLossPct / 100.0);
            var opens := && q.signal.trend == Forecast.Up && q.tradable && q.accepted
                         && UsedRisk(book) + (last - stop) <= cap;
            && (!opens ==> after == book)
            && (opens ==> after == book + [Holding(symbol, n, last, stop)] && Fits(n, cap - UsedRisk(book), last - stop))
  {
    hide UsedRisk, Size, Find;
    var last := q.signal.last.value;
    var stop, used := Backtest.StopPrice(last, stopLossPct), UsedRisk(book);
    StopBelow(last, stopLossPct);
    SizeIsLargest(cap, used, last - stop);
    n := Size(cap, used, last - stop);
    if n >= 1 {
      Scale(last - stop, 1.0, n as real);
    }
  }

  /** `n` losses of this size fit into the budget, and not one more. */
  predicate Fits(n: int, budget: real, loss: real) {
    (n as real) * loss <= budget < (n as real + 1.0) * loss
  }

  lemma {:induction false} RiskOfNew(symbol: string, qty: int, entry: real, stop: real)
    ensures UsedRisk([Holding(symbol, qty, entry, stop)]) == (qty as real) * (entry - stop)
  {
    var h := Holding(symbol, qty, entry, stop);
    assert [h][1..] == [];
  }

  /** After every symbol of a pass, also in the middle, the risk at the stops is at most the larger of
      the cap and what it was before the pass. */
  lemma {:induction false} PassWithinBudget(cap: real, stopLossPct: real, book: Book,
                                            symbols: seq<string>, quotes: seq<Quote>, k: nat)
    requires Sound(book) && stopLossPct > 0.0 && |quotes| == |symbols| && k <= |symbols|
    ensures var after := DecideAll(cap, stopLossPct, book, symbols[..k], quotes[..k]).0;
            Sound(after) && UsedRisk(after) <= Max(cap, UsedRisk(book))
    decreases k
  {
    hide Decide;
    if k > 0 {
      DecideWithinBudget(cap, stopLossPct, book, symbols[0], quotes[0]);
      var b := Decide(cap, stopLossPct, book, symbols[0], quotes[0]).0;
      PassWithinBudget(cap, stopLossPct, b, symbols[1..], quotes[1..], k - 1);
      assert symbols[..k][1..] == symbols[1..][..k - 1] && quotes[..k][1..] == quotes[1..][..k - 1];
    }
  }

  /** What happens to a bot's book over time: passes, and positions closed or dropped by hand. */
  datatype Step = Evaluate(symbols: seq<string>, quotes: seq<Quote>) | DropPosition(symbol: string)

  function Apply(c: Config, book: Book, step: Step): Book {
    match step
    case Evaluate(symbols, quotes) => if |quotes| == |symbols| then Pass(c, book, symbols, quotes).0 else book
    case DropPosition(symbol) => Remove(book, symbol)
  }

  function Run(c: Config, book: Book, steps: seq<Step>): Book
    decreases |steps|
  {
    if steps == [] then book else Run(c, Apply(c, book, steps[0]), steps[1..])
  }

  /** A run is its steps in turn: a pass over what was held before it, or one position dropped. */
  lemma {:induction false} RunOneMore(c: Config, book: Book, steps: seq<Step>, step: Step)
    ensures Run(c, book, []) == book
    ensures var before := Run(c, book, steps);
            Run(c, book, steps + [step]) ==
              match step
              case Evaluate(symbols, quotes) =>
                if |quotes| == |symbols| then Pass(c, before, symbols, quotes).0 else before
              case DropPosition(symbol) => Remove(before, symbol)
    decreases |steps|
  {
    hide Pass, Remove;
    if steps == [] {
      assert [step][1..] == [] && [] + [step] == [step];
      assert Run(c, book, [step]) == Run(c, Apply(c, book, step), []);
    } else {
      assert (steps + [step])[1..] == steps[1..] + [step];
      RunOneMore(c, Apply(c, book, steps[0]), steps[1..], step);
    }
  }

  /** Over every run with a fixed configuration, starting flat, the risk at the stops never exceeds the
      cap, nor one percent of the paper capital. */
  lemma {:induction false} RunWithinCap(c: Config, book: Book, steps: seq<Step>)
    requires Sound(book) && UsedRisk(book) <= RiskCap(c)
    ensures Sound(Run(c, book, steps)) && UsedRisk(Run(c, book, steps)) <= RiskCap(c)
    decreases |steps|
  {
    hide RiskCap, Decide;
    if steps != [] {
      match steps[0] {
        case Evaluate(symbols, quotes) =>
          if |quotes| == |symbols| {
            PassWithinBudget(RiskCap(c), StopLossPct(c), book, symbols, quotes, |symbols|);
            assert symbols[..|symbols|] == symbols && quotes[..|symbols|] == quotes;
          }
        case DropPosition(symbol) => RemoveGivesBack(book, symbol);
      }
      RunWithinCap(c, Apply(c, book, steps[0]), steps[1..]);
    }
  }

  lemma {:induction false} CapIsOnePercent(c: Config)
    ensures 0.0 <= RiskCap(c)
    ensures c.paperCapital >= 0.0 ==> RiskCap(c) <= c.paperCapital / 100.0
  {
    var capital := if c.paperCapital < 0.0 then 0.0 else c.paperCapital;
    var share := RiskPct(c) / 100.0;
    assert 0.0 <= share <= 0.01;
    if capital > 0.0 {
      Scale(capital, share, 0.01);
      Scale(capital, 0.0, share);
    }
  }

  /** Within that limit the cap is the configured percentage of the capital, and above it one percent. */
  lemma {:induction false} CapIsTheShare(c: Config)
    requires c.paperCapital >= 0.0 && c.riskPct >= 0.0
    ensures RiskCap(c) == c.paperCapital * ((if c.riskPct <= 1.0 then c.riskPct else 1.0) / 100.0)
  {
  }

  lemma {:induction false} FlatRunWithinCap(c: Config, steps: seq<Step>)
    ensures UsedRisk(Run(c, [], steps)) <= RiskCap(c)
    ensures c.paperCapital >= 0.0 ==> UsedRisk(Run(c, [], steps)) <= c.paperCapital / 100.0
  {
    CapIsOnePercent(c);
    RunWithinCap(c, [], steps);
  }

  // ------------------------------------------------------------------ how many positions, and no reopening

  lemma {:induction false} DedupeDistinct(xs: seq<string>)
    ensures forall i, j :: 0 <= i < j < |Dedupe(xs)| ==> Dedupe(xs)[i] != Dedupe(xs)[j]
  {
    if xs != [] {
      DedupeDistinct(xs[..|xs| - 1]);
    }
  }

  /** Every symbol is visited once in a pass. */
  lemma {:induction false} SymbolsDistinct(c: Config, book: Book, ranked: seq<Ranked>)
    ensures var symbols := PassSymbols(c, book, ranked);
            forall i, j :: 0 <= i < j < |symbols| ==> symbols[i] != symbols[j]
  {
    match c.mode
    case Auto =>
      var held := Symbols(book);
      var slots := if MaxPositions(c) > |held| then MaxPositions(c) - |held| else 0;
      DedupeDistinct(held + Take(Candidates(ranked, held), slots));
    case Manual => DedupeDistinct(Basket(c.symbols));
  }

  /** A ranked symbol worth opening: its momentum is up and it is not held. */
  predicate Opens(r: Ranked, book: Book) {
    r.trend == Forecast.Up && forall h :: h in book ==> h.symbol != r.symbol
  }

  function CountOpens(ranked: seq<Ranked>, book: Book): nat {
    if ranked == [] then 0
    else CountOpens(ranked[..|ranked| - 1], book) + if Opens(ranked[|ranked| - 1], book) then 1 else 0
  }

  lemma {:induction false} CandidatesSnoc(ranked: seq<Ranked>, r: Ranked, held: seq<string>)
    ensures Candidates(ranked + [r], held)
         == Candidates(ranked, held) + if r.trend == Forecast.Up && r.symbol !in held then [r.symbol] else []
  {
    if ranked == [] {
      CandidatesFront(r, [], held);
      assert [] + [r] == [r] + [];
    } else {
      hide Candidates;
      var rest := ranked[1..];
      CandidatesFront(ranked[0], rest, held);
      CandidatesFront(ranked[0], rest + [r], held);
      CandidatesSnoc(rest, r, held);
      assert ranked == [ranked[0]] + rest && ranked + [r] == [ranked[0]] + (rest + [r]);
    }
  }

  lemma {:induction false} CandidatesFront(r: Ranked, rest: seq<Ranked>, held: seq<string>)
    ensures Candidates([r] + rest, held)
         == (if r.trend == Forecast.Up && r.symbol !in held then [r.symbol] else []) + Candidates(rest, held)
  {
    assert ([r] + rest)[1..] == rest;
  }

  lemma {:induction false} HeldSymbols(book: Book, symbol: string)
    ensures symbol in Symbols(book) <==> exists h :: h in book && h.symbol == symbol
  {
    if h :| h in book && h.symbol == symbol {
      var i :| 0 <= i < |book| && book[i] == h;
      assert Symbols(book)[i] == symbol;
    }
  }

  /** The candidate a free slot goes to: the one with as many candidates before it in the ranking. */
  lemma {:induction false} CandidateAt(ranked: seq<Ranked>, book: Book, j: nat) returns (r: nat)
    requires j < |Candidates(ranked, Symbols(book))|
    ensures r < |ranked| && Opens(ranked[r], book) && CountOpens(ranked[..r], book) == j
    ensures Candidates(ranked, Symbols(book))[j] == ranked[r].symbol
  {
    var n := |ranked| - 1;
    var init, last := ranked[..n], ranked[n];
    assert ranked == init + [last];
    CandidatesSnoc(init, last, Symbols(book));
    HeldSymbols(book, last.symbol);
    CandidatesCount(init, book);
    if j < |Candidates(init, Symbols(book))| {
      r := CandidateAt(init, book, j);
      assert init[..r] == ranked[..r];
    } else {
      r := n;
    }
  }

  lemma {:induction false} CandidatesCount(ranked: seq<Ranked>, book: Book)
    ensures |Candidates(ranked, Symbols(book))| == CountOpens(ranked, book)
  {
    if ranked != [] {
      var n := |ranked| - 1;
      assert ranked == ranked[..n] + [ranked[n]];
      CandidatesSnoc(ranked[..n], ranked[n], Symbols(book));
      HeldSymbols(book, ranked[n].symbol);
      CandidatesCount(ranked[..n], book);
    }
  }

  lemma {:induction false} DedupeKeepsDistinct(xs: seq<string>)
    requires Distinct(xs)
    ensures Dedupe(xs) == xs
  {
    if xs != [] {
      var init := xs[..|xs| - 1];
      DedupeKeepsDistinct(init);
      assert xs == init + [xs[|xs| - 1]];
    }
  }

  lemma {:induction false} CandidatesDistinct(ranked: seq<Ranked>, book: Book, slots: nat)
    requires Sound(book) && forall i, j :: 0 <= i < j < |ranked| ==> ranked[i].symbol != ranked[j].symbol
    ensures Distinct(Symbols(book) + Take(Candidates(ranked, Symbols(book)), slots))
  {
    var picks := Candidates(ranked, Symbols(book));
    forall j, k | 0 <= j < k < |picks|
      ensures picks[j] != picks[k]
    {
      var r := CandidateAt(ranked, book, j);
      var q := CandidateAt(ranked, book, k);
      assert r != q;
    }
    forall j, i | 0 <= j < |picks| && 0 <= i < |book|
      ensures picks[j] != book[i].symbol
    {
      var r := CandidateAt(ranked, book, j);
      assert book[i] in book;
    }
  }

  /** The ranked candidate with exactly `j` candidates before it. */
  ghost predicate IsCandidate(ranked: seq<Ranked>, book: Book, j: int, symbol: string) {
    exists r :: 0 <= r < |ranked| && Opens(ranked[r], book) && CountOpens(ranked[..r], book) == j && ranked[r].symbol == symbol
  }

  lemma {:induction false} PicksAreCandidates(ranked: seq<Ranked>, book: Book, slots: nat)
    ensures var picks := Take(Candidates(ranked, Symbols(book)), slots);
            && |picks| == (if slots <= CountOpens(ranked, book) then slots else CountOpens(ranked, book))
            && forall j :: 0 <= j < |picks| ==> IsCandidate(ranked, book, j, picks[j])
  {
    var picks := Take(Candidates(ranked, Symbols(book)), slots);
    CandidatesCount(ranked, book);
    forall j | 0 <= j < |picks|
      ensures IsCandidate(ranked, book, j, picks[j])
    {
      var r := CandidateAt(ranked, book, j);
    }
  }

  /** Which symbols an auto pass visits, in order: every position held, in the order they were opened, and
      then, for as many slots as are free and candidates there are, the candidates in rank order. */
  lemma {:induction false} AutoSymbols(c: Config, book: Book, ranked: seq<Ranked>)
    requires c.mode.Auto? && Sound(book)
    requires forall i, j :: 0 <= i < j < |ranked| ==> ranked[i].symbol != ranked[j].symbol
    ensures var symbols := PassSymbols(c, book, ranked);
            var most := if c.maxPositions < 1 then 1 else if c.maxPositions > 10 then 10 else c.maxPositions;
            var free := if most > |book| then most - |book| else 0;
            && |symbols| == |book| + (if free <= CountOpens(ranked, book) then free else CountOpens(ranked, book))
            && (forall i :: 0 <= i < |book| ==> symbols[i] == book[i].symbol)
            && (forall k :: |book| <= k < |symbols| ==> IsCandidate(ranked, book, k - |book|, symbols[k]))
  {
    hide Candidates, Dedupe, CountOpens, IsCandidate, Sound, Distinct, Take;
    var held := Symbols(book);
    var slots := if MaxPositions(c) > |held| then MaxPositions(c) - |held| else 0;
    var picks := Take(Candidates(ranked, held), slots);
    CandidatesDistinct(ranked, book, slots);
    DedupeKeepsDistinct(held + picks);
    PicksAreCandidates(ranked, book, slots);
    var symbols := PassSymbols(c, book, ranked);
    forall k | |book| <= k < |symbols|
      ensures IsCandidate(ranked, book, k - |book|, symbols[k])
    {
      assert symbols[k] == picks[k - |book|];
    }
  }

  /** Whatever is ranked and however it repeats, an auto pass visits every position held first. */
  lemma {:induction false} HeldAreVisited(c: Config, book: Book, ranked: seq<Ranked>, i: nat)
    requires c.mode.Auto? && Sound(book) && i < |book|
    ensures i < |PassSymbols(c, book, ranked)| && PassSymbols(c, book, ranked)[i] == book[i].symbol
  {
    var held := Symbols(book);
    var slots := if MaxPositions(c) > |held| then MaxPositions(c) - |held| else 0;
    DedupePrefix(held, Take(Candidates(ranked, held), slots));
  }

  lemma {:induction false} DedupePrefix(xs: seq<string>, ys: seq<string>)
    requires Distinct(xs)
    ensures xs <= Dedupe(xs + ys)
  {
    if ys == [] {
      DedupeKeepsDistinct(xs);
      assert xs + ys == xs;
    } else {
      var init := ys[..|ys| - 1];
      DedupePrefix(xs, init);
      assert (xs + ys)[..|xs + ys| - 1] == xs + init;
    }
  }

  lemma {:induction false} BasketHolds(configured: seq<string>, symbol: string)
    ensures symbol in Basket(configured)
       <==> exists k :: 0 <= k < |configured| && configured[k] != "" && UpperAll(configured[k]) == symbol
  {
    hide UpperAll;
    if configured != [] {
      var rest := configured[1..];
      BasketHolds(rest, symbol);
      if symbol in Basket(rest) {
        var k :| 0 <= k < |rest| && rest[k] != "" && UpperAll(rest[k]) == symbol;
        assert configured[k + 1] == rest[k];
      }
      forall k | 0 <= k < |configured| && configured[k] != "" && UpperAll(configured[k]) == symbol
        ensures symbol in Basket(configured)
      {
        if k > 0 {
          assert rest[k - 1] == configured[k];
        }
      }
    }
  }

  lemma {:induction false} BasketConcat(x: seq<string>, y: seq<string>)
    ensures Basket(x + y) == Basket(x) + Basket(y)
  {
    hide UpperAll;
    if x == [] {
      assert x + y == y;
    } else {
      assert (x + y)[1..] == x[1..] + y;
      BasketConcat(x[1..], y);
    }
  }

  /** The `k`-th distinct symbol of a list: where it first stands, exactly the ones before it have stood. */
  lemma {:induction false} DedupeAt(xs: seq<string>, k: nat) returns (r: nat)
    requires k < |Dedupe(xs)|
    ensures r < |xs| && xs[r] == Dedupe(xs)[k]
    ensures forall s :: s in xs[..r] <==> s in Dedupe(xs)[..k]
  {
    var n := |xs| - 1;
    var init := xs[..n];
    if k < |Dedupe(init)| {
      r := DedupeAt(init, k);
      assert init[..r] == xs[..r] && Dedupe(init)[..k] == Dedupe(xs)[..k];
    } else {
      r := n;
      assert Dedupe(xs)[..k] == Dedupe(init);
    }
  }

  /** In manual mode the symbols come in the order in which they are first configured. */
  lemma {:induction false} ManualOrder(c: Config, book: Book, ranked: seq<Ranked>, k: nat) returns (r: nat)
    requires c.mode.Manual? && k < |PassSymbols(c, book, ranked)|
    ensures r < |Basket(c.symbols)| && Basket(c.symbols)[r] == PassSymbols(c, book, ranked)[k]
    ensures forall s :: s in Basket(c.symbols)[..r] <==> s in PassSymbols(c, book, ranked)[..k]
  {
    hide Basket, Dedupe;
    r := DedupeAt(Basket(c.symbols), k);
    assert PassSymbols(c, book, ranked)[..k] == Dedupe(Basket(c.symbols))[..k];
  }

  /** In manual mode a pass visits only configured symbols, in upper case, at most six of them; and all of
      them when at most six differ. */
  lemma {:induction false} ManualSymbols(c: Config, book: Book, ranked: seq<Ranked>, symbol: string)
    requires c.mode.Manual?
    ensures var symbols := PassSymbols(c, book, ranked);
            var configured := exists k :: 0 <= k < |c.symbols| && c.symbols[k] != "" && UpperAll(c.symbols[k]) == symbol;
            && |symbols| <= 6
            && (symbol in symbols ==> configured)
            && (|Dedupe(Basket(c.symbols))| <= 6 && configured ==> symbol in symbols)
  {
    hide Basket, Dedupe;
    BasketHolds(c.symbols, symbol);
  }

  /** A decision touches no symbol but its own. */
  lemma {:induction false} DecideIsLocal(cap: real, stopLossPct: real, book: Book, symbol: string, q: Quote, other: string)
    requires other != symbol
    ensures Find(Decide(cap, stopLossPct, book, symbol, q).0, other) == Find(book, other)
  {
    hide Size, UsedRisk, Backtest.StopPrice;
    FindRemoved(book, symbol, other);
    if q.signal.last.Some? {
      var stop := Backtest.StopPrice(q.signal.last.value, stopLossPct);
      FindAdded(book, Holding(symbol, Size(cap, UsedRisk(book), q.signal.last.value - stop), q.signal.last.value, stop), other);
    }
  }

  lemma {:induction false} FindRemoved(book: Book, symbol: string, other: string)
    requires other != symbol
    ensures Find(Remove(book, symbol), other) == Find(book, other)
  {
    if book != [] && book[0].symbol != symbol {
      FindRemoved(book[1..], symbol, other);
      assert Remove(book, symbol)[1..] == Remove(book[1..], symbol);
    }
  }

  lemma {:induction false} FindAdded(book: Book, h: Holding, other: string)
    ensures h.symbol != other ==> Find(book + [h], other) == Find(book, other)
  {
    if book != [] {
      FindAdded(book[1..], h, other);
      assert (book + [h])[1..] == book[1..] + [h];
    } else {
      assert [h][1..] == [];
    }
  }

  lemma {:induction false} LaterVisitsAreLocal(cap: real, stopLossPct: real, book: Book, symbols: seq<string>,
                                               quotes: seq<Quote>, other: string)
    requires |quotes| == |symbols| && other !in symbols
    ensures Find(DecideAll(cap, stopLossPct, book, symbols, quotes).0, other) == Find(book, other)
    decreases |symbols|
  {
    hide Decide;
    if symbols != [] {
      DecideIsLocal(cap, stopLossPct, book, symbols[0], quotes[0], other);
      LaterVisitsAreLocal(cap, stopLossPct, Decide(cap, stopLossPct, book, symbols[0], quotes[0]).0,
                          symbols[1..], quotes[1..], other);
    }
  }

  lemma {:induction false} FoundIsMember(book: Book, h: Holding)
    requires Find(book, h.symbol) == Some(h)
    ensures h in book
  {
    if book != [] && book[0].symbol != h.symbol {
      FoundIsMember(book[1..], h);
    }
  }

  lemma {:induction false} MemberIsFound(book: Book, i: nat)
    requires Sound(book) && i < |book|
    ensures Find(book, book[i].symbol) == Some(book[i])
  {
    if i > 0 {
      MemberIsFound(book[1..], i - 1);
    }
  }

  /** The visit to a held symbol decides its fate for the whole pass. */
  lemma {:induction false} HeldIsWatched(cap: real, stopLossPct: real, book: Book, symbols: seq<string>, quotes: seq<Quote>,
                                         k: nat, h: Holding)
    requires Sound(book) && stopLossPct > 0.0 && |quotes| == |symbols| && k < |symbols|
    requires forall i, j :: 0 <= i < j < |symbols| ==> symbols[i] != symbols[j]
    requires Find(book, symbols[k]) == Some(h) && h.symbol == symbols[k]
    ensures Watched(h, quotes[k], DecideAll(cap, stopLossPct, book, symbols, quotes).0)
    decreases k
  {
    var b := Decide(cap, stopLossPct, book, symbols[0], quotes[0]).0;
    if k > 0 {
      DecideIsLocal(cap, stopLossPct, book, symbols[0], quotes[0], symbols[k]);
      DecideWithinBudget(cap, stopLossPct, book, symbols[0], quotes[0]);
      hide Decide, Find, Watched;
      HeldIsWatched(cap, stopLossPct, b, symbols[1..], quotes[1..], k - 1, h);
    } else {
      RemoveGivesBack(book, symbols[0]);
      LaterVisitsAreLocal(cap, stopLossPct, b, symbols[1..], quotes[1..], symbols[0]);
      var after := DecideAll(cap, stopLossPct, book, symbols, quotes).0;
      hide DecideAll, Size, UsedRisk, Remove, Sound;
      if Find(after, h.symbol).None? {
        FoundNowhere(after, h.symbol);
      } else {
        FoundIsMember(after, h);
      }
    }
  }

  /** So in auto mode every position held is looked at, and leaves exactly when its rules say so. */
  lemma {:induction false} HeldAreWatched(c: Config, book: Book, ranked: seq<Ranked>, quotes: seq<Quote>)
    requires c.mode.Auto? && Sound(book) && |quotes| == |PassSymbols(c, book, ranked)|
    ensures |quotes| >= |book|
    ensures var after := Pass(c, book, PassSymbols(c, book, ranked), quotes).0;
            forall i :: 0 <= i < |book| ==> Watched(book[i], quotes[i], after)
  {
    hide PassSymbols, Watched, DecideAll, Find, RiskCap, StopLossPct;
    var symbols := PassSymbols(c, book, ranked);
    SymbolsDistinct(c, book, ranked);
    if book != [] {
      HeldAreVisited(c, book, ranked, |book| - 1);
    }
    forall i | 0 <= i < |book|
      ensures Watched(book[i], quotes[i], Pass(c, book, symbols, quotes).0)
    {
      HeldAreVisited(c, book, ranked, i);
      MemberIsFound(book, i);
      HeldIsWatched(RiskCap(c), StopLossPct(c), book, symbols, quotes, i, book[i]);
    }
  }

  /** A symbol closed in a pass is not held when the pass ends. */
  lemma {:induction false} ClosedStaysClosed(cap: real, stopLossPct: real, book: Book, symbols: seq<string>,
                                             quotes: seq<Quote>, k: nat)
    requires Sound(book) && stopLossPct > 0.0 && |quotes| == |symbols|
    requires forall i, j :: 0 <= i < j < |symbols| ==> symbols[i] != symbols[j]
    requires k < |DecideAll(cap, stopLossPct, book, symbols, quotes).1| == |symbols|
    requires DecideAll(cap, stopLossPct, book, symbols, quotes).1[k].Closed?
    ensures Find(DecideAll(cap, stopLossPct, book, symbols, quotes).0, symbols[k]).None?
    decreases k
  {
    var b := Decide(cap, stopLossPct, book, symbols[0], quotes[0]).0;
    if k == 0 {
      RemoveGivesBack(book, symbols[0]);
      LaterVisitsAreLocal(cap, stopLossPct, b, symbols[1..], quotes[1..], symbols[0]);
    } else {
      DecideWithinBudget(cap, stopLossPct, book, symbols[0], quotes[0]);
      hide Decide;
      var (rest, events) := DecideAll(cap, stopLossPct, b, symbols[1..], quotes[1..]);
      assert DecideAll(cap, stopLossPct, book, symbols, quotes).1[1..] == events;
      EventsPerSymbol(cap, stopLossPct, b, symbols[1..], quotes[1..]);
      ClosedStaysClosed(cap, stopLossPct, b, symbols[1..], quotes[1..], k - 1);
    }
  }

  lemma {:induction false} EventsPerSymbol(cap: real, stopLossPct: real, book: Book, symbols: seq<string>, quotes: seq<Quote>)
    requires |quotes| == |symbols|
    ensures |DecideAll(cap, stopLossPct, book, symbols, quotes).1| == |symbols|
    decreases |symbols|
  {
    hide Decide;
    if symbols != [] {
      EventsPerSymbol(cap, stopLossPct, Decide(cap, stopLossPct, book, symbols[0], quotes[0]).0, symbols[1..], quotes[1..]);
    }
  }

  /** No decision grows the book by more than one, and only a symbol that was not held can do so. */
  lemma {:induction false} DecideGrowth(cap: real, stopLossPct: real, book: Book, symbol: string, q: Quote)
    requires Sound(book)
    ensures |Decide(cap, stopLossPct, book, symbol, q).0| <= |book| + if Find(book, symbol).Some? then 0 else 1
  {
    hide Size, UsedRisk, Backtest.StopPrice;
    RemoveGivesBack(book, symbol);
  }

  /** How many of the symbols a book does not hold. */
  function Unheld(book: Book, symbols: seq<string>): nat {
    if symbols == [] then 0
    else (if Find(book, symbols[0]).Some? then 0 else 1) + Unheld(book, symbols[1..])
  }

  lemma {:induction false} UnheldFrame(a: Book, b: Book, symbols: seq<string>)
    requires forall s :: s in symbols ==> Find(a, s) == Find(b, s)
    ensures Unheld(a, symbols) == Unheld(b, symbols)
  {
    if symbols != [] {
      assert symbols[0] in symbols;
      UnheldFrame(a, b, symbols[1..]);
    }
  }

  lemma {:induction false} PassGrowth(cap: real, stopLossPct: real, book: Book, symbols: seq<string>,
                                      quotes: seq<Quote>, k: nat)
    requires Sound(book) && stopLossPct > 0.0 && |quotes| == |symbols| && k <= |symbols|
    requires forall i, j :: 0 <= i < j < |symbols| ==> symbols[i] != symbols[j]
    ensures |DecideAll(cap, stopLossPct, book, symbols[..k], quotes[..k]).0| <= |book| + Unheld(book, symbols)
    decreases k
  {
    hide Decide;
    if k > 0 {
      var b := Decide(cap, stopLossPct, book, symbols[0], quotes[0]).0;
      DecideGrowth(cap, stopLossPct, book, symbols[0], quotes[0]);
      DecideWithinBudget(cap, stopLossPct, book, symbols[0], quotes[0]);
      forall s | s in symbols[1..]
        ensures Find(b, s) == Find(book, s)
      {
        DecideIsLocal(cap, stopLossPct, book, symbols[0], quotes[0], s);
      }
      UnheldFrame(b, book, symbols[1..]);
      PassGrowth(cap, stopLossPct, b, symbols[1..], quotes[1..], k - 1);
      assert symbols[..k][1..] == symbols[1..][..k - 1] && quotes[..k][1..] == quotes[1..][..k - 1];
    }
  }

  lemma {:induction false} UnheldConcat(book: Book, x: seq<string>, y: seq<string>)
    ensures Unheld(book, x + y) == Unheld(book, x) + Unheld(book, y)
    ensures Unheld(book, x) <= |x|
  {
    if x == [] {
      assert x + y == y;
    } else {
      assert (x + y)[1..] == x[1..] + y;
      UnheldConcat(book, x[1..], y);
    }
  }

  lemma {:induction false} UnheldOwn(book: Book, symbols: seq<string>)
    requires forall s :: s in symbols ==> Find(book, s).Some?
    ensures Unheld(book, symbols) == 0
  {
    if symbols != [] {
      assert symbols[0] in symbols;
      UnheldOwn(book, symbols[1..]);
    }
  }

  lemma {:induction false} FindsOwn(book: Book, i: nat)
    requires i < |book|
    ensures Find(book, book[i].symbol).Some?
  {
    if i > 0 && book[0].symbol != book[i].symbol {
      FindsOwn(book[1..], i - 1);
    }
  }

  lemma {:induction false} DedupeUnheld(book: Book, xs: seq<string>)
    ensures Unheld(book, Dedupe(xs)) <= Unheld(book, xs)
  {
    if xs != [] {
      var init, last := xs[..|xs| - 1], xs[|xs| - 1];
      DedupeUnheld(book, init);
      assert xs == init + [last];
      UnheldConcat(book, init, [last]);
      UnheldConcat(book, Dedupe(init), [last]);
    }
  }

  /** In auto mode, at every point of a pass, the number of open positions is at most the larger of what
      was held before and the configured maximum. */
  lemma {:induction false} AutoPositionsBounded(c: Config, book: Book, ranked: seq<Ranked>, quotes: seq<Quote>, k: nat)
    requires Sound(book) && c.mode.Auto?
    requires |quotes| == |PassSymbols(c, book, ranked)| && k <= |quotes|
    ensures var symbols := PassSymbols(c, book, ranked);
            |DecideAll(RiskCap(c), StopLossPct(c), book, symbols[..k], quotes[..k]).0|
              <= if |book| > MaxPositions(c) then |book| else MaxPositions(c)
  {
    hide RiskCap, StopLossPct, DecideAll, Candidates, Dedupe, Find, Unheld;
    var held := Symbols(book);
    var slots := if MaxPositions(c) > |held| then MaxPositions(c) - |held| else 0;
    var picks := Take(Candidates(ranked, held), slots);
    forall s | s in held
      ensures Find(book, s).Some?
    {
      var i :| 0 <= i < |book| && book[i].symbol == s;
      FindsOwn(book, i);
    }
    UnheldOwn(book, held);
    UnheldConcat(book, held, picks);
    UnheldConcat(book, picks, []);
    DedupeUnheld(book, held + picks);
    SymbolsDistinct(c, book, ranked);
    PassGrowth(RiskCap(c), StopLossPct(c), book, PassSymbols(c, book, ranked), quotes, k);
  }
}
