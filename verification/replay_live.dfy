/** The replay's claim to simulate the live bot: on the same signals for a symbol the two enter and
    leave at the same points, at the same prices, for the same reasons, as long as the live side is
    given what the replay takes for granted. */
module ReplayLive {
  import opened Backtest
  import opened Common
  import Engine = SignalEngine

  type Book = Engine.Book

  /** One observable action of either side. */
  datatype Action = Stay | Enter(price: real, stop: real) | Exit(price: real, stopHit: bool)

  /** What the replay does at a decision point, read off its state before and after. */
  function ReplayAction(before: Replay, after: Replay): Action {
    if before.position.None? && after.position.Some?
    then Enter(after.position.value.entryPrice, after.position.value.stopPrice)
    else if before.position.Some? && after.position.None? && |after.trades| > 0
    then
      var t := after.trades[|after.trades| - 1];
      Exit(t.exitPrice, t.reason == StopLoss)
    else Stay
  }

  /** What the live bot does, read off its log entry. */
  function LiveAction(e: Engine.Event): Action {
    match e
    case Opened(_, entry, stop) => Enter(entry, stop)
    case Closed(stopHit, price) => Exit(price, stopHit)
    case _ => Stay
  }

  /** Both sides hold the same position in the symbol, or neither holds one. */
  ghost predicate Matched(r: Replay, book: Book, symbol: string) {
    match r.position
    case None => Engine.Find(book, symbol).None?
    case Some(h) =>
      var live := Engine.Find(book, symbol);
      live.Some? && live.value.entry == h.entryPrice && live.value.stop == h.stopPrice
  }

  /** The live side can act: to enter it needs a tradable symbol, an accepted order and budget for one
      share; to leave it needs an accepted order. */
  predicate CanAct(cap: real, stopLossPct: real, book: Book, symbol: string, q: Engine.Quote)
    requires q.signal.last.Some?
  {
    var last := q.signal.last.value;
    match Engine.Find(book, symbol)
    case None =>
      q.tradable && q.accepted
      && Engine.Size(cap, Engine.UsedRisk(book), last - StopPrice(last, stopLossPct)) >= 1
    case Some(_) => q.accepted
  }

  /** The rules ask for an entry or an exit. */
  predicate WantsToAct(book: Book, symbol: string, signal: Signal) {
    && signal.last.Some?
    && match Engine.Find(book, symbol)
       case None => signal.trend == Forecast.Up
       case Some(h) => signal.last.value <= h.stop || signal.trend == Forecast.Down
  }

  /** One decision from matched positions: the actions agree exactly when the rules ask for nothing or
      the live side can act. */
  lemma {:induction false} SameActionIff(c: Config, cap: real, r: Replay, book: Book, symbol: string, cursor: int, q: Engine.Quote)
    requires Engine.Sound(book) && Matched(r, book, symbol)
    ensures var after := Decide(c, r, cursor, q.signal);
            var e := Engine.Decide(cap, c.stopLossPct, book, symbol, q).1;
            var agree := ReplayAction(r, after) == LiveAction(e);
            agree <==> (WantsToAct(book, symbol, q.signal) ==> CanAct(cap, c.stopLossPct, book, symbol, q))
  {
    hide Engine.Size, StopPrice, PnlPct;
  }

  /** When they agree the positions still match, and the symbol's entry and stop are the replay's. */
  lemma {:induction false} SameActionKeepsMatch(c: Config, cap: real, r: Replay, book: Book, symbol: string, cursor: int, q: Engine.Quote)
    requires Engine.Sound(book) && Matched(r, book, symbol)
    requires WantsToAct(book, symbol, q.signal) ==> CanAct(cap, c.stopLossPct, book, symbol, q)
    ensures Matched(Decide(c, r, cursor, q.signal), Engine.Decide(cap, c.stopLossPct, book, symbol, q).0, symbol)
  {
    hide Engine.Size, Engine.UsedRisk, StopPrice, PnlPct;
    Engine.RemoveGivesBack(book, symbol);
    if q.signal.last.Some? && Engine.Find(book, symbol).None? {
      var last := q.signal.last.value;
      var stop := StopPrice(last, c.stopLossPct);
      FindNew(book, Engine.Holding(symbol, Engine.Size(cap, Engine.UsedRisk(book), last - stop), last, stop));
    }
  }

  lemma {:induction false} FindNew(book: Book, h: Engine.Holding)
    requires Engine.Find(book, h.symbol).None?
    ensures Engine.Find(book + [h], h.symbol) == Some(h)
  {
    if book != [] {
      FindNew(book[1..], h);
      assert (book + [h])[1..] == book[1..] + [h];
    }
  }

  // ------------------------------------------------------------------ one pass of the live bot

  /** A pass that visits the symbol once, at position `at`. */
  datatype LivePass = LivePass(symbols: seq<string>, quotes: seq<Engine.Quote>, at: nat)

  ghost predicate Visits(p: LivePass, symbol: string) {
    && |p.quotes| == |p.symbols| && p.at < |p.symbols|
    && forall i :: 0 <= i < |p.symbols| ==> (p.symbols[i] == symbol <==> i == p.at)
  }

  /** The book when the pass comes to the symbol, after the symbols before it. */
  function BookAt(engine: Engine.Config, book: Book, p: LivePass): Book
    requires |p.quotes| == |p.symbols| && p.at < |p.symbols|
  {
    Engine.Pass(engine, book, p.symbols[..p.at], p.quotes[..p.at]).0
  }

  function BookAfter(engine: Engine.Config, book: Book, p: LivePass): Book
    requires |p.quotes| == |p.symbols|
  {
    Engine.Pass(engine, book, p.symbols, p.quotes).0
  }

  /** What the pass logs for the symbol. */
  function EventOf(engine: Engine.Config, book: Book, p: LivePass): Engine.Event
    requires |p.quotes| == |p.symbols| && p.at < |p.symbols|
  {
    Engine.EventsPerSymbol(Engine.RiskCap(engine), Engine.StopLossPct(engine), book, p.symbols, p.quotes);
    Engine.Pass(engine, book, p.symbols, p.quotes).1[p.at]
  }

  /** A pass is the symbols before, the decision for this one, and the symbols after. */
  lemma {:induction false} PassSplits(cap: real, pct: real, book: Book, symbols: seq<string>, quotes: seq<Engine.Quote>, k: nat)
    requires |quotes| == |symbols| && k < |symbols|
    ensures var here := Engine.DecideAll(cap, pct, book, symbols[..k], quotes[..k]).0;
            var (after, e) := Engine.Decide(cap, pct, here, symbols[k], quotes[k]);
            var (last, events) := Engine.DecideAll(cap, pct, book, symbols, quotes);
            && |events| == |symbols| && events[k] == e
            && last == Engine.DecideAll(cap, pct, after, symbols[k + 1..], quotes[k + 1..]).0
    decreases k
  {
    hide Engine.Decide;
    Engine.EventsPerSymbol(cap, pct, book, symbols, quotes);
    if k > 0 {
      var b := Engine.Decide(cap, pct, book, symbols[0], quotes[0]).0;
      PassSplits(cap, pct, b, symbols[1..], quotes[1..], k - 1);
      assert symbols[..k][1..] == symbols[1..][..k - 1] && quotes[..k][1..] == quotes[1..][..k - 1];
      assert symbols[1..][k..] == symbols[k + 1..] && quotes[1..][k..] == quotes[k + 1..];
    }
  }

  // ------------------------------------------------------------------ what was traded

  /** One position from its entry to its exit. */
  datatype RoundTrip = RoundTrip(entryTime: int, entryPrice: real, exitTime: int, exitPrice: real, stopHit: bool)

  /** What the live log says of the symbol: completed round trips, and the entry of an open one. */
  datatype Ledger = Ledger(held: Option<(int, real)>, trips: seq<RoundTrip>)

  function Record(l: Ledger, cursor: int, e: Engine.Event): Ledger {
    match e
    case Opened(_, entry, _) => l.(held := Some((cursor, entry)))
    case Closed(stopHit, price) =>
      if l.held.None? then l
      else Ledger(None, l.trips + [RoundTrip(l.held.value.0, l.held.value.1, cursor, price, stopHit)])
    case _ => l
  }

  function TripsOf(trades: seq<Trade>): (trips: seq<RoundTrip>)
    ensures |trips| == |trades|
  {
    seq(|trades|, i requires 0 <= i < |trades| =>
      var t := trades[i];
      RoundTrip(t.entryTime, t.entryPrice, t.exitTime, t.exitPrice, t.reason == StopLoss))
  }

  /** The ledger tells the same story as the replay: the same round trips for the same reasons, and the
      same open entry. */
  ghost predicate Mirrors(r: Replay, l: Ledger) {
    && l.trips == TripsOf(r.trades)
    && (forall t :: t in r.trades ==> t.reason != EndOfWindow)
    && l.held == match r.position case None => None case Some(h) => Some((h.entryTime, h.entryPrice as real))
  }

  lemma {:induction false} RecordMirrors(c: Config, r: Replay, l: Ledger, cursor: int, signal: Signal, e: Engine.Event)
    requires Mirrors(r, l) && ReplayAction(r, Decide(c, r, cursor, signal)) == LiveAction(e)
    ensures Mirrors(Decide(c, r, cursor, signal), Record(l, cursor, e))
  {
    hide StopPrice, PnlPct;
  }

  /** One pass against one decision point. */
  lemma {:induction false} PassMirrors(c: Config, engine: Engine.Config, symbol: string, r: Replay, l: Ledger,
                                       book: Book, p: LivePass, cursor: int)
    requires c.stopLossPct == engine.stopLossPct >= 0.1
    requires Engine.Sound(book) && Matched(r, book, symbol) && Mirrors(r, l) && Visits(p, symbol)
    requires ActsIfAsked(engine, symbol, book, p)
    ensures var after := Decide(c, r, cursor, p.quotes[p.at].signal);
            && Engine.Sound(BookAfter(engine, book, p)) && Matched(after, BookAfter(engine, book, p), symbol)
            && Mirrors(after, Record(l, cursor, EventOf(engine, book, p)))
  {
    hide Decide, Engine.Decide, Engine.RiskCap, CanAct, WantsToAct, ReplayAction, LiveAction, Mirrors, Record, Engine.Sound, Engine.DecideAll;
    var cap, pct := Engine.RiskCap(engine), Engine.StopLossPct(engine);
    assert pct == c.stopLossPct;
    var q := p.quotes[p.at];
    var here := BookAt(engine, book, p);
    Engine.PassWithinBudget(cap, pct, book, p.symbols, p.quotes, p.at);
    Engine.LaterVisitsAreLocal(cap, pct, book, p.symbols[..p.at], p.quotes[..p.at], symbol);
    assert Matched(r, here, symbol);
    SameActionIff(c, cap, r, here, symbol, cursor, q);
    SameActionKeepsMatch(c, cap, r, here, symbol, cursor, q);
    PassSplits(cap, pct, book, p.symbols, p.quotes, p.at);
    var after := Engine.Decide(cap, pct, here, symbol, q).0;
    Engine.LaterVisitsAreLocal(cap, pct, after, p.symbols[p.at + 1..], p.quotes[p.at + 1..], symbol);
    Engine.PassWithinBudget(cap, pct, book, p.symbols, p.quotes, |p.symbols|);
    assert p.symbols[..|p.symbols|] == p.symbols && p.quotes[..|p.quotes|] == p.quotes;
    RecordMirrors(c, r, l, cursor, q.signal, EventOf(engine, book, p));
  }

  /** Where the rules ask the live bot to act on the symbol, it can. */
  ghost predicate ActsIfAsked(engine: Engine.Config, symbol: string, book: Book, p: LivePass)
    requires |p.quotes| == |p.symbols| && p.at < |p.symbols|
  {
    var (here, q) := (BookAt(engine, book, p), p.quotes[p.at]);
    WantsToAct(here, symbol, q.signal) ==>
      CanAct(Engine.RiskCap(engine), Engine.StopLossPct(engine), here, symbol, q)
  }

  // ------------------------------------------------------------------ the replay and the live bot

  /** What the forecast of a decision point's window says; an empty window has no last price. */
  function SignalAt(c: Config, f: seq<Print> -> Signal, prints: seq<Print>, cursor: int): Signal {
    var window := Window(prints, cursor - c.lookback, cursor);
    if window == [] then Signal(None, Forecast.Flat) else f(window)
  }

  lemma {:induction false} AtCursorDecides(c: Config, f: seq<Print> -> Signal, prints: seq<Print>, r: Replay, cursor: int)
    ensures AtCursor(c, f, prints, r, cursor)
         == Decide(c, r, cursor, SignalAt(c, f, prints, cursor)).(decisionPoints := AtCursor(c, f, prints, r, cursor).decisionPoints)
  {
    hide StopPrice, PnlPct;
  }

  /** One pass for each decision point, each visiting the symbol once and reading the same forecast. */
  ghost predicate Fed(c: Config, f: seq<Print> -> Signal, prints: seq<Print>, symbol: string,
                      cursor: int, end: int, passes: seq<LivePass>)
    requires c.step >= 1
    decreases |passes|
  {
    if cursor > end then passes == []
    else
      && passes != [] && Visits(passes[0], symbol)
      && passes[0].quotes[passes[0].at].signal == SignalAt(c, f, prints, cursor)
      && Fed(c, f, prints, symbol, cursor + c.step, end, passes[1..])
  }

  ghost predicate AlwaysAble(engine: Engine.Config, symbol: string, book: Book, passes: seq<LivePass>)
    decreases |passes|
  {
    passes != [] && Visits(passes[0], symbol) ==>
      && ActsIfAsked(engine, symbol, book, passes[0])
      && AlwaysAble(engine, symbol, BookAfter(engine, book, passes[0]), passes[1..])
  }

  /** The book after the passes, and the ledger kept of the symbol's log entries. */
  ghost function LiveRun(c: Config, engine: Engine.Config, symbol: string, book: Book, l: Ledger,
                         cursor: int, passes: seq<LivePass>): (Book, Ledger)
    requires forall p :: p in passes ==> Visits(p, symbol)
    decreases |passes|
  {
    if passes == [] then (book, l)
    else
      assert passes[0] in passes && Visits(passes[0], symbol);
      LiveRun(c, engine, symbol, BookAfter(engine, book, passes[0]), Record(l, cursor, EventOf(engine, book, passes[0])),
              cursor + c.step, passes[1..])
  }

  lemma {:induction false} FedVisits(c: Config, f: seq<Print> -> Signal, prints: seq<Print>, symbol: string,
                                     cursor: int, end: int, passes: seq<LivePass>)
    requires c.step >= 1 && Fed(c, f, prints, symbol, cursor, end, passes)
    ensures forall p :: p in passes ==> Visits(p, symbol)
    decreases |passes|
  {
    if cursor <= end {
      FedVisits(c, f, prints, symbol, cursor + c.step, end, passes[1..]);
      assert passes == [passes[0]] + passes[1..];
    }
  }

  lemma {:induction false} WalkMirrorsPasses(c: Config, engine: Engine.Config, f: seq<Print> -> Signal, prints: seq<Print>,
                                             symbol: string, cursor: int, end: int, r: Replay, l: Ledger,
                                             book: Book, passes: seq<LivePass>)
    requires c.step >= 1 && c.stopLossPct == engine.stopLossPct >= 0.1
    requires Fed(c, f, prints, symbol, cursor, end, passes) && AlwaysAble(engine, symbol, book, passes)
    requires Engine.Sound(book) && Matched(r, book, symbol) && Mirrors(r, l)
    ensures forall p :: p in passes ==> Visits(p, symbol)
    ensures var walked := Walk(c, f, prints, cursor, end, r);
            var (after, ledger) := LiveRun(c, engine, symbol, book, l, cursor, passes);
            Matched(walked, after, symbol) && Mirrors(walked, ledger)
    decreases |passes|
  {
    hide AtCursor, Decide, BookAfter, EventOf, Record, ActsIfAsked, Engine.Sound, SignalAt;
    FedVisits(c, f, prints, symbol, cursor, end, passes);
    if cursor <= end {
      var p := passes[0];
      PassMirrors(c, engine, symbol, r, l, book, p, cursor);
      AtCursorDecides(c, f, prints, r, cursor);
      var next := AtCursor(c, f, prints, r, cursor);
      WalkMirrorsPasses(c, engine, f, prints, symbol, cursor + c.step, end, next, Record(l, cursor, EventOf(engine, book, p)),
                        BookAfter(engine, book, p), passes[1..]);
    }
  }

  /** Every stop is the one its entry set, and every exit above it is a trend flip. */
  ghost predicate ReasonsOk(c: Config, r: Replay) {
    && (r.position.Some? ==> r.position.value.stopPrice == StopPrice(r.position.value.entryPrice, c.stopLossPct))
    && forall t :: t in r.trades ==>
         t.reason == if t.exitPrice <= StopPrice(t.entryPrice, c.stopLossPct) then StopLoss else TrendFlip
  }

  lemma {:induction false} ReasonsAreTrue(c: Config, f: seq<Print> -> Signal, prints: seq<Print>, cursor: int, end: int, r: Replay)
    requires c.step >= 1 && ReasonsOk(c, r)
    ensures ReasonsOk(c, Walk(c, f, prints, cursor, end, r))
    decreases end - cursor
  {
    hide StopPrice, PnlPct;
    if cursor <= end {
      ReasonsAreTrue(c, f, prints, cursor + c.step, end, AtCursor(c, f, prints, r, cursor));
    }
  }

  /** The replay simulates the live bot. Let the bot pass over its symbols at every decision point of the
      replay, among any other symbols and whatever these do, reading the same forecasts for this one, and
      let it be able to act when the rules ask. Then the round trips in its log are the replay's loop
      trades: entered and left at the same points and prices for the same reasons; and what it still holds
      at the end is the replay's open position, with the same entry and stop. */
  lemma {:induction false} ReplaySimulatesLive(c: Config, engine: Engine.Config, f: seq<Print> -> Signal, prints: seq<Print>,
                                               symbol: string, start: int, end: int, book: Book, passes: seq<LivePass>)
    requires c.step >= 1 && c.stopLossPct == engine.stopLossPct >= 0.1
    requires Engine.Sound(book) && Engine.Find(book, symbol).None?
    requires Fed(c, f, prints, symbol, start, end, passes) && AlwaysAble(engine, symbol, book, passes)
    ensures forall p :: p in passes ==> Visits(p, symbol)
    ensures var replay := Walk(c, f, prints, start, end, Begin);
            var (after, ledger) := LiveRun(c, engine, symbol, book, Ledger(None, []), start, passes);
            && ledger.trips == TripsOf(replay.trades)
            && ReasonsOk(c, replay)
            && Matched(replay, after, symbol)
            && (ledger.held.Some? <==> replay.position.Some?)
            && (replay.position.Some? ==>
                  ledger.held.value == (replay.position.value.entryTime, replay.position.value.entryPrice as real))
  {
    WalkMirrorsPasses(c, engine, f, prints, symbol, start, end, Begin, Ledger(None, []), book, passes);
    ReasonsAreTrue(c, f, prints, start, end, Begin);
  }

  /** A configured stop below a tenth of a percent is where the two differ: the live bot raises it, the
      replay does not, so their stops agree exactly from there on. */
  lemma {:induction false} StopsAgreeIff(engine: Engine.Config, last: Price)
    ensures StopPrice(last, Engine.StopLossPct(engine)) == StopPrice(last, engine.stopLossPct)
        <==> engine.stopLossPct >= 0.1
  {
    if engine.stopLossPct < 0.1 {
      var a, b := 1.0 - 0.1 / 100.0, 1.0 - engine.stopLossPct / 100.0;
      assert a < b;
      StrictScale(last, a, b);
    }
  }

  /** Such a stop: at 0.05 percent, entered at 100, the replay leaves at 99.92 and the live bot holds on. */
  lemma {:induction false} LowStopActsDifferently(engine: Engine.Config)
    requires engine.stopLossPct == 0.05
    ensures var c := Config(0.05, 60, 5);
            var signal := Signal(Some(99.92), Forecast.Flat);
            var r := Replay(Some(Held(0, 100.0, StopPrice(100.0, c.stopLossPct))), [], 0);
            var book := [Engine.Holding("AAPL", 1, 100.0, StopPrice(100.0, Engine.StopLossPct(engine)))];
            && Decide(c, r, 5, signal).position == None
            && Engine.Decide(Engine.RiskCap(engine), Engine.StopLossPct(engine), book, "AAPL",
                             Engine.Quote(signal, true, true)) == (book, Engine.Holds)
  {
    assert StopPrice(100.0, 0.05) == 99.95 && StopPrice(100.0, 0.1) == 99.9;
  }

  // ------------------------------------------------------------------ the real forecast

  function Rows(window: seq<Print>): seq<Forecast.Row> {
    seq(|window|, i requires 0 <= i < |window| =>
      Forecast.Row(Some(window[i].t), Some(window[i].price)))
  }

  /** The signal both sides read: the one-minute-bar forecast of the window. */
  function ForecastSignal(log: real -> real, window: seq<Print>): Signal {
    var f := Forecast.BuildTimeForecast(Rows(window), log);
    Signal(if f.last.Some? && f.last.value > 0.0 then Some(f.last.value as Price) else None, f.trend)
  }

  function Prints(window: seq<Print>): seq<Forecast.Print> {
    seq(|window|, i requires 0 <= i < |window| => Forecast.Print(window[i].t, window[i].price))
  }

  lemma {:induction false} RowsAreReadable(window: seq<Print>)
    ensures Forecast.Readable(Rows(window)) == Prints(window)
  {
    if window != [] {
      RowsAreReadable(window[1..]);
      assert Rows(window)[1..] == Rows(window[1..]);
      assert Prints(window) == [Prints(window)[0]] + Prints(window[1..]);
    }
  }

  /** On positive prices the signal has a last price whenever the window has a print, and it is the price
      of a print at the window's latest moment. */
  lemma {:induction false} SignalHasLast(log: real -> real, window: seq<Print>)
    requires window != []
    ensures var last := ForecastSignal(log, window).last;
            last.Some? && exists k :: 0 <= k < |window| && window[k].price == last.value
                                   && forall j :: 0 <= j < |window| ==> window[j].t <= window[k].t
  {
    hide Forecast.BuildTimeForecast;
    Forecast.LastIsLatestPrint(Rows(window), log);
    RowsAreReadable(window);
    var ps := Prints(window);
    var p :| Forecast.IsLatest(ps, p)
             && p.price == Forecast.BuildTimeForecast(Rows(window), log).last.value;
    var k :| 0 <= k < |ps| && ps[k] == p;
    assert window[k].price == p.price;
    forall j | 0 <= j < |window|
      ensures window[j].t <= window[k].t
    {
      assert ps[j].t <= p.t;
    }
  }
}
