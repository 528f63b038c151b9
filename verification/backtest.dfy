/** Walk-forward replay of the trading rules over past prints (control-api/app/backtest.py).

    The forecast is any function of the window it is given; `signal_forecast` is one. Prices are
    positive. Times are whole units, and the step is at least one. */
module Backtest {
  import opened Common
  import Forecast

  type Price = p: real | p > 0.0 witness 1.0

  datatype Print = Print(t: int, price: Price)

  /** What the rules read from a forecast. */
  datatype Signal = Signal(last: Option<Price>, trend: Forecast.Trend)

  datatype Config = Config(stopLossPct: real, lookback: int, step: int)

  datatype Reason = StopLoss | TrendFlip | EndOfWindow

  datatype Held = Held(entryTime: int, entryPrice: Price, stopPrice: real)

  datatype Trade = Trade(entryTime: int, entryPrice: Price, exitTime: int, exitPrice: Price, reason: Reason, pnlPct: real)

  datatype Replay = Replay(position: Option<Held>, trades: seq<Trade>, decisionPoints: nat)

  const Begin := Replay(None, [], 0)

  function PnlPct(entry: Price, exit: Price): real {
    (exit - entry) / entry * 100.0
  }

  function StopPrice(last: Price, stopLossPct: real): real {
    last * (1.0 - stopLossPct / 100.0)
  }

  /** The prints between two moments, both included. */
  function Window(prints: seq<Print>, from: int, to: int): seq<Print> {
    if prints == [] then []
    else (if from <= prints[0].t <= to then [prints[0]] else []) + Window(prints[1..], from, to)
  }

  /** The rules at one decision point. */
  function Decide(c: Config, r: Replay, cursor: int, signal: Signal): Replay {
    if signal.last.None? then r
    else
      var last := signal.last.value;
      match r.position
      case None =>
        if signal.trend == Forecast.Up
        then r.(position := Some(Held(cursor, last, StopPrice(last, c.stopLossPct))))
        else r
      case Some(h) =>
        var stopHit := last <= h.stopPrice;
        if stopHit || signal.trend == Forecast.Down
        then r.(position := None,
                trades := r.trades + [Trade(h.entryTime, h.entryPrice, cursor, last,
                                            if stopHit then StopLoss else TrendFlip, PnlPct(h.entryPrice, last))])
        else r
  }

  function AtCursor(c: Config, f: seq<Print> -> Signal, prints: seq<Print>, r: Replay, cursor: int): Replay {
    var window := Window(prints, cursor - c.lookback, cursor);
    if window == [] then r else Decide(c, r.(decisionPoints := r.decisionPoints + 1), cursor, f(window))
  }

  /** The decision points from `cursor` up to `end`. */
  function Walk(c: Config, f: seq<Print> -> Signal, prints: seq<Print>, cursor: int, end: int, r: Replay): Replay
    requires c.step >= 1
    decreases end - cursor
  {
    if cursor > end then r else Walk(c, f, prints, cursor + c.step, end, AtCursor(c, f, prints, r, cursor))
  }

  /** A position still open at the end is closed at the last print. */
  function CloseOut(prints: seq<Print>, r: Replay): seq<Trade> {
    if r.position.Some? && prints != [] then
      var h, last := r.position.value, prints[|prints| - 1];
      r.trades + [Trade(h.entryTime, h.entryPrice, last.t, last.price, EndOfWindow, PnlPct(h.entryPrice, last.price))]
    else r.trades
  }

  method RunBacktest(c: Config, f: seq<Print> -> Signal, prints: seq<Print>, start: int, end: int)
    returns (trades: seq<Trade>, decisionPoints: nat)
    requires c.step >= 1
    ensures var r := Walk(c, f, prints, start, end, Begin);
            if prints == [] then trades == [] && decisionPoints == 0
            else trades == CloseOut(prints, r) && decisionPoints == r.decisionPoints
    ensures prints != [] ==> Story(c, f, prints, start, end, trades)
    ensures prints != [] ==> decisionPoints == CountWindows(c, prints, start, end)
    ensures forall k :: 0 <= k < |trades| ==> Honest(trades[k])
  {
    hide Window, StopPrice, PnlPct;
    trades, decisionPoints := [], 0;
    if prints == [] {
      return;
    }
    var position: Option<Held> := None;
    var cursor := start;
    while cursor <= end
      invariant Walk(c, f, prints, start, end, Begin)
             == Walk(c, f, prints, cursor, end, Replay(position, trades, decisionPoints))
      decreases end - cursor
    {
      var window := WindowLoop(prints, cursor - c.lookback, cursor);
      if window != [] {
        decisionPoints := decisionPoints + 1;
        var signal := f(window);
        if signal.last.Some? {
          var last := signal.last.value;
          if position.None? {
            if signal.trend == Forecast.Up {
              position := Some(Held(cursor, last, StopPrice(last, c.stopLossPct)));
            }
          } else {
            var h := position.value;
            var stopHit := last <= h.stopPrice;
            if stopHit || signal.trend == Forecast.Down {
              trades := trades + [Trade(h.entryTime, h.entryPrice, cursor, last,
                                        if stopHit then StopLoss else TrendFlip, PnlPct(h.entryPrice, last))];
              position := None;
            }
          }
        }
      }
      cursor := cursor + c.step;
    }
    RunIsStory(c, f, prints, start, end);
    WalkCounts(c, f, prints, start, end, Begin);
    hide Walk, Story, CountWindows, Honest;
    if position.Some? {
      var h, last := position.value, prints[|prints| - 1];
      trades := trades + [Trade(h.entryTime, h.entryPrice, last.t, last.price, EndOfWindow,
                                PnlPct(h.entryPrice, last.price))];
    }
  }

  method WindowLoop(prints: seq<Print>, from: int, to: int) returns (window: seq<Print>)
    ensures window == Window(prints, from, to)
  {
    hide Window;
    window := [];
    assert prints[0..] == prints && [] + Window(prints, from, to) == Window(prints, from, to);
    for i := 0 to |prints|
      invariant window + Window(prints[i..], from, to) == Window(prints, from, to)
    {
      WindowStep(prints, i, from, to, window);
      if from <= prints[i].t <= to {
        window := window + [prints[i]];
      } else {
        assert window + [] == window;
      }
    }
    WindowOfNone(from, to);
    assert prints[|prints|..] == [] && window + [] == window;
  }

  lemma {:induction false} WindowOfNone(from: int, to: int)
    ensures Window([], from, to) == []
  {
  }

  lemma {:induction false} WindowStep(prints: seq<Print>, i: nat, from: int, to: int, before: seq<Print>)
    requires i < |prints|
    ensures var here := if from <= prints[i].t <= to then [prints[i]] else [];
            before + Window(prints[i..], from, to) == (before + here) + Window(prints[i + 1..], from, to)
  {
    assert prints[i..][1..] == prints[i + 1..];
  }

  // ------------------------------------------------------------------ no lookahead

  /** What is known at a moment: the prints at or before it. */
  function Known(prints: seq<Print>, at: int): seq<Print> {
    if prints == [] then [] else (if prints[0].t <= at then [prints[0]] else []) + Known(prints[1..], at)
  }

  lemma {:induction false} WindowOfKnown(prints: seq<Print>, at: int, from: int, to: int)
    requires to <= at
    ensures Window(Known(prints, at), from, to) == Window(prints, from, to)
  {
    if prints != [] {
      WindowOfKnown(prints[1..], at, from, to);
      var rest := Known(prints[1..], at);
      if prints[0].t <= at {
        assert Known(prints, at)[1..] == rest;
      } else {
        assert Known(prints, at) == rest;
      }
    }
  }

  lemma {:induction false} SameWalk(c: Config, f: seq<Print> -> Signal, p: seq<Print>, q: seq<Print>,
                                    cursor: int, at: int, r: Replay)
    requires c.step >= 1 && Known(p, at) == Known(q, at)
    ensures Walk(c, f, p, cursor, at, r) == Walk(c, f, q, cursor, at, r)
    decreases at - cursor
  {
    hide Decide;
    if cursor <= at {
      WindowOfKnown(p, at, cursor - c.lookback, cursor);
      WindowOfKnown(q, at, cursor - c.lookback, cursor);
      SameWalk(c, f, p, q, cursor + c.step, at, AtCursor(c, f, p, r, cursor));
    }
  }

  /** The first decision point after `at`. */
  function Resume(c: Config, cursor: int, at: int): (next: int)
    requires c.step >= 1
    ensures next > at && next >= cursor
    decreases at - cursor
  {
    if cursor > at then cursor else Resume(c, cursor + c.step, at)
  }

  /** A walk can be stopped at any moment and resumed. */
  lemma {:induction false} WalkResumes(c: Config, f: seq<Print> -> Signal, prints: seq<Print>,
                                       cursor: int, at: int, end: int, r: Replay)
    requires c.step >= 1 && at <= end
    ensures Walk(c, f, prints, cursor, end, r)
         == Walk(c, f, prints, Resume(c, cursor, at), end, Walk(c, f, prints, cursor, at, r))
    decreases at - cursor
  {
    hide AtCursor;
    if cursor <= at {
      WalkResumes(c, f, prints, cursor + c.step, at, end, AtCursor(c, f, prints, r, cursor));
    }
  }

  /** The walk only appends trades, each closed at its decision point. */
  lemma {:induction false} WalkAppends(c: Config, f: seq<Print> -> Signal, prints: seq<Print>,
                                       cursor: int, end: int, r: Replay)
    requires c.step >= 1
    ensures var w := Walk(c, f, prints, cursor, end, r);
            && r.trades <= w.trades
            && forall k :: |r.trades| <= k < |w.trades| ==> cursor <= w.trades[k].exitTime <= end
    decreases end - cursor
  {
    if cursor <= end {
      WalkAppends(c, f, prints, cursor + c.step, end, AtCursor(c, f, prints, r, cursor));
    }
  }

  /** The trades the loop closed by a moment. */
  function ClosedBy(trades: seq<Trade>, at: int): seq<Trade> {
    if trades == [] then []
    else (if trades[0].exitTime <= at then [trades[0]] else []) + ClosedBy(trades[1..], at)
  }

  lemma {:induction false} ClosedByPrefix(x: seq<Trade>, y: seq<Trade>, at: int)
    requires forall k :: 0 <= k < |x| ==> x[k].exitTime <= at
    requires forall k :: 0 <= k < |y| ==> y[k].exitTime > at
    ensures ClosedBy(x + y, at) == x
  {
    if x != [] {
      assert (x + y)[1..] == x[1..] + y;
      ClosedByPrefix(x[1..], y, at);
    } else if y != [] {
      assert x + y == y;
      ClosedByPrefix([], y[1..], at);
      assert [] + y[1..] == y[1..];
    }
  }

  /** The state at `at` is the same, and it is all of the full walk that is closed by then. */
  lemma {:induction false} ClosedByWalk(c: Config, f: seq<Print> -> Signal, prints: seq<Print>, start: int, at: int, end: int)
    requires c.step >= 1 && at <= end
    ensures ClosedBy(Walk(c, f, prints, start, end, Begin).trades, at) == Walk(c, f, prints, start, at, Begin).trades
  {
    var mid := Walk(c, f, prints, start, at, Begin);
    var full := Walk(c, f, prints, start, end, Begin);
    WalkResumes(c, f, prints, start, at, end, Begin);
    WalkAppends(c, f, prints, start, at, Begin);
    WalkAppends(c, f, prints, Resume(c, start, at), end, mid);
    assert full.trades == mid.trades + full.trades[|mid.trades|..];
    ClosedByPrefix(mid.trades, full.trades[|mid.trades|..], at);
  }

  /** No lookahead: two series that agree on everything known at `at` give the same position at `at`, the
      same number of decision points so far, and the same trades closed by then, however they go on and
      wherever the two replays end. */
  lemma {:induction false} NoLookahead(c: Config, f: seq<Print> -> Signal, p: seq<Print>, q: seq<Print>,
                    start: int, at: int, endP: int, endQ: int)
    requires c.step >= 1 && Known(p, at) == Known(q, at) && at <= endP && at <= endQ
    ensures Walk(c, f, p, start, at, Begin) == Walk(c, f, q, start, at, Begin)
    ensures ClosedBy(Walk(c, f, p, start, endP, Begin).trades, at)
         == ClosedBy(Walk(c, f, q, start, endQ, Begin).trades, at)
  {
    SameWalk(c, f, p, q, start, at, Begin);
    ClosedByWalk(c, f, p, start, at, endP);
    ClosedByWalk(c, f, q, start, at, endQ);
  }

  /** What is known strictly before a moment; times are whole units. */
  function KnownBefore(prints: seq<Print>, at: int): seq<Print> {
    Known(prints, at - 1)
  }

  /** Whether the walk from `cursor` decides at `at`. */
  predicate DecidesAt(c: Config, cursor: int, at: int)
    requires c.step >= 1
    decreases at - cursor
  {
    cursor <= at && (cursor == at || DecidesAt(c, cursor + c.step, at))
  }

  /** The decision points are `start` and every whole number of steps after it. */
  lemma {:induction false} DecidesAtIff(c: Config, start: int, at: int)
    requires c.step >= 1
    ensures DecidesAt(c, start, at) <==> at >= start && (at - start) % c.step == 0
    decreases at - start
  {
    if start < at {
      DecidesAtIff(c, start + c.step, at);
      if at - start < c.step {
        SmallRest(at - start, c.step);
      } else {
        RestShifts(at - start, c.step);
      }
    }
  }

  lemma {:induction false} SmallRest(x: int, step: int)
    requires 0 <= x < step
    ensures x % step == x
  {
  }

  lemma {:induction false} RestShifts(x: int, step: int)
    requires step >= 1
    ensures (x - step) % step == x % step
  {
    var q, r := x / step, x % step;
    assert x - step == (q - 1) * step + r;
    RestIsUnique(x - step, step, q - 1, r);
  }

  lemma {:induction false} RestIsUnique(x: int, step: int, q: int, r: int)
    requires step >= 1 && x == q * step + r && 0 <= r < step
    ensures x % step == r
  {
    var d := x / step - q;
    assert d * step == r - x % step && -d * step == x % step - r;
    if d >= 1 {
      AtLeast(d, step);
    } else if d <= -1 {
      AtLeast(-d, step);
    }
  }

  lemma {:induction false} NoDecisionNoChange(c: Config, f: seq<Print> -> Signal, prints: seq<Print>,
                                              cursor: int, at: int, r: Replay)
    requires c.step >= 1 && !DecidesAt(c, cursor, at)
    ensures Walk(c, f, prints, cursor, at, r) == Walk(c, f, prints, cursor, at - 1, r)
    decreases at - cursor
  {
    hide AtCursor;
    if cursor < at {
      NoDecisionNoChange(c, f, prints, cursor + c.step, at, AtCursor(c, f, prints, r, cursor));
    }
  }

  /** One print at a decision point is one more decision, made at that very point. */
  lemma {:induction false} PrintIsSeenAtOnce(c: Config, f: seq<Print> -> Signal, cursor: int, at: int, r: Replay)
    requires c.step >= 1 && c.lookback >= 0 && DecidesAt(c, cursor, at)
    ensures Walk(c, f, [Print(at, 1.0)], cursor, at, r).decisionPoints == r.decisionPoints + 1
    ensures Walk(c, f, [], cursor, at, r) == r
    decreases at - cursor
  {
    var p := [Print(at, 1.0)];
    assert p[1..] == [];
    assert Window(p, cursor - c.lookback, cursor) == if cursor == at then p else [];
    if cursor < at {
      PrintIsSeenAtOnce(c, f, cursor + c.step, at, r);
    }
  }

  /** Agreement strictly before a moment fixes the state there, for all series. */
  ghost predicate SeesOnlyBefore(c: Config, f: seq<Print> -> Signal, start: int, at: int)
    requires c.step >= 1
  {
    forall p: seq<Print>, q: seq<Print> :: KnownBefore(p, at) == KnownBefore(q, at) ==>
      Walk(c, f, p, start, at, Begin) == Walk(c, f, q, start, at, Begin)
  }

  /** "Strictly before" is true of a moment exactly when the walk does not decide there: a print at the
      decision point itself is in the window. */
  lemma {:induction false} SeesOnlyBeforeIff(c: Config, f: seq<Print> -> Signal, start: int, at: int)
    requires c.step >= 1 && c.lookback >= 0
    ensures SeesOnlyBefore(c, f, start, at) <==> !(at >= start && (at - start) % c.step == 0)
  {
    DecidesAtIff(c, start, at);
    if DecidesAt(c, start, at) {
      PrintIsSeenAtOnce(c, f, start, at, Begin);
      assert [Print(at, 1.0)][1..] == [];
      assert KnownBefore([Print(at, 1.0)], at) == KnownBefore([], at);
    } else {
      forall p: seq<Print>, q: seq<Print> | KnownBefore(p, at) == KnownBefore(q, at)
        ensures Walk(c, f, p, start, at, Begin) == Walk(c, f, q, start, at, Begin)
      {
        NoDecisionNoChange(c, f, p, start, at, Begin);
        NoDecisionNoChange(c, f, q, start, at, Begin);
        SameWalk(c, f, p, q, start, at - 1, Begin);
      }
    }
  }

  /** The smallest case: a single print at the first decision point. */
  lemma {:induction false} PrintAtTheCursorIsSeen(f: seq<Print> -> Signal, stopLossPct: real, lookback: nat, step: nat)
    requires step >= 1
    ensures var c := Config(stopLossPct, lookback, step);
            && KnownBefore([Print(0, 1.0)], 0) == KnownBefore([], 0)
            && Walk(c, f, [Print(0, 1.0)], 0, 0, Begin) != Walk(c, f, [], 0, 0, Begin)
  {
    assert [Print(0, 1.0)][1..] == [];
    PrintIsSeenAtOnce(Config(stopLossPct, lookback, step), f, 0, 0, Begin);
  }

  // ------------------------------------------------------------------ what the trades are

  /** The stop lies the configured percentage of the price below it. */
  lemma {:induction false} StopIsBelow(last: Price, stopLossPct: real)
    ensures (last - StopPrice(last, stopLossPct)) * 100.0 == last * stopLossPct
  {
  }

  /** What the forecast says at a moment, when there is anything in its window. */
  function SignalAt(c: Config, f: seq<Print> -> Signal, prints: seq<Print>, at: int): Option<Signal> {
    var window := Window(prints, at - c.lookback, at);
    if window == [] then None else Some(f(window))
  }

  predicate GoesLong(s: Option<Signal>) {
    s.Some? && s.value.last.Some? && s.value.trend == Forecast.Up
  }

  predicate GetsOut(s: Option<Signal>, stop: real) {
    s.Some? && s.value.last.Some? && (s.value.last.value <= stop || s.value.trend == Forecast.Down)
  }

  /** No decision point from `from` on and before `until` asks for an entry. */
  ghost predicate NoEntry(c: Config, f: seq<Print> -> Signal, prints: seq<Print>, from: int, until: int)
    requires c.step >= 1
    decreases until - from
  {
    from < until ==> !GoesLong(SignalAt(c, f, prints, from)) && NoEntry(c, f, prints, from + c.step, until)
  }

  /** None asks a position with this stop to be left. */
  ghost predicate NoExit(c: Config, f: seq<Print> -> Signal, prints: seq<Print>, stop: real, from: int, until: int)
    requires c.step >= 1
    decreases until - from
  {
    from < until ==> !GetsOut(SignalAt(c, f, prints, from), stop) && NoExit(c, f, prints, stop, from + c.step, until)
  }

  /** The first decision point from `from` on that asks for an entry, at the last price seen there. */
  ghost predicate EntersAt(c: Config, f: seq<Print> -> Signal, prints: seq<Print>, from: int, at: int, price: Price)
    requires c.step >= 1
  {
    && DecidesAt(c, from, at) && NoEntry(c, f, prints, from, at)
    && GoesLong(SignalAt(c, f, prints, at)) && SignalAt(c, f, prints, at).value.last == Some(price)
  }

  /** The first decision point after the entry that asks to leave, at the last price seen there; a price at
      or below the stop is a stop loss, whatever the trend. */
  ghost predicate LeavesAt(c: Config, f: seq<Print> -> Signal, prints: seq<Print>, t: Trade)
    requires c.step >= 1
  {
    var stop := StopPrice(t.entryPrice, c.stopLossPct);
    && DecidesAt(c, t.entryTime + c.step, t.exitTime)
    && NoExit(c, f, prints, stop, t.entryTime + c.step, t.exitTime)
    && GetsOut(SignalAt(c, f, prints, t.exitTime), stop)
    && SignalAt(c, f, prints, t.exitTime).value.last == Some(t.exitPrice)
    && t.reason == if t.exitPrice <= stop then StopLoss else TrendFlip
  }

  /** Where the search for the next entry begins after the first `k` trades. */
  function Since(c: Config, start: int, trades: seq<Trade>, k: nat): int
    requires k <= |trades|
  {
    if k == 0 then start else trades[k - 1].exitTime + c.step
  }

  ghost predicate TradeOk(c: Config, f: seq<Print> -> Signal, prints: seq<Print>, start: int, trades: seq<Trade>, k: nat)
    requires c.step >= 1 && k < |trades|
  {
    && EntersAt(c, f, prints, Since(c, start, trades, k), trades[k].entryTime, trades[k].entryPrice)
    && LeavesAt(c, f, prints, trades[k]) && Honest(trades[k])
  }

  /** The trades of a replay, without the loop: each enters at the first chance after the one before and
      leaves at the first reason to; one still open at the end is closed at the last print; and after the
      last one closed no entry was asked for. */
  ghost predicate Story(c: Config, f: seq<Print> -> Signal, prints: seq<Print>, start: int, end: int, trades: seq<Trade>)
    requires c.step >= 1 && prints != []
  {
    var n := |trades|;
    var last := prints[|prints| - 1];
    if n > 0 && trades[n - 1].reason == EndOfWindow then
      var t := trades[n - 1];
      && (forall k :: 0 <= k < n - 1 ==> TradeOk(c, f, prints, start, trades, k))
      && EntersAt(c, f, prints, Since(c, start, trades, n - 1), t.entryTime, t.entryPrice) && t.entryTime <= end
      && NoExit(c, f, prints, StopPrice(t.entryPrice, c.stopLossPct), t.entryTime + c.step, end + 1)
      && t.exitTime == last.t && t.exitPrice == last.price && Honest(t)
    else
      && (forall k :: 0 <= k < n ==> TradeOk(c, f, prints, start, trades, k) && trades[k].exitTime <= end)
      && NoEntry(c, f, prints, Since(c, start, trades, n), end + 1)
  }

  function CountWindows(c: Config, prints: seq<Print>, cursor: int, end: int): nat
    requires c.step >= 1
    decreases end - cursor
  {
    if cursor > end then 0
    else (if exists p :: p in prints && cursor - c.lookback <= p.t <= cursor then 1 else 0)
         + CountWindows(c, prints, cursor + c.step, end)
  }

  /** A window holds exactly the prints between its ends, in their order, each as often. */
  lemma {:induction false} WindowHolds(prints: seq<Print>, from: int, to: int, p: Print)
    ensures multiset(Window(prints, from, to))[p] == if from <= p.t <= to then multiset(prints)[p] else 0
    ensures p in Window(prints, from, to) <==> p in prints && from <= p.t <= to
  {
    var window := Window(prints, from, to);
    if prints != [] {
      WindowHolds(prints[1..], from, to, p);
      assert prints == [prints[0]] + prints[1..];
    }
    assert p in window <==> multiset(window)[p] > 0;
    assert p in prints <==> multiset(prints)[p] > 0;
  }

  lemma {:induction false} WindowConcat(a: seq<Print>, b: seq<Print>, from: int, to: int)
    ensures Window(a + b, from, to) == Window(a, from, to) + Window(b, from, to)
  {
    if a == [] {
      assert a + b == b;
    } else {
      assert (a + b)[1..] == a[1..] + b;
      WindowConcat(a[1..], b, from, to);
    }
  }

  lemma {:induction false} WindowEmptyIff(prints: seq<Print>, from: int, to: int)
    ensures Window(prints, from, to) == [] <==> !exists p :: p in prints && from <= p.t <= to
  {
    var window := Window(prints, from, to);
    if window != [] {
      WindowHolds(prints, from, to, window[0]);
    }
    forall p | p in prints && from <= p.t <= to
      ensures p in window
    {
      WindowHolds(prints, from, to, p);
    }
  }

  lemma {:induction false} WalkCounts(c: Config, f: seq<Print> -> Signal, prints: seq<Print>, cursor: int, end: int, r: Replay)
    requires c.step >= 1
    ensures Walk(c, f, prints, cursor, end, r).decisionPoints == r.decisionPoints + CountWindows(c, prints, cursor, end)
    decreases end - cursor
  {
    hide Window, StopPrice, PnlPct;
    if cursor <= end {
      WindowEmptyIff(prints, cursor - c.lookback, cursor);
      WalkCounts(c, f, prints, cursor + c.step, end, AtCursor(c, f, prints, r, cursor));
    }
  }

  /** The story so far, when the next decision point is `cursor`. */
  ghost predicate StoryTo(c: Config, f: seq<Print> -> Signal, prints: seq<Print>, start: int, r: Replay, cursor: int)
    requires c.step >= 1
  {
    && (forall k :: 0 <= k < |r.trades| ==> TradeOk(c, f, prints, start, r.trades, k) && r.trades[k].exitTime < cursor)
    && var since := Since(c, start, r.trades, |r.trades|);
       match r.position
       case None => DecidesAt(c, since, cursor) && NoEntry(c, f, prints, since, cursor)
       case Some(h) =>
         && EntersAt(c, f, prints, since, h.entryTime, h.entryPrice) && h.entryTime < cursor
         && h.stopPrice == StopPrice(h.entryPrice, c.stopLossPct)
         && DecidesAt(c, h.entryTime + c.step, cursor)
         && NoExit(c, f, prints, h.stopPrice, h.entryTime + c.step, cursor)
  }

  lemma {:induction false} DecidesNext(c: Config, from: int, at: int)
    requires c.step >= 1 && DecidesAt(c, from, at)
    ensures DecidesAt(c, from, at + c.step)
    decreases at - from
  {
    if from < at {
      DecidesNext(c, from + c.step, at);
    } else {
      assert DecidesAt(c, from + c.step, at + c.step);
    }
  }

  lemma {:induction false} NoEntryNext(c: Config, f: seq<Print> -> Signal, prints: seq<Print>, from: int, at: int)
    requires c.step >= 1 && DecidesAt(c, from, at) && NoEntry(c, f, prints, from, at)
    requires !GoesLong(SignalAt(c, f, prints, at))
    ensures NoEntry(c, f, prints, from, at + c.step)
    decreases at - from
  {
    hide SignalAt, GoesLong;
    if from < at {
      NoEntryNext(c, f, prints, from + c.step, at);
    } else {
      assert NoEntry(c, f, prints, from + c.step, at + c.step);
    }
  }

  lemma {:induction false} NoExitNext(c: Config, f: seq<Print> -> Signal, prints: seq<Print>, stop: real, from: int, at: int)
    requires c.step >= 1 && DecidesAt(c, from, at) && NoExit(c, f, prints, stop, from, at)
    requires !GetsOut(SignalAt(c, f, prints, at), stop)
    ensures NoExit(c, f, prints, stop, from, at + c.step)
    decreases at - from
  {
    hide SignalAt, GetsOut;
    if from < at {
      NoExitNext(c, f, prints, stop, from + c.step, at);
    } else {
      assert NoExit(c, f, prints, stop, from + c.step, at + c.step);
    }
  }

  lemma {:induction false} NoEntryShorter(c: Config, f: seq<Print> -> Signal, prints: seq<Print>, from: int, until: int, less: int)
    requires c.step >= 1 && NoEntry(c, f, prints, from, until) && less <= until
    ensures NoEntry(c, f, prints, from, less)
    decreases until - from
  {
    hide SignalAt, GoesLong;
    if from < less {
      NoEntryShorter(c, f, prints, from + c.step, until, less);
    }
  }

  lemma {:induction false} NoExitShorter(c: Config, f: seq<Print> -> Signal, prints: seq<Print>, stop: real,
                                         from: int, until: int, less: int)
    requires c.step >= 1 && NoExit(c, f, prints, stop, from, until) && less <= until
    ensures NoExit(c, f, prints, stop, from, less)
    decreases until - from
  {
    hide SignalAt, GetsOut;
    if from < less {
      NoExitShorter(c, f, prints, stop, from + c.step, until, less);
    }
  }

  /** A longer list of trades says the same of the first ones. */
  lemma {:induction false} TradesStayOk(c: Config, f: seq<Print> -> Signal, prints: seq<Print>, start: int,
                                        trades: seq<Trade>, t: Trade, k: nat)
    requires c.step >= 1 && k < |trades| && TradeOk(c, f, prints, start, trades, k)
    ensures TradeOk(c, f, prints, start, trades + [t], k)
  {
    hide EntersAt, LeavesAt, Honest;
  }

  lemma {:induction false} CursorKeepsStory(c: Config, f: seq<Print> -> Signal, prints: seq<Print>, start: int,
                                            r: Replay, cursor: int)
    requires c.step >= 1 && StoryTo(c, f, prints, start, r, cursor)
    ensures StoryTo(c, f, prints, start, AtCursor(c, f, prints, r, cursor), cursor + c.step)
  {
    hide Window, NoEntry, NoExit, TradeOk, DecidesAt;
    var since := Since(c, start, r.trades, |r.trades|);
    var signal := SignalAt(c, f, prints, cursor);
    var after := AtCursor(c, f, prints, r, cursor);
    NextIsDecided(c, cursor);
    match r.position
    case None =>
      if GoesLong(signal) {
        NothingBetween(c, f, prints, after.position.value.stopPrice, cursor + c.step);
      } else {
        DecidesNext(c, since, cursor);
        NoEntryNext(c, f, prints, since, cursor);
      }
    case Some(h) =>
      if GetsOut(signal, h.stopPrice) {
        var t := after.trades[|r.trades|];
        assert after.trades == r.trades + [t];
        LastTradeOk(c, f, prints, start, r, cursor, t);
        forall k | 0 <= k < |r.trades|
          ensures TradeOk(c, f, prints, start, after.trades, k)
        {
          TradesStayOk(c, f, prints, start, r.trades, t, k);
        }
        NothingBetween(c, f, prints, h.stopPrice, cursor + c.step);
      } else {
        DecidesNext(c, h.entryTime + c.step, cursor);
        NoExitNext(c, f, prints, h.stopPrice, h.entryTime + c.step, cursor);
      }
  }

  lemma {:induction false} NextIsDecided(c: Config, cursor: int)
    requires c.step >= 1
    ensures DecidesAt(c, cursor + c.step, cursor + c.step)
  {
  }

  lemma {:induction false} NothingBetween(c: Config, f: seq<Print> -> Signal, prints: seq<Print>, stop: real, at: int)
    requires c.step >= 1
    ensures NoEntry(c, f, prints, at, at) && NoExit(c, f, prints, stop, at, at)
  {
  }

  lemma {:induction false} LastTradeOk(c: Config, f: seq<Print> -> Signal, prints: seq<Print>, start: int,
                                       r: Replay, cursor: int, t: Trade)
    requires c.step >= 1 && StoryTo(c, f, prints, start, r, cursor) && r.position.Some?
    requires GetsOut(SignalAt(c, f, prints, cursor), r.position.value.stopPrice)
    requires AtCursor(c, f, prints, r, cursor).trades == r.trades + [t]
    ensures TradeOk(c, f, prints, start, r.trades + [t], |r.trades|)
  {
    hide Window, NoEntry, NoExit, DecidesAt, AtCursor, SignalAt, GetsOut, GoesLong, PnlPct, StopPrice, EntersAt, TradeOk;
    var h := r.position.value;
    ClosedTrade(c, f, prints, r, cursor, t);
    var trades := r.trades + [t];
    assert trades[|r.trades|] == t && forall k :: 0 <= k < |r.trades| ==> trades[k] == r.trades[k];
    assert Since(c, start, trades, |r.trades|) == Since(c, start, r.trades, |r.trades|);
    assert LeavesAt(c, f, prints, t);
    TradeIsOk(c, f, prints, start, trades, |r.trades|);
  }

  lemma {:induction false} TradeIsOk(c: Config, f: seq<Print> -> Signal, prints: seq<Print>, start: int,
                                     trades: seq<Trade>, k: nat)
    requires c.step >= 1 && k < |trades|
    requires EntersAt(c, f, prints, Since(c, start, trades, k), trades[k].entryTime, trades[k].entryPrice)
    requires LeavesAt(c, f, prints, trades[k]) && Honest(trades[k])
    ensures TradeOk(c, f, prints, start, trades, k)
  {
  }

  lemma {:induction false} ClosedTrade(c: Config, f: seq<Print> -> Signal, prints: seq<Print>, r: Replay, cursor: int, t: Trade)
    requires r.position.Some? && GetsOut(SignalAt(c, f, prints, cursor), r.position.value.stopPrice)
    requires AtCursor(c, f, prints, r, cursor).trades == r.trades + [t]
    ensures var h := r.position.value;
            && SignalAt(c, f, prints, cursor).value.last == Some(t.exitPrice)
            && t.entryTime == h.entryTime && t.entryPrice == h.entryPrice && t.exitTime == cursor
            && t.reason == (if t.exitPrice <= h.stopPrice then StopLoss else TrendFlip)
            && t.pnlPct == PnlPct(h.entryPrice, t.exitPrice)
  {
    hide Window, PnlPct;
    assert t == (r.trades + [t])[|r.trades|];
  }

  lemma {:induction false} WalkKeepsStory(c: Config, f: seq<Print> -> Signal, prints: seq<Print>, start: int,
                                          cursor: int, end: int, r: Replay)
    requires c.step >= 1 && StoryTo(c, f, prints, start, r, cursor)
    ensures StoryTo(c, f, prints, start, Walk(c, f, prints, cursor, end, r), Resume(c, cursor, end))
    decreases end - cursor
  {
    hide StoryTo, AtCursor;
    if cursor <= end {
      CursorKeepsStory(c, f, prints, start, r, cursor);
      WalkKeepsStory(c, f, prints, start, cursor + c.step, end, AtCursor(c, f, prints, r, cursor));
    }
  }

  lemma {:induction false} RunIsStory(c: Config, f: seq<Print> -> Signal, prints: seq<Print>, start: int, end: int)
    requires c.step >= 1 && prints != []
    ensures var trades := CloseOut(prints, Walk(c, f, prints, start, end, Begin));
            && Story(c, f, prints, start, end, trades)
            && forall k :: 0 <= k < |trades| ==> Honest(trades[k])
  {
    var r, next := Walk(c, f, prints, start, end, Begin), Resume(c, start, end);
    assert StoryTo(c, f, prints, start, Begin, start);
    WalkKeepsStory(c, f, prints, start, start, end, Begin);
    WalkEndsInTime(c, f, prints, start, end);
    hide Walk, Window, PnlPct;
    StoryEnds(c, f, prints, start, end, r, next);
  }

  lemma {:induction false} WalkEndsInTime(c: Config, f: seq<Print> -> Signal, prints: seq<Print>, start: int, end: int)
    requires c.step >= 1
    ensures var r := Walk(c, f, prints, start, end, Begin);
            && (forall k :: 0 <= k < |r.trades| ==> r.trades[k].exitTime <= end)
            && (r.position.Some? ==> r.position.value.entryTime <= end)
  {
    WalkAppends(c, f, prints, start, end, Begin);
    EntriesInTime(c, f, prints, start, end, Begin);
  }

  lemma {:induction false} EntriesInTime(c: Config, f: seq<Print> -> Signal, prints: seq<Print>, cursor: int, end: int, r: Replay)
    requires c.step >= 1 && (r.position.Some? ==> r.position.value.entryTime <= end)
    ensures var w := Walk(c, f, prints, cursor, end, r); w.position.Some? ==> w.position.value.entryTime <= end
    decreases end - cursor
  {
    hide Window, PnlPct, StopPrice;
    if cursor <= end {
      EntriesInTime(c, f, prints, cursor + c.step, end, AtCursor(c, f, prints, r, cursor));
    }
  }

  /** The story of the loop and the closing trade are the whole story. */
  lemma {:induction false} StoryEnds(c: Config, f: seq<Print> -> Signal, prints: seq<Print>, start: int, end: int,
                                     r: Replay, next: int)
    requires c.step >= 1 && prints != [] && next > end && StoryTo(c, f, prints, start, r, next)
    requires forall k :: 0 <= k < |r.trades| ==> r.trades[k].exitTime <= end
    requires r.position.Some? ==> r.position.value.entryTime <= end
    ensures Story(c, f, prints, start, end, CloseOut(prints, r))
    ensures forall k :: 0 <= k < |CloseOut(prints, r)| ==> Honest(CloseOut(prints, r)[k])
  {
    hide NoEntry, NoExit, EntersAt, DecidesAt, PnlPct, SignalAt, StopPrice, GetsOut;
    var trades, n := CloseOut(prints, r), |r.trades|;
    var since := Since(c, start, r.trades, n);
    match r.position
    case None =>
      NoEntryShorter(c, f, prints, since, next, end + 1);
      assert forall k :: 0 <= k < n ==> LeavesAt(c, f, prints, r.trades[k]);
    case Some(h) =>
      NoExitShorter(c, f, prints, h.stopPrice, h.entryTime + c.step, next, end + 1);
      assert trades == r.trades + [trades[n]];
      forall k | 0 <= k < n
        ensures TradeOk(c, f, prints, start, trades, k)
      {
        TradesStayOk(c, f, prints, start, r.trades, trades[n], k);
      }
      hide LeavesAt;
      assert Since(c, start, trades, n) == since;
  }

  // ------------------------------------------------------------------ one position at a time

  /** Trades are disjoint and in order, and an open position was entered after all of them. */
  ghost predicate Ordered(r: Replay, cursor: int) {
    && (forall k :: 0 <= k < |r.trades| ==> r.trades[k].entryTime < r.trades[k].exitTime < cursor)
    && (forall j, k :: 0 <= j < k < |r.trades| ==> r.trades[j].exitTime < r.trades[k].entryTime)
    && (r.position.Some? ==>
          && r.position.value.entryTime < cursor
          && forall k :: 0 <= k < |r.trades| ==> r.trades[k].exitTime < r.position.value.entryTime)
  }

  lemma {:induction false} WalkOrdered(c: Config, f: seq<Print> -> Signal, prints: seq<Print>,
                                       cursor: int, end: int, r: Replay)
    requires c.step >= 1 && Ordered(r, cursor)
    ensures Ordered(Walk(c, f, prints, cursor, end, r), Resume(c, cursor, end))
    decreases end - cursor
  {
    hide Ordered, AtCursor;
    if cursor <= end {
      CursorKeepsOrder(c, f, prints, cursor, r);
      WalkOrdered(c, f, prints, cursor + c.step, end, AtCursor(c, f, prints, r, cursor));
    }
  }

  lemma {:induction false} CursorKeepsOrder(c: Config, f: seq<Print> -> Signal, prints: seq<Print>, cursor: int, r: Replay)
    requires c.step >= 1 && Ordered(r, cursor)
    ensures Ordered(AtCursor(c, f, prints, r, cursor), cursor + c.step)
  {
    hide StopPrice, PnlPct, Window;
  }

  /** Every trade the loop closes has a positive length, and the next is entered only after it. */
  lemma {:induction false} TradesDisjoint(c: Config, f: seq<Print> -> Signal, prints: seq<Print>, start: int, end: int)
    requires c.step >= 1
    ensures var trades := Walk(c, f, prints, start, end, Begin).trades;
            && (forall k :: 0 <= k < |trades| ==> start <= trades[k].entryTime < trades[k].exitTime <= end)
            && (forall j, k :: 0 <= j < k < |trades| ==> trades[j].exitTime < trades[k].entryTime)
  {
    WalkOrdered(c, f, prints, start, end, Begin);
    WalkAppends(c, f, prints, start, end, Begin);
    WalkFromStart(c, f, prints, start, start, end, Begin);
  }

  lemma {:induction false} WalkFromStart(c: Config, f: seq<Print> -> Signal, prints: seq<Print>,
                                         start: int, cursor: int, end: int, r: Replay)
    requires c.step >= 1 && start <= cursor
    requires EnteredFrom(r, start)
    ensures EnteredFrom(Walk(c, f, prints, cursor, end, r), start)
    decreases end - cursor
  {
    if cursor <= end {
      WalkFromStart(c, f, prints, start, cursor + c.step, end, AtCursor(c, f, prints, r, cursor));
    }
  }

  ghost predicate EnteredFrom(r: Replay, start: int) {
    && (forall k :: 0 <= k < |r.trades| ==> start <= r.trades[k].entryTime)
    && (r.position.Some? ==> start <= r.position.value.entryTime)
  }

  // ------------------------------------------------------------------ return and drawdown

  function Growth(t: Trade): real {
    1.0 + t.pnlPct / 100.0
  }

  /** Equity after the first `k` trades, compounded from one. */
  function Equity(trades: seq<Trade>, k: nat): real
    requires k <= |trades|
  {
    if k == 0 then 1.0 else Equity(trades, k - 1) * Growth(trades[k - 1])
  }

  method TotalReturnPct(trades: seq<Trade>) returns (pct: real)
    ensures pct == (Equity(trades, |trades|) - 1.0) * 100.0
  {
    var equity := 1.0;
    for i := 0 to |trades|
      invariant equity == Equity(trades, i)
    {
      equity := equity * (1.0 + trades[i].pnlPct / 100.0);
    }
    pct := (equity - 1.0) * 100.0;
  }

  /** A trade's profit is what its two prices say. */
  ghost predicate Honest(t: Trade) {
    t.pnlPct == PnlPct(t.entryPrice, t.exitPrice)
  }

  lemma {:induction false} GrowthIsPriceRatio(t: Trade)
    requires Honest(t)
    ensures Growth(t) == t.exitPrice / t.entryPrice && Growth(t) > 0.0
  {
    var ratio := (t.exitPrice - t.entryPrice) / t.entryPrice;
    assert t.pnlPct / 100.0 == ratio;
    Ratio(t.exitPrice, t.entryPrice);
  }

  lemma {:induction false} Ratio(x: real, y: real)
    requires x > 0.0 && y > 0.0
    ensures 1.0 + (x - y) / y == x / y && x / y > 0.0
  {
    var q := x / y;
    assert q * y == x;
    assert (q - 1.0) * y == x - y;
    UniqueQuotient(x - y, y, q - 1.0);
    PositiveFactor(q, y);
  }

  lemma {:induction false} PositiveFactor(q: real, k: real)
    requires k > 0.0 && q * k > 0.0
    ensures q > 0.0
  {
  }

  lemma {:induction false} UniqueQuotient(n: real, d: real, q: real)
    requires d != 0.0 && q * d == n
    ensures n / d == q
  {
  }

  lemma {:induction false} EquityPositive(trades: seq<Trade>, k: nat)
    requires k <= |trades| && forall i :: 0 <= i < |trades| ==> Honest(trades[i])
    ensures Equity(trades, k) > 0.0
  {
    if k > 0 {
      EquityPositive(trades, k - 1);
      GrowthIsPriceRatio(trades[k - 1]);
      ProductPositive(Equity(trades, k - 1), Growth(trades[k - 1]));
    }
  }

  /** The fall from one equity level to a later one, relative to the first. */
  function Fall(from: real, to: real): real {
    if from == 0.0 then 0.0 else (from - to) / from
  }

  /** No fall between the first `k` equity levels is deeper, and one of them is that deep. */
  ghost predicate Deepest(trades: seq<Trade>, k: nat, dd: real)
    requires k <= |trades|
  {
    && (forall i, j :: 0 <= i <= j <= k ==> Fall(Equity(trades, i), Equity(trades, j)) <= dd)
    && exists i, j :: 0 <= i <= j <= k && Fall(Equity(trades, i), Equity(trades, j)) == dd
  }

  ghost predicate IsPeak(trades: seq<Trade>, k: nat, peak: real)
    requires k <= |trades|
  {
    && (forall i :: 0 <= i <= k ==> 0.0 < Equity(trades, i) <= peak)
    && exists i :: 0 <= i <= k && Equity(trades, i) == peak
  }

  /** The program's one pass with a running peak finds the largest fall from any equity level to any
      later one. */
  method MaxDrawdownPct(trades: seq<Trade>) returns (pct: Option<real>)
    requires forall i :: 0 <= i < |trades| ==> Honest(trades[i])
    ensures pct.None? <==> trades == []
    ensures pct.Some? ==> Deepest(trades, |trades|, pct.value / 100.0)
  {
    hide *;
    if trades == [] {
      return None;
    }
    var equity, peak, maxDd := 1.0, 1.0, 0.0;
    DrawdownStart(trades);
    for k := 0 to |trades|
      invariant equity == Equity(trades, k)
      invariant IsPeak(trades, k, peak) && Deepest(trades, k, maxDd)
    {
      EquityStep(trades, k);
      EquityPositive(trades, k + 1);
      PeakStep(trades, k, peak);
      equity := equity * (1.0 + trades[k].pnlPct / 100.0);
      assert equity == Equity(trades, k + 1);
      if equity > peak {
        peak := equity;
        assert IsPeak(trades, k + 1, equity);
      }
      assert IsPeak(trades, k + 1, peak);
      DrawdownStep(trades, k, peak, maxDd);
      if Fall(peak, equity) > maxDd {
        maxDd := Fall(peak, equity);
      }
    }
    pct := Some(maxDd * 100.0);
    UniqueQuotient(maxDd * 100.0, 100.0, maxDd);
  }

  lemma {:induction false} DrawdownStart(trades: seq<Trade>)
    ensures IsPeak(trades, 0, 1.0) && Deepest(trades, 0, 0.0) && Equity(trades, 0) == 1.0
  {
    assert Equity(trades, 0) == 1.0 && Fall(Equity(trades, 0), Equity(trades, 0)) == 0.0;
  }

  lemma {:induction false} EquityStep(trades: seq<Trade>, k: nat)
    requires k < |trades|
    ensures Equity(trades, k + 1) == Equity(trades, k) * (1.0 + trades[k].pnlPct / 100.0)
  {
  }

  lemma {:induction false} PeakStep(trades: seq<Trade>, k: nat, peak: real)
    requires k < |trades| && IsPeak(trades, k, peak) && Equity(trades, k + 1) > 0.0
    ensures IsPeak(trades, k + 1, if Equity(trades, k + 1) > peak then Equity(trades, k + 1) else peak)
  {
    hide Equity;
    var i :| 0 <= i <= k && Equity(trades, i) == peak;
    var now := Equity(trades, k + 1);
    if now > peak {
      assert Equity(trades, k + 1) == now;
    }
  }

  /** The deepest fall into the new level starts at the peak. */
  lemma {:induction false} DrawdownStep(trades: seq<Trade>, k: nat, peak: real, dd: real)
    requires k < |trades| && IsPeak(trades, k + 1, peak) && Deepest(trades, k, dd)
    ensures var fall := Fall(peak, Equity(trades, k + 1));
            Deepest(trades, k + 1, if fall > dd then fall else dd)
  {
    hide Equity, Fall;
    var now := Equity(trades, k + 1);
    var fall := Fall(peak, now);
    forall i, j | 0 <= i <= j <= k + 1
      ensures Fall(Equity(trades, i), Equity(trades, j)) <= if fall > dd then fall else dd
    {
      if j == k + 1 {
        FallFromHigher(Equity(trades, i), peak, now);
      }
    }
    var top :| 0 <= top <= k + 1 && Equity(trades, top) == peak;
    var high, low :| 0 <= high <= low <= k && Fall(Equity(trades, high), Equity(trades, low)) == dd;
    if fall > dd {
      assert Fall(Equity(trades, top), Equity(trades, k + 1)) == fall;
    } else {
      assert 0 <= high <= low <= k + 1;
    }
  }

  lemma {:induction false} FallFromHigher(a: real, b: real, to: real)
    requires 0.0 < a <= b && to > 0.0
    ensures Fall(a, to) <= Fall(b, to)
  {
    hide Fall;
    OneMinus(a, to);
    OneMinus(b, to);
    SmallerShare(a, b, to, to / a, to / b);
  }

  lemma {:induction false} SmallerShare(a: real, b: real, to: real, p: real, q: real)
    requires 0.0 < a <= b && q > 0.0 && p * a == to && q * b == to
    ensures q <= p
  {
    Scale(q, a, b);
    Cancel(q, p, a);
  }

  lemma {:induction false} OneMinus(a: real, to: real)
    requires a > 0.0 && to > 0.0
    ensures Fall(a, to) == 1.0 - to / a && to / a > 0.0
  {
    Ratio(to, a);
    assert (1.0 - to / a) * a == a - to;
    UniqueQuotient(a - to, a, 1.0 - to / a);
  }
}
