/** One-minute bars, drift and trend (control-api/app/signal_forecast.py).

    Times are whole microseconds, prices exact reals; the logarithm is any function with the quotient
    law. Volatility, horizons and confidence bands are not modelled. */
module Forecast {
  import opened Common

  datatype Row = Row(time: Option<int>, price: Option<real>)

  datatype Print = Print(t: int, price: real)

  /** A bar starts on a minute boundary and closes at its last print. */
  datatype Bar = Bar(t: int, close: real)

  datatype Trend = Up | Down | Flat

  datatype Forecast = Forecast(last: Option<real>, trend: Trend, drift: Option<real>, sampledMinutes: nat)

  const Bucket := 60_000_000
  const TrendThreshold := 0.0002

  // ------------------------------------------------------------------ cleaning and sorting

  function Readable(rows: seq<Row>): seq<Print> {
    if rows == [] then []
    else
      var r := rows[0];
      (if r.time.Some? && r.price.Some? then [Print(r.time.value, r.price.value)] else []) + Readable(rows[1..])
  }

  /** Insert after every print that is not later: equal times keep their order. */
  function Insert(sorted: seq<Print>, p: Print): seq<Print> {
    if sorted == [] then [p]
    else if p.t < sorted[0].t then [p] + sorted
    else [sorted[0]] + Insert(sorted[1..], p)
  }

  function SortByTime(ps: seq<Print>): seq<Print> {
    if ps == [] then [] else Insert(SortByTime(ps[..|ps| - 1]), ps[|ps| - 1])
  }

  function Clean(rows: seq<Row>): seq<Print> {
    SortByTime(Readable(rows))
  }

  ghost predicate Sorted(ps: seq<Print>) {
    forall i, j :: 0 <= i < j < |ps| ==> ps[i].t <= ps[j].t
  }

  /** The prints of one moment, in order. */
  function AtTime(ps: seq<Print>, t: int): seq<Print> {
    if ps == [] then [] else (if ps[0].t == t then [ps[0]] else []) + AtTime(ps[1..], t)
  }

  lemma {:induction false} InsertKeepsAll(sorted: seq<Print>, p: Print)
    ensures multiset(Insert(sorted, p)) == multiset(sorted) + multiset{p}
  {
    if sorted != [] && p.t >= sorted[0].t {
      var rest := Insert(sorted[1..], p);
      assert Insert(sorted, p) == [sorted[0]] + rest;
      InsertKeepsAll(sorted[1..], p);
      hide Insert;
      assert sorted == [sorted[0]] + sorted[1..];
    }
  }

  lemma {:induction false} InsertSorts(sorted: seq<Print>, p: Print)
    requires Sorted(sorted)
    ensures Sorted(Insert(sorted, p))
  {
    if sorted != [] && p.t < sorted[0].t {
      FrontOfSorted(p, sorted);
    } else if sorted != [] {
      var rest := Insert(sorted[1..], p);
      InsertSorts(sorted[1..], p);
      InsertKeepsAll(sorted[1..], p);
      hide Insert;
      forall k | 0 <= k < |rest|
        ensures sorted[0].t <= rest[k].t
      {
        assert rest[k] in multiset(rest);
      }
      FrontOfSorted(sorted[0], rest);
    }
  }

  lemma {:induction false} FrontOfSorted(p: Print, rest: seq<Print>)
    requires Sorted(rest) && forall k :: 0 <= k < |rest| ==> p.t <= rest[k].t
    ensures Sorted([p] + rest)
  {
  }

  lemma {:induction false} EmptySorted(ps: seq<Print>)
    requires ps == []
    ensures Sorted(ps)
  {
  }

  lemma {:induction false} InsertIsStable(sorted: seq<Print>, p: Print, t: int)
    requires Sorted(sorted)
    ensures AtTime(Insert(sorted, p), t) == AtTime(sorted, t) + if p.t == t then [p] else []
  {
    hide AtTime;
    if sorted == [] {
      AtTimeFront(p, [], t);
      NoneAtTime([], t);
      assert [p] + [] == [p];
    } else if p.t < sorted[0].t {
      AtTimeFront(p, sorted, t);
      if p.t == t {
        NoneAtTime(sorted, t);
      }
    } else {
      var rest := sorted[1..];
      InsertIsStable(rest, p, t);
      AtTimeFront(sorted[0], Insert(rest, p), t);
      AtTimeFront(sorted[0], rest, t);
      assert sorted == [sorted[0]] + rest;
    }
  }

  lemma {:induction false} AtTimeFront(p: Print, rest: seq<Print>, t: int)
    ensures AtTime([p] + rest, t) == (if p.t == t then [p] else []) + AtTime(rest, t)
  {
    assert ([p] + rest)[1..] == rest;
  }

  lemma {:induction false} NoneAtTime(ps: seq<Print>, t: int)
    requires forall i :: 0 <= i < |ps| ==> ps[i].t > t
    ensures AtTime(ps, t) == []
  {
    if ps != [] {
      NoneAtTime(ps[1..], t);
    }
  }

  lemma {:induction false} AtTimeSnoc(ps: seq<Print>, p: Print, t: int)
    ensures AtTime(ps + [p], t) == AtTime(ps, t) + if p.t == t then [p] else []
  {
    if ps != [] {
      assert (ps + [p])[1..] == ps[1..] + [p];
      AtTimeSnoc(ps[1..], p, t);
    } else {
      assert ([p])[1..] == [];
    }
  }

  /** The cleaned prints are the readable ones, in time order, equal times in arrival order. */
  lemma {:induction false} SortIsStable(ps: seq<Print>, t: int)
    ensures Sorted(SortByTime(ps)) && multiset(SortByTime(ps)) == multiset(ps)
    ensures AtTime(SortByTime(ps), t) == AtTime(ps, t)
  {
    hide AtTime, Insert, Sorted;
    if ps == [] {
      NoneAtTime(ps, t);
      EmptySorted(ps);
    } else {
      var init, p := ps[..|ps| - 1], ps[|ps| - 1];
      SortIsStable(init, t);
      InsertSorts(SortByTime(init), p);
      InsertKeepsAll(SortByTime(init), p);
      InsertIsStable(SortByTime(init), p, t);
      assert ps == init + [p];
      AtTimeSnoc(init, p, t);
    }
  }

  // ------------------------------------------------------------------ bars

  function Minute(t: int): int {
    t / Bucket * Bucket
  }

  lemma {:induction false} MinuteHolds(t: int)
    ensures Minute(t) <= t < Minute(t) + 60_000_000 && Minute(t) % 60_000_000 == 0
  {
  }

  lemma {:induction false} MinuteMonotone(s: int, t: int)
    requires s <= t
    ensures Minute(s) <= Minute(t)
  {
  }

  lemma {:induction false} MinuteOf(b: int, t: int)
    requires b % Bucket == 0 && b <= t < b + Bucket
    ensures Minute(t) == b
  {
  }

  /** One more print: it moves the close of its minute's bar, or opens a bar. */
  function AddPrint(bars: seq<Bar>, p: Print): seq<Bar> {
    var n := |bars|;
    if n > 0 && bars[n - 1].t == Minute(p.t) then bars[n - 1 := Bar(bars[n - 1].t, p.price)]
    else bars + [Bar(Minute(p.t), p.price)]
  }

  function Bars(ps: seq<Print>): seq<Bar> {
    if ps == [] then [] else AddPrint(Bars(ps[..|ps| - 1]), ps[|ps| - 1])
  }

  lemma {:induction false} BarsOfNone()
    ensures Bars([]) == []
  {
  }

  lemma {:induction false} BarsSnoc(ps: seq<Print>, i: nat)
    requires i < |ps|
    ensures Bars(ps[..i + 1]) == AddPrint(Bars(ps[..i]), ps[i])
  {
    assert ps[..i + 1][..i] == ps[..i];
  }

  /** The program's one pass: a bucket that is moved forward minute by minute, across empty minutes. */
  method BuildBars(clean: seq<Print>) returns (bars: seq<Bar>)
    requires clean != [] && Sorted(clean)
    ensures bars == Bars(clean)
  {
    hide Bars, Minute;
    bars := [];
    BarsOfNone();
    MinuteHolds(clean[0].t);
    var bucketStart := Minute(clean[0].t);
    var cur := false;
    for i := 0 to |clean|
      invariant bars == Bars(clean[..i])
      invariant bucketStart % Bucket == 0
      invariant i == 0 ==> !cur && bars == [] && bucketStart == Minute(clean[0].t)
      invariant i > 0 ==> cur && bars != [] && bars[|bars| - 1].t == bucketStart == Minute(clean[i - 1].t)
    {
      var p := clean[i];
      MinuteHolds(p.t);
      if i > 0 {
        MinuteMonotone(clean[i - 1].t, p.t);
      }
      while p.t >= bucketStart + Bucket
        invariant bucketStart % Bucket == 0 && bucketStart <= p.t
        invariant cur ==> i > 0 && bucketStart == Minute(clean[i - 1].t)
        invariant !cur && i > 0 ==> bucketStart > Minute(clean[i - 1].t)
        decreases p.t - bucketStart
      {
        bucketStart := bucketStart + Bucket;
        cur := false;
      }
      MinuteOf(bucketStart, p.t);
      if !cur {
        cur := true;
        bars := bars + [Bar(bucketStart, p.price)];
      }
      bars := bars[|bars| - 1 := Bar(bars[|bars| - 1].t, p.price)];
      BarsSnoc(clean, i);
    }
    assert clean[..|clean|] == clean;
  }

  /** Bar `b` closes at print `k`: the last print of its minute. */
  ghost predicate ClosesAt(ps: seq<Print>, b: Bar, k: nat) {
    && k < |ps| && Minute(ps[k].t) == b.t && ps[k].price == b.close
    && forall m :: k < m < |ps| ==> Minute(ps[m].t) > b.t
  }

  /** What the bars are, without the loop: strictly increasing minutes, one for every minute that has a
      print and no others, each closing at its minute's last print. */
  ghost predicate Describes(bars: seq<Bar>, ps: seq<Print>) {
    IncreasingMinutes(bars) && CoversMinutes(bars, ps) && AllClose(bars, ps)
  }

  ghost predicate IncreasingMinutes(bars: seq<Bar>) {
    forall i, j :: 0 <= i < j < |bars| ==> bars[i].t < bars[j].t
  }

  ghost predicate HasBar(bars: seq<Bar>, minute: int) {
    exists i :: 0 <= i < |bars| && bars[i].t == minute
  }

  ghost predicate CoversMinutes(bars: seq<Bar>, ps: seq<Print>) {
    forall k :: 0 <= k < |ps| ==> HasBar(bars, Minute(ps[k].t))
  }

  ghost predicate HasClose(ps: seq<Print>, b: Bar) {
    exists k :: ClosesAt(ps, b, k)
  }

  ghost predicate AllClose(bars: seq<Bar>, ps: seq<Print>) {
    forall i :: 0 <= i < |bars| ==> HasClose(ps, bars[i])
  }

  lemma {:induction false} BarsDescribe(ps: seq<Print>)
    requires Sorted(ps)
    ensures Describes(Bars(ps), ps) && EndsWith(Bars(ps), ps)
    decreases |ps|
  {
    hide Minute, Describes;
    if ps == [] {
      EmptyDescribes();
    } else {
      var init, p := ps[..|ps| - 1], ps[|ps| - 1];
      BarsDescribe(init);
      assert ps == init + [p];
      EarlierMinute(init, p);
      DescribeOneMore(Bars(init), init, p);
    }
  }

  lemma {:induction false} EmptyDescribes()
    ensures Describes([], [])
  {
  }

  /** The last bar is the minute of the last print and closes at it. */
  ghost predicate EndsWith(bars: seq<Bar>, ps: seq<Print>) {
    if ps == [] then bars == []
    else bars != [] && bars[|bars| - 1] == Bar(Minute(ps[|ps| - 1].t), ps[|ps| - 1].price)
  }

  lemma {:induction false} EarlierMinute(init: seq<Print>, p: Print)
    requires Sorted(init + [p])
    ensures init != [] ==> Minute(init[|init| - 1].t) <= Minute(p.t)
  {
    if init != [] {
      var ps := init + [p];
      assert ps[|init| - 1] == init[|init| - 1] && ps[|init|] == p;
      MinuteMonotone(init[|init| - 1].t, p.t);
    }
  }

  lemma {:induction false} DescribeOneMore(bars: seq<Bar>, init: seq<Print>, p: Print)
    requires Describes(bars, init) && EndsWith(bars, init)
    requires init != [] ==> Minute(init[|init| - 1].t) <= Minute(p.t)
    ensures Describes(AddPrint(bars, p), init + [p]) && EndsWith(AddPrint(bars, p), init + [p])
  {
    hide Minute, CoversMinutes, AllClose;
    CoverOneMore(bars, init, p);
    CloseOneMore(bars, init, p);
  }

  lemma {:induction false} CoverOneMore(bars: seq<Bar>, init: seq<Print>, p: Print)
    requires CoversMinutes(bars, init)
    ensures CoversMinutes(AddPrint(bars, p), init + [p])
  {
    hide Minute;
    var ps, more := init + [p], AddPrint(bars, p);
    forall k | 0 <= k < |ps|
      ensures HasBar(more, Minute(ps[k].t))
    {
      if k == |init| {
        assert more[|more| - 1].t == Minute(ps[k].t);
      } else {
        assert HasBar(bars, Minute(init[k].t));
        var i :| 0 <= i < |bars| && bars[i].t == Minute(init[k].t);
        assert more[i].t == bars[i].t;
      }
    }
  }

  lemma {:induction false} CloseOneMore(bars: seq<Bar>, init: seq<Print>, p: Print)
    requires AllClose(bars, init) && IncreasingMinutes(AddPrint(bars, p))
    ensures AllClose(AddPrint(bars, p), init + [p])
  {
    hide Minute;
    var ps, more := init + [p], AddPrint(bars, p);
    var last := |more| - 1;
    assert ClosesAt(ps, more[last], |init|);
    forall i | 0 <= i < last
      ensures HasClose(ps, more[i])
    {
      assert more[i] == bars[i] && HasClose(init, bars[i]);
      var k :| ClosesAt(init, bars[i], k);
      assert ClosesAt(ps, more[i], k);
    }
  }

  // ------------------------------------------------------------------ drift and trend

  /** Log returns between neighbouring bars, skipping those that start at a close that is not positive. */
  function Returns(bars: seq<Bar>, log: real -> real): seq<real> {
    if |bars| < 2 then []
    else
      (if bars[0].close > 0.0 then [log(bars[1].close / bars[0].close)] else []) + Returns(bars[1..], log)
  }

  function Sum(xs: seq<real>): real {
    if xs == [] then 0.0 else xs[0] + Sum(xs[1..])
  }

  function Drift(bars: seq<Bar>, log: real -> real): real {
    var rets := Returns(bars, log);
    if |rets| == 0 then 0.0 else Sum(rets) / (|rets| as real)
  }

  function TrendOf(drift: real): Trend {
    if drift > TrendThreshold then Up else if drift < -TrendThreshold then Down else Flat
  }

  function BuildTimeForecast(rows: seq<Row>, log: real -> real): Forecast {
    var clean := Clean(rows);
    if |clean| < 3 then
      Forecast(if clean == [] then None else Some(clean[|clean| - 1].price), Flat, None, 0)
    else
      var bars := Bars(clean);
      var last := if bars == [] then None else Some(bars[|bars| - 1].close);
      if |bars| < 3 then Forecast(last, Flat, None, |bars|)
      else
        var drift := Drift(bars, log);
        Forecast(last, TrendOf(drift), Some(drift), |bars|)
  }

  ghost predicate QuotientLaw(log: real -> real) {
    forall a, b :: a > 0.0 && b > 0.0 ==> log(a / b) == log(a) - log(b)
  }

  ghost predicate PositiveCloses(bars: seq<Bar>) {
    forall i :: 0 <= i < |bars| ==> bars[i].close > 0.0
  }

  lemma {:induction false} ReturnsTelescope(bars: seq<Bar>, log: real -> real)
    requires QuotientLaw(log) && PositiveCloses(bars) && bars != []
    ensures |Returns(bars, log)| == |bars| - 1
    ensures Sum(Returns(bars, log)) == log(bars[|bars| - 1].close) - log(bars[0].close)
    decreases |bars|
  {
    if |bars| >= 2 {
      ReturnsTelescope(bars[1..], log);
      assert log(bars[1].close / bars[0].close) == log(bars[1].close) - log(bars[0].close);
      var r := log(bars[1].close / bars[0].close);
      assert ([r] + Returns(bars[1..], log))[1..] == Returns(bars[1..], log);
    }
  }

  /** With positive closes the drift telescopes: it depends on the first and last close and the number
      of bars alone, and so does the trend. */
  lemma {:induction false} DriftTelescopes(bars: seq<Bar>, log: real -> real)
    requires QuotientLaw(log) && PositiveCloses(bars) && |bars| >= 2
    ensures var gain := log(bars[|bars| - 1].close) - log(bars[0].close);
            var steps := (|bars| - 1) as real;
            && Drift(bars, log) == gain / steps
            && (TrendOf(Drift(bars, log)) == Up <==> gain > TrendThreshold * steps)
            && (TrendOf(Drift(bars, log)) == Down <==> gain < -TrendThreshold * steps)
  {
    ReturnsTelescope(bars, log);
    hide QuotientLaw, PositiveCloses, Returns, Sum;
    TrendByGain(log(bars[|bars| - 1].close) - log(bars[0].close), (|bars| - 1) as real);
  }

  lemma {:induction false} TrendByGain(gain: real, steps: real)
    requires steps > 0.0
    ensures TrendOf(gain / steps) == Up <==> gain > TrendThreshold * steps
    ensures TrendOf(gain / steps) == Down <==> gain < -TrendThreshold * steps
  {
    Quotients(gain, steps, TrendThreshold);
    Quotients(gain, steps, -TrendThreshold);
  }

  lemma {:induction false} Quotients(x: real, n: real, h: real)
    requires n > 0.0
    ensures x / n > h <==> x > h * n
    ensures x / n < h <==> x < h * n
  {
    var q := x / n;
    assert q * n == x;
    assert q > h ==> q * n > h * n;
    assert q < h ==> q * n < h * n;
  }

  /** A print is the latest of its series: none is later, and none of its moment arrived after it. */
  ghost predicate IsLatest(ps: seq<Print>, p: Print) {
    && p in ps
    && (forall j :: 0 <= j < |ps| ==> ps[j].t <= p.t)
    && (var same := AtTime(ps, p.t); same != [] && same[|same| - 1] == p)
  }

  lemma {:induction false} EndsItsMoment(ps: seq<Print>)
    requires ps != []
    ensures var p := ps[|ps| - 1]; var same := AtTime(ps, p.t); same != [] && same[|same| - 1] == p
  {
    var p := ps[|ps| - 1];
    assert ps == ps[..|ps| - 1] + [p];
    AtTimeSnoc(ps[..|ps| - 1], p, p.t);
  }

  lemma {:induction false} SameElements(ps: seq<Print>, qs: seq<Print>)
    requires multiset(ps) == multiset(qs)
    ensures |ps| == |qs| && forall p :: p in ps <==> p in qs
  {
    assert |ps| == |multiset(ps)| && |qs| == |multiset(qs)|;
    assert forall p :: p in ps <==> p in multiset(ps);
  }

  lemma {:induction false} CleanEndsWithLatest(rows: seq<Row>)
    ensures var clean := Clean(rows);
            && |clean| == |Readable(rows)|
            && (clean != [] ==> IsLatest(Readable(rows), clean[|clean| - 1]))
  {
    hide SortByTime, Readable, AtTime;
    var ps, clean := Readable(rows), Clean(rows);
    SortIsStable(ps, 0);
    SameElements(ps, clean);
    if clean != [] {
      SortIsStable(ps, clean[|clean| - 1].t);
      EndsItsMoment(clean);
      forall j | 0 <= j < |ps|
        ensures ps[j].t <= clean[|clean| - 1].t
      {
        assert ps[j] in clean;
      }
    }
  }

  lemma {:induction false} LastIsCleanLast(rows: seq<Row>, log: real -> real)
    ensures var clean := Clean(rows);
            BuildTimeForecast(rows, log).last == if clean == [] then None else Some(clean[|clean| - 1].price)
  {
    hide SortByTime, Readable, AtTime, Bars, Describes, Drift, TrendOf, Minute;
    SortIsStable(Readable(rows), 0);
    BarsDescribe(Clean(rows));
  }

  /** The reported last price is the price of the latest print, and there is one unless no row can be
      read. */
  lemma {:induction false} LastIsLatestPrint(rows: seq<Row>, log: real -> real)
    ensures BuildTimeForecast(rows, log).last == None <==> Readable(rows) == []
    ensures var last := BuildTimeForecast(rows, log).last;
            last.Some? ==> exists p :: IsLatest(Readable(rows), p) && p.price == last.value
  {
    hide SortByTime, Readable, AtTime, Bars, IsLatest, BuildTimeForecast;
    LastIsCleanLast(rows, log);
    CleanEndsWithLatest(rows);
  }

  // ------------------------------------------------------------------ the whole forecast, from the rows

  /** The minutes that have a print. */
  ghost function Minutes(ps: seq<Print>): set<int> {
    set k | 0 <= k < |ps| :: Minute(ps[k].t)
  }

  function BarTime(b: Bar): int { b.t }

  lemma {:induction false} IncreasingCount(bars: seq<Bar>)
    requires IncreasingMinutes(bars)
    ensures |set i | 0 <= i < |bars| :: BarTime(bars[i])| == |bars|
    decreases |bars|
  {
    var times := set i | 0 <= i < |bars| :: BarTime(bars[i]);
    if bars == [] {
      assert times == {};
    } else {
      var n := |bars| - 1;
      var init := bars[..n];
      IncreasingCount(init);
      var before := set i | 0 <= i < |init| :: BarTime(init[i]);
      forall t | t in times
        ensures t in before + {BarTime(bars[n])}
      {
        var i :| 0 <= i < |bars| && BarTime(bars[i]) == t;
        assert i < n ==> init[i] == bars[i];
      }
      forall t | t in before
        ensures t in times && t != BarTime(bars[n])
      {
        var i :| 0 <= i < |init| && BarTime(init[i]) == t;
        assert bars[i] == init[i];
      }
      assert times == before + {BarTime(bars[n])};
    }
  }

  /** As many bars as minutes with a print. */
  lemma {:induction false} BarsCountMinutes(bars: seq<Bar>, ps: seq<Print>)
    requires Describes(bars, ps)
    ensures |bars| == |Minutes(ps)|
  {
    hide Minute;
    var times := set i | 0 <= i < |bars| :: BarTime(bars[i]);
    forall t | t in times
      ensures t in Minutes(ps)
    {
      var i :| 0 <= i < |bars| && BarTime(bars[i]) == t;
      assert HasClose(ps, bars[i]);
      var k: nat :| ClosesAt(ps, bars[i], k);
      assert Minute(ps[k].t) == t;
    }
    forall t | t in Minutes(ps)
      ensures t in times
    {
      var k :| 0 <= k < |ps| && Minute(ps[k].t) == t;
      assert HasBar(bars, Minute(ps[k].t));
      var i :| 0 <= i < |bars| && bars[i].t == t;
      assert BarTime(bars[i]) == t;
    }
    assert times == Minutes(ps);
    IncreasingCount(bars);
  }

  lemma {:induction false} MinutesOfSame(ps: seq<Print>, qs: seq<Print>)
    requires forall p :: p in ps <==> p in qs
    ensures Minutes(ps) == Minutes(qs)
  {
    hide Minute;
    MinutesWithin(ps, qs);
    MinutesWithin(qs, ps);
  }

  lemma {:induction false} MinutesWithin(ps: seq<Print>, qs: seq<Print>)
    requires forall p :: p in ps ==> p in qs
    ensures Minutes(ps) <= Minutes(qs)
  {
    hide Minute;
    forall m | m in Minutes(ps)
      ensures m in Minutes(qs)
    {
      var k :| 0 <= k < |ps| && Minute(ps[k].t) == m;
      assert ps[k] in qs;
      var j :| 0 <= j < |qs| && qs[j] == ps[k];
      assert Minute(qs[j].t) == m;
    }
  }

  /** A print closes the first minute: no minute is earlier, no print of this one is later, and none of
      its moment arrived after it. */
  ghost predicate ClosesFirstMinute(ps: seq<Print>, p: Print) {
    && p in ps
    && (forall q :: q in ps ==> Minute(p.t) <= Minute(q.t))
    && (forall q :: q in ps && Minute(q.t) == Minute(p.t) ==> q.t <= p.t)
    && (var same := AtTime(ps, p.t); same != [] && same[|same| - 1] == p)
  }

  lemma {:induction false} AtTimeAppend(a: seq<Print>, b: seq<Print>, t: int)
    ensures AtTime(a + b, t) == AtTime(a, t) + AtTime(b, t)
  {
    if a == [] {
      assert a + b == b;
    } else {
      assert (a + b)[0] == a[0] && (a + b)[1..] == a[1..] + b;
      AtTimeAppend(a[1..], b, t);
    }
  }

  /** The print that closes a bar is the last of its moment. */
  lemma {:induction false} CloserEndsItsMoment(ps: seq<Print>, b: Bar, k: nat)
    requires Sorted(ps) && ClosesAt(ps, b, k)
    ensures var same := AtTime(ps, ps[k].t); same != [] && same[|same| - 1] == ps[k]
    ensures forall q :: q in ps && Minute(q.t) == b.t ==> q.t <= ps[k].t
  {
    hide AtTime, Minute;
    var (front, rest) := (ps[..k + 1], ps[k + 1..]);
    assert ps == front + rest;
    AtTimeAppend(front, rest, ps[k].t);
    EndsItsMoment(front);
    forall j | 0 <= j < |rest|
      ensures rest[j].t > ps[k].t
    {
      assert rest[j] == ps[k + 1 + j];
      assert Minute(ps[k + 1 + j].t) > b.t;
    }
    NoneAtTime(rest, ps[k].t);
  }

  lemma {:induction false} FirstBarClosesFirstMinute(rows: seq<Row>) returns (p: Print)
    requires Readable(rows) != []
    ensures var bars := Bars(Clean(rows));
            bars != [] && ClosesFirstMinute(Readable(rows), p) && p.price == bars[0].close
  {
    hide SortByTime, Readable, AtTime, Bars, Minute;
    var ps, clean := Readable(rows), Clean(rows);
    var bars := Bars(clean);
    SortIsStable(ps, 0);
    SameElements(ps, clean);
    BarsDescribe(clean);
    assert HasClose(clean, bars[0]);
    var k: nat :| ClosesAt(clean, bars[0], k);
    p := clean[k];
    CloserEndsItsMoment(clean, bars[0], k);
    SortIsStable(ps, p.t);
    forall q | q in ps
      ensures Minute(p.t) <= Minute(q.t)
    {
      var j :| 0 <= j < |clean| && clean[j] == q;
      assert HasBar(bars, Minute(clean[j].t));
    }
  }

  lemma {:induction false} BarsPositive(rows: seq<Row>)
    requires forall p :: p in Readable(rows) ==> p.price > 0.0
    ensures PositiveCloses(Bars(Clean(rows)))
  {
    hide SortByTime, Readable, Bars, Minute;
    var ps, clean := Readable(rows), Clean(rows);
    var bars := Bars(clean);
    SortIsStable(ps, 0);
    SameElements(ps, clean);
    BarsDescribe(clean);
    forall i | 0 <= i < |bars|
      ensures bars[i].close > 0.0
    {
      assert HasClose(clean, bars[i]);
      var k: nat :| ClosesAt(clean, bars[i], k);
      assert clean[k] in ps;
    }
  }

  /** The forecast counts the minutes that have a print; with fewer than three prints it counts none, and
      with fewer than three minutes it gives no drift and a flat trend. */
  lemma {:induction false} ForecastSamples(rows: seq<Row>, log: real -> real)
    ensures var f := BuildTimeForecast(rows, log);
            var ps := Readable(rows);
            && f.sampledMinutes == (if |ps| < 3 then 0 else |Minutes(ps)|)
            && (f.drift.Some? <==> f.sampledMinutes >= 3)
            && (f.drift.None? ==> f.trend == Flat)
  {
    hide SortByTime, Readable, Bars, Minutes, Describes, Drift, TrendOf;
    var ps, clean := Readable(rows), Clean(rows);
    SortIsStable(ps, 0);
    SameElements(ps, clean);
    BarsDescribe(clean);
    BarsCountMinutes(Bars(clean), clean);
    MinutesOfSame(ps, clean);
  }

  /** The log gain from the first minute's close to the last price, over the steps between the minutes. */
  ghost predicate DriftsFrom(f: Forecast, p: Print, log: real -> real) {
    && f.last.Some? && f.drift.Some? && f.sampledMinutes >= 2
    && var gain := log(f.last.value) - log(p.price);
       var steps := (f.sampledMinutes - 1) as real;
       && f.drift.value == gain / steps
       && (f.trend == Up <==> gain > 0.0002 * steps)
       && (f.trend == Down <==> gain < -0.0002 * steps)
  }

  /** With positive prices the drift and the trend come from the first minute's close and the last price
      alone, whatever the prices between did. */
  lemma {:induction false} ForecastIsEndToEnd(rows: seq<Row>, log: real -> real)
    requires QuotientLaw(log) && forall p :: p in Readable(rows) ==> p.price > 0.0
    requires BuildTimeForecast(rows, log).drift.Some?
    ensures exists p :: ClosesFirstMinute(Readable(rows), p) && DriftsFrom(BuildTimeForecast(rows, log), p, log)
  {
    hide SortByTime, Readable, Bars, Minutes, Drift, TrendOf, QuotientLaw, PositiveCloses, ClosesFirstMinute;
    var bars := Bars(Clean(rows));
    ForecastSamples(rows, log);
    SortIsStable(Readable(rows), 0);
    SameElements(Readable(rows), Clean(rows));
    BarsPositive(rows);
    DriftTelescopes(bars, log);
    var p := FirstBarClosesFirstMinute(rows);
    assert DriftsFrom(BuildTimeForecast(rows, log), p, log);
  }
}
