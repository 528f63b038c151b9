/** Whole runs of the watchdog: what the restart limit, the escalations and the cooldowns guarantee
    together, over any sequence of snapshots and visits and any answers from outside. */
module WatchdogRuns {
  import opened Common
  import opened Flap
  import opened Watchdog

  /** A run is any sequence of opening snapshots and visits. This includes every sequence of passes,
      also of passes cut short by an exception. */
  datatype Step = Open(services: seq<string>, readings: seq<Status>) | At(service: string, obs: Obs)

  function Apply(c: Config, s: State, step: Step): State {
    match step
    case Open(services, readings) =>
      if |services| == |readings| then Snapshot(s.(statusMap := map[]), services, readings) else s
    case At(service, obs) => After(s, Visit(c, s.tracker, s.statusMap, service, obs))
  }

  function Exec(c: Config, s: State, steps: seq<Step>): State
    decreases |steps|
  {
    if steps == [] then s else Exec(c, Apply(c, s, steps[0]), steps[1..])
  }

  /** The clock never runs backwards along the run. */
  ghost predicate TimedFrom(steps: seq<Step>, from: real)
    decreases |steps|
  {
    steps != [] ==>
      match steps[0]
      case Open(_, _) => TimedFrom(steps[1..], from)
      case At(_, o) => Timed(o, from, o.tCount) && TimedFrom(steps[1..], o.tCount)
  }

  const Initial := State(Fresh, map[], [])

  lemma {:induction false} ExecConcat(c: Config, s: State, x: seq<Step>, y: seq<Step>)
    ensures Exec(c, s, x + y) == Exec(c, Exec(c, s, x), y)
    decreases |x|
  {
    if x == [] {
      assert x + y == y;
    } else {
      assert (x + y)[1..] == x[1..] + y;
      ExecConcat(c, Apply(c, s, x[0]), x[1..], y);
    }
  }

  // ------------------------------------------------------------------ restarts in the trace

  function RestartTimes(trace: seq<Event>, service: string): seq<real>
    decreases |trace|
  {
    if trace == [] then []
    else (if trace[0].Restart? && trace[0].service == service then [trace[0].at] else [])
         + RestartTimes(trace[1..], service)
  }

  lemma {:induction false} RestartTimesConcat(x: seq<Event>, y: seq<Event>, service: string)
    ensures RestartTimes(x + y, service) == RestartTimes(x, service) + RestartTimes(y, service)
    decreases |x|
  {
    if x == [] {
      assert x + y == y;
    } else {
      assert (x + y)[1..] == x[1..] + y;
      RestartTimesConcat(x[1..], y, service);
    }
  }

  lemma {:induction false} NoRestarts(x: seq<Event>, service: string)
    requires forall e :: e in x ==> !(e.Restart? && e.service == service)
    ensures RestartTimes(x, service) == []
    decreases |x|
  {
    if x != [] {
      assert x[0] in x;
      NoRestarts(x[1..], service);
    }
  }

  function CountIn(times: seq<real>, from: real, to: real): nat
    decreases |times|
  {
    if times == [] then 0 else (if from <= times[0] <= to then 1 else 0) + CountIn(times[1..], from, to)
  }

  // ------------------------------------------------------------------ the invariant

  function Limit(c: Config): nat {
    if c.threshold < 0 then 0 else c.threshold
  }

  /** Any `Limit + 1` restarts in a row take longer than the window. */
  ghost predicate Spaced(c: Config, times: seq<real>) {
    forall i, j :: 0 <= i <= j < |times| && j - i == Limit(c) ==> times[j] - times[i] > c.window
  }

  /** For one service: `kept` is what the tracker holds, `until` its cooldown, `all` every restart the
      run has recorded. What the tracker no longer holds has left the window for good, whether it was
      pruned or wiped, and while a cooldown is open it outlasts every window that contains a restart. */
  ghost predicate Inv(c: Config, kept: seq<real>, until: Option<real>, all: seq<real>, now: real) {
    && (forall i, j :: 0 <= i < j < |all| ==> all[i] <= all[j])
    && (forall i :: 0 <= i < |all| ==> all[i] <= now)
    && |kept| <= |all|
    && kept == all[|all| - |kept|..]
    && (forall i :: 0 <= i < |all| - |kept| ==> all[i] + c.window < now)
    && (until.Some? ==> forall i :: 0 <= i < |all| ==> all[i] + c.window < until.value)
    && Spaced(c, all)
  }

  lemma {:induction false} InvLater(c: Config, kept: seq<real>, until: Option<real>, all: seq<real>, now: real, later: real)
    requires Inv(c, kept, until, all, now) && now <= later
    ensures Inv(c, kept, until, all, later)
  {
  }

  lemma {:induction false} InvPrune(c: Config, kept: seq<real>, until: Option<real>, all: seq<real>, now: real)
    requires Inv(c, kept, until, all, now)
    ensures Inv(c, Prune(kept, now, c.window), until, all, now)
  {
    PruneIsSuffix(kept, now, c.window);
    var less := Prune(kept, now, c.window);
    var gone := |all| - |kept|;
    forall i | 0 <= i < |all| - |less|
      ensures all[i] + c.window < now
    {
      if i >= gone {
        assert all[i] == kept[i - gone];
      }
    }
  }

  lemma {:induction false} InvExpire(c: Config, kept: seq<real>, until: real, all: seq<real>, now: real)
    requires Inv(c, kept, Some(until), all, now) && until <= now
    ensures Inv(c, [], None, all, now)
  {
  }

  lemma {:induction false} InvEscalate(c: Config, kept: seq<real>, until: Option<real>, all: seq<real>, now: real, duration: real)
    requires Inv(c, kept, until, all, now) && duration > c.window
    ensures Inv(c, kept, Some(now + duration), all, now)
  {
  }

  /** The step that matters: a restart is recorded only when the pruned history is below the limit, so
      the restart `Limit` places back has already left the window. */
  lemma {:induction false} InvRecord(c: Config, kept: seq<real>, all: seq<real>, tested: real, now: real)
    requires Inv(c, kept, None, all, tested) && tested <= now
    requires |Prune(kept, tested, c.window)| < c.threshold
    ensures Inv(c, kept + [now], None, all + [now], now)
  {
    InvPrune(c, kept, None, all, tested);
    var all' := all + [now];
    var less := Prune(kept, tested, c.window);
    forall i, j | 0 <= i <= j < |all'| && j - i == Limit(c)
      ensures all'[j] - all'[i] > c.window
    {
      if j == |all| {
        assert i < |all| - |less|;
      }
    }
  }

  /** The invariant of one service in a state of the run. */
  ghost predicate ServiceInv(c: Config, s: State, service: string, now: real) {
    Inv(c, Kept(s.tracker, service), Until(s.tracker, service), RestartTimes(s.trace, service), now)
  }

  function Until(t: Tracker, service: string): Option<real> {
    if service in t.cooldownUntil then Some(t.cooldownUntil[service]) else None
  }

  // ------------------------------------------------------------------ what one visit does

  lemma {:induction false} TryIsOwn(service: string, tries: seq<Answer<Status>>, attempt: nat)
    requires attempt <= MaxRestartAttempts
    ensures forall e :: e in Try(service, tries, attempt).events ==> e.service == service && (e.Start? || e.Read?)
    decreases MaxRestartAttempts - attempt
  {
    if attempt < MaxRestartAttempts {
      TryIsOwn(service, tries, attempt + 1);
    }
  }

  /** The three things a visit can do to its own service. */
  datatype Effect = Nothing | Restarted | Escalated(duration: real)

  function EffectOf(c: Config, t: Tracker, statusMap: map<string, Status>, service: string, o: Obs): Effect {
    var t1 := CooldownChecked(t, service, o.tCooldown);
    var status := StatusOf(statusMap, service);
    var wedged := status == Some(Running) && o.probe == Some(Got(false));
    if InCooldown(t, service, o.tCooldown) then Nothing
    else if status == Some(NotFound) || (status == Some(Running) && !wedged) then Nothing
    else if IsFlapping(c, t1, service, o.tWatch) && o.oom.Raised? then Nothing
    else if !DependencyUp(statusMap, service) then Nothing
    else
      var t2 := Pruned(c, t1, service, o.tWatch);
      if !IsFlapping(c, t2, service, o.tClassify) then Restarted
      else if IsFlapping(c, t1, service, o.tWatch) && o.oom.value
      then Escalated(c.cooldown * OomCooldownMultiplier)
      else Escalated(c.cooldown)
  }

  lemma {:induction false} RestartEvents(c: Config, t: Tracker, statusMap: map<string, Status>, service: string, o: Obs)
    ensures var events := RestartAndVerify(c, t, statusMap, service, o).events;
            && events != [] && events[0] == Restart(service, o.tAct)
            && forall e :: e in events[1..] ==> e.service == service && (e.Start? || e.Read?)
  {
    hide Recorded, Try;
    TryIsOwn(service, o.tries, 0);
  }

  lemma {:induction false} EscalateEvents(c: Config, t: Tracker, statusMap: map<string, Status>, service: string, o: Obs, d: real)
    ensures var events := EscalateFor(c, t, statusMap, service, o, d).events;
            && events != [] && events[0] == Escalate(service, o.tAct, o.tAct + d)
            && forall e :: e in events[1..] ==> e.service == service && e.Read?
  {
    hide Pruned, CoolingDown;
  }

  /** The restarts and escalations a visit adds to the trace are exactly its effect. */
  lemma {:induction false} VisitEffect(c: Config, t: Tracker, statusMap: map<string, Status>, service: string, o: Obs)
    ensures var events := Visit(c, t, statusMap, service, o).events;
            && (forall e :: e in events ==> e.service == service)
            && match EffectOf(c, t, statusMap, service, o)
               case Nothing => forall e :: e in events ==> e.Read?
               case Restarted =>
                 && events != [] && events[0] == Restart(service, o.tAct)
                 && forall e :: e in events[1..] ==> e.Start? || e.Read?
               case Escalated(d) =>
                 && events != [] && events[0] == Escalate(service, o.tAct, o.tAct + d)
                 && forall e :: e in events[1..] ==> e.Read?
  {
    hide CooldownChecked, IsFlapping, InCooldown, DependencyUp, Pruned, RestartAndVerify, EscalateFor;
    var t1 := CooldownChecked(t, service, o.tCooldown);
    var t2 := Pruned(c, t1, service, o.tWatch);
    var t3 := Pruned(c, t2, service, o.tClassify);
    var events := Visit(c, t, statusMap, service, o).events;
    match EffectOf(c, t, statusMap, service, o)
    case Nothing =>
    case Restarted =>
      assert events == RestartAndVerify(c, t3, statusMap, service, o).events;
      hide Visit, EffectOf;
      RestartEvents(c, t3, statusMap, service, o);
      HeadAndTail(events);
    case Escalated(d) =>
      assert events == EscalateFor(c, t3, statusMap, service, o, d).events;
      hide Visit, EffectOf;
      EscalateEvents(c, t3, statusMap, service, o, d);
      HeadAndTail(events);
  }

  lemma {:induction false} HeadAndTail<T>(s: seq<T>)
    requires s != []
    ensures forall e :: e in s <==> e == s[0] || e in s[1..]
  {
  }

  /** What a visit leaves in its own service's tracker entry. */
  lemma {:induction false} EffectTracker(c: Config, t: Tracker, statusMap: map<string, Status>, service: string, o: Obs)
    ensures var t' := Visit(c, t, statusMap, service, o).tracker;
            var t1 := CooldownChecked(t, service, o.tCooldown);
            var t2 := Pruned(c, t1, service, o.tWatch);
            var t3 := Pruned(c, t2, service, o.tClassify);
            match EffectOf(c, t, statusMap, service, o)
            case Nothing => t' == t1 || t' == t2
            case Restarted =>
              && !InCooldown(t, service, o.tCooldown)
              && !IsFlapping(c, t2, service, o.tClassify)
              && t' == Recorded(c, t3, service, o.tAct)
            case Escalated(d) =>
              && (d == c.cooldown || d == c.cooldown * OomCooldownMultiplier)
              && !InCooldown(t, service, o.tCooldown)
              && t' == Pruned(c, CoolingDown(t3, service, o.tAct + d), service, o.tCount)
  {
    hide CooldownChecked, IsFlapping, InCooldown, DependencyUp, Recorded, Pruned, CoolingDown, Try;
  }

  /** A visit leaves every other service's history and cooldown alone. */
  lemma {:induction false} VisitIsLocal(c: Config, s: State, service: string, o: Obs, other: string)
    requires other != service
    ensures var s' := After(s, Visit(c, s.tracker, s.statusMap, service, o));
            && Kept(s'.tracker, other) == Kept(s.tracker, other)
            && Until(s'.tracker, other) == Until(s.tracker, other)
            && RestartTimes(s'.trace, other) == RestartTimes(s.trace, other)
  {
    hide IsFlapping, Visit, EffectOf;
    var v := Visit(c, s.tracker, s.statusMap, service, o);
    VisitEffect(c, s.tracker, s.statusMap, service, o);
    EffectTracker(c, s.tracker, s.statusMap, service, o);
    RestartTimesConcat(s.trace, v.events, other);
    NoRestarts(v.events, other);
  }

  lemma {:induction false} EffectTimes(c: Config, s: State, service: string, o: Obs)
    ensures var s' := After(s, Visit(c, s.tracker, s.statusMap, service, o));
            RestartTimes(s'.trace, service) == RestartTimes(s.trace, service)
              + if EffectOf(c, s.tracker, s.statusMap, service, o).Restarted? then [o.tAct] else []
  {
    hide Visit, EffectOf;
    VisitEffect(c, s.tracker, s.statusMap, service, o);
    var events := Visit(c, s.tracker, s.statusMap, service, o).events;
    RestartTimesConcat(s.trace, events, service);
    if EffectOf(c, s.tracker, s.statusMap, service, o).Restarted? {
      NoRestarts(events[1..], service);
    } else {
      assert forall e :: e in events ==> e == events[0] || e in events[1..];
      NoRestarts(events, service);
    }
  }

  lemma {:induction false} PruneAgain(times: seq<real>, now: real, window: real)
    ensures Prune(Prune(times, now, window), now, window) == Prune(times, now, window)
    decreases |times|
  {
    if times != [] && now - times[0] > window {
      PruneAgain(times[1..], now, window);
    }
  }

  /** The invariant through each tracker operation a visit may perform. */
  lemma {:induction false} InvChecked(c: Config, t: Tracker, service: string, all: seq<real>, from: real, now: real)
    requires Inv(c, Kept(t, service), Until(t, service), all, from) && from <= now
    ensures var t1 := CooldownChecked(t, service, now);
            && Inv(c, Kept(t1, service), Until(t1, service), all, now)
            && (!InCooldown(t, service, now) ==> Until(t1, service) == None)
  {
    InvLater(c, Kept(t, service), Until(t, service), all, from, now);
    if service in t.cooldownUntil && now >= t.cooldownUntil[service] {
      InvExpire(c, Kept(t, service), t.cooldownUntil[service], all, now);
    }
  }

  lemma {:induction false} InvPruned(c: Config, t: Tracker, service: string, all: seq<real>, from: real, now: real)
    requires Inv(c, Kept(t, service), Until(t, service), all, from) && from <= now
    ensures var t1 := Pruned(c, t, service, now);
            && Until(t1, service) == Until(t, service)
            && Inv(c, Kept(t1, service), Until(t1, service), all, now)
  {
    InvLater(c, Kept(t, service), Until(t, service), all, from, now);
    InvPrune(c, Kept(t, service), Until(t, service), all, now);
  }

  lemma {:induction false} InvRecorded(c: Config, t: Tracker, service: string, all: seq<real>, tested: real, now: real)
    requires Until(t, service) == None && Inv(c, Kept(t, service), None, all, tested)
    requires |Prune(Kept(t, service), tested, c.window)| < c.threshold && tested <= now
    ensures var t1 := Recorded(c, t, service, now);
            Inv(c, Kept(t1, service), Until(t1, service), all + [now], now)
  {
    InvRecord(c, Kept(t, service), all, tested, now);
    InvPrune(c, Kept(t, service) + [now], None, all + [now], now);
  }

  lemma {:induction false} InvCooling(c: Config, t: Tracker, service: string, all: seq<real>, from: real, now: real, later: real, d: real)
    requires Inv(c, Kept(t, service), Until(t, service), all, from) && from <= now <= later && d > c.window
    ensures var t1 := Pruned(c, CoolingDown(t, service, now + d), service, later);
            Inv(c, Kept(t1, service), Until(t1, service), all, later)
  {
    InvLater(c, Kept(t, service), Until(t, service), all, from, now);
    InvEscalate(c, Kept(t, service), Until(t, service), all, now, d);
    InvPruned(c, CoolingDown(t, service, now + d), service, all, now, later);
  }

  /** One visit keeps the invariant of its own service. */
  lemma {:induction false} VisitKeepsInv(c: Config, s: State, service: string, o: Obs, from: real)
    requires 0.0 <= c.window < c.cooldown
    requires ServiceInv(c, s, service, from) && Timed(o, from, o.tCount)
    ensures ServiceInv(c, After(s, Visit(c, s.tracker, s.statusMap, service, o)), service, o.tCount)
  {
    hide Visit, EffectOf, Inv, CooldownChecked, Pruned, CoolingDown, Recorded;
    var t := s.tracker;
    var t1 := CooldownChecked(t, service, o.tCooldown);
    var t2 := Pruned(c, t1, service, o.tWatch);
    var t3 := Pruned(c, t2, service, o.tClassify);
    var all := RestartTimes(s.trace, service);
    EffectTimes(c, s, service, o);
    EffectTracker(c, t, s.statusMap, service, o);
    InvChecked(c, t, service, all, from, o.tCooldown);
    InvPruned(c, t1, service, all, o.tCooldown, o.tWatch);
    InvPruned(c, t2, service, all, o.tWatch, o.tClassify);
    match EffectOf(c, t, s.statusMap, service, o)
    case Nothing =>
      InvLater(c, Kept(t1, service), Until(t1, service), all, o.tCooldown, o.tCount);
      InvLater(c, Kept(t2, service), Until(t2, service), all, o.tWatch, o.tCount);
      assert all + [] == all;
    case Restarted =>
      KeptPruned(c, t2, service, o.tClassify);
      InvRecorded(c, t3, service, all, o.tClassify, o.tAct);
      var t4 := Recorded(c, t3, service, o.tAct);
      InvLater(c, Kept(t4, service), Until(t4, service), all + [o.tAct], o.tAct, o.tCount);
    case Escalated(d) =>
      InvCooling(c, t3, service, all, o.tClassify, o.tAct, o.tCount, d);
      assert all + [] == all;
  }

  /** Testing twice at one moment counts the same restarts. */
  lemma {:induction false} KeptPruned(c: Config, t: Tracker, service: string, now: real)
    ensures |Prune(Kept(Pruned(c, t, service, now), service), now, c.window)| == RestartCount(c, t, service, now)
  {
    PruneAgain(Kept(t, service), now, c.window);
  }

  // ------------------------------------------------------------------ runs

  function SnapshotEvents(services: seq<string>, readings: seq<Status>): seq<Event>
    requires |readings| == |services|
  {
    seq(|services|, i requires 0 <= i < |services| => Read(services[i], readings[i]))
  }

  lemma {:induction false} SnapshotFrame(s: State, services: seq<string>, readings: seq<Status>)
    requires |readings| == |services|
    ensures var s' := Snapshot(s, services, readings);
            s'.tracker == s.tracker && s'.trace == s.trace + SnapshotEvents(services, readings)
    decreases |services|
  {
    if services != [] {
      var e := Read(services[0], readings[0]);
      var s1 := s.(statusMap := s.statusMap[services[0] := readings[0]], trace := s.trace + [e]);
      SnapshotFrame(s1, services[1..], readings[1..]);
      assert [e] + SnapshotEvents(services[1..], readings[1..]) == SnapshotEvents(services, readings);
    }
  }

  lemma {:induction false} OpenKeeps(c: Config, s: State, step: Step, service: string)
    requires step.Open?
    ensures var s' := Apply(c, s, step);
            && s'.tracker == s.tracker
            && RestartTimes(s'.trace, service) == RestartTimes(s.trace, service)
  {
    if |step.services| == |step.readings| {
      SnapshotFrame(s.(statusMap := map[]), step.services, step.readings);
      var events := SnapshotEvents(step.services, step.readings);
      RestartTimesConcat(s.trace, events, service);
      NoRestarts(events, service);
    }
  }

  lemma {:induction false} RunKeepsInv(c: Config, s: State, steps: seq<Step>, service: string, from: real)
    returns (now: real)
    requires 0.0 <= c.window < c.cooldown
    requires ServiceInv(c, s, service, from) && TimedFrom(steps, from)
    ensures ServiceInv(c, Exec(c, s, steps), service, now)
    ensures now == from || exists step :: step in steps && step.At? && step.obs.tCount == now
    decreases |steps|
  {
    hide Visit, EffectOf, Inv;
    if steps == [] {
      return from;
    }
    var s' := Apply(c, s, steps[0]);
    match steps[0]
    case Open(_, _) =>
      OpenKeeps(c, s, steps[0], service);
      now := RunKeepsInv(c, s', steps[1..], service, from);
    case At(visited, o) =>
      if visited == service {
        VisitKeepsInv(c, s, service, o, from);
      } else {
        VisitIsLocal(c, s, visited, o, service);
        InvLater(c, Kept(s.tracker, service), Until(s.tracker, service), RestartTimes(s.trace, service), from, o.tCount);
      }
      now := RunKeepsInv(c, s', steps[1..], service, o.tCount);
  }

  lemma {:induction false} CountBelow(times: seq<real>, from: real, to: real)
    requires forall i :: 0 <= i < |times| ==> times[i] < from
    ensures CountIn(times, from, to) == 0
    decreases |times|
  {
    if times != [] {
      CountBelow(times[1..], from, to);
    }
  }

  lemma {:induction false} CountConcat(x: seq<real>, y: seq<real>, from: real, to: real)
    ensures CountIn(x + y, from, to) == CountIn(x, from, to) + CountIn(y, from, to)
    ensures CountIn(x, from, to) <= |x|
    decreases |x|
  {
    if x == [] {
      assert x + y == y;
    } else {
      assert (x + y)[1..] == x[1..] + y;
      CountConcat(x[1..], y, from, to);
    }
  }

  /** Spaced restarts fit a window at most `Limit` at a time. */
  lemma {:induction false} SpacedCount(c: Config, times: seq<real>, from: real)
    requires Spaced(c, times)
    requires forall i, j :: 0 <= i < j < |times| ==> times[i] <= times[j]
    ensures CountIn(times, from, from + c.window) <= Limit(c)
    decreases |times|
  {
    hide CountIn;
    var n := |times| - 1;
    if |times| <= Limit(c) {
      CountConcat(times, [], from, from + c.window);
    } else if from <= times[n] <= from + c.window {
      assert times[n] - times[n - Limit(c)] > c.window;
      CountAfter(times, n - Limit(c) + 1, from, from + c.window);
    } else {
      SpacedCount(c, times[..n], from);
      assert times == times[..n] + [times[n]];
      CountConcat(times[..n], [times[n]], from, from + c.window);
      CountOne(times[n], from, from + c.window);
    }
  }

  lemma {:induction false} CountOne(x: real, from: real, to: real)
    ensures CountIn([x], from, to) == if from <= x <= to then 1 else 0
  {
    assert [x][1..] == [];
  }

  /** When everything before `cut` lies below the interval, at most the rest is in it. */
  lemma {:induction false} CountAfter(times: seq<real>, cut: nat, from: real, to: real)
    requires cut <= |times| && forall i :: 0 <= i < cut ==> times[i] < from
    ensures CountIn(times, from, to) <= |times| - cut
  {
    assert times == times[..cut] + times[cut..];
    CountBelow(times[..cut], from, to);
    CountConcat(times[..cut], times[cut..], from, to);
    CountConcat(times[cut..], [], from, to);
  }

  /** The bound one window is promised: at most `threshold` restarts of a service. */
  ghost predicate AtMostThreshold(c: Config, steps: seq<Step>, service: string, from: real) {
    CountIn(RestartTimes(Exec(c, Initial, steps).trace, service), from, from + c.window) <= Limit(c)
  }

  /** Over every run, no closed interval as long as the window holds more than `threshold` restarts of
      a service, not even across the escalations that wipe its history. */
  lemma {:induction false} RestartsBounded(c: Config, steps: seq<Step>, start: real, service: string, from: real)
    requires 0.0 <= c.window < c.cooldown && TimedFrom(steps, start)
    ensures AtMostThreshold(c, steps, service, from)
  {
    InvInitially(c, service, start);
    hide Exec, TimedFrom, CountIn, RestartTimes, Spaced;
    var now := RunKeepsInv(c, Initial, steps, service, start);
    SpacedCount(c, RestartTimes(Exec(c, Initial, steps).trace, service), from);
  }

  lemma {:induction false} InvInitially(c: Config, service: string, start: real)
    ensures ServiceInv(c, Initial, service, start)
  {
  }

  lemma {:induction false} CountAll(times: seq<real>, from: real, to: real)
    requires forall i :: 0 <= i < |times| ==> from <= times[i] <= to
    ensures CountIn(times, from, to) == |times|
  {
    if times != [] {
      CountAll(times[1..], from, to);
    }
  }

  lemma {:induction false} CountSuffix(all: seq<real>, cut: nat, from: real, to: real)
    requires cut <= |all|
    requires forall i :: 0 <= i < cut ==> all[i] < from
    requires forall i :: cut <= i < |all| ==> from <= all[i] <= to
    ensures CountIn(all, from, to) == |all| - cut
  {
    assert all == all[..cut] + all[cut..];
    CountBelow(all[..cut], from, to);
    CountAll(all[cut..], from, to);
    CountConcat(all[..cut], all[cut..], from, to);
  }

  /** The pruned history, wiped or not, counts exactly the restarts of the last window. */
  lemma {:induction false} CountIsExact(c: Config, kept: seq<real>, until: Option<real>, all: seq<real>, now: real, later: real)
    requires c.window >= 0.0 && Inv(c, kept, until, all, now) && now <= later
    ensures |Prune(kept, later, c.window)| == CountIn(all, later - c.window, later)
  {
    hide CountIn, Prune, Spaced;
    PruneIsSuffix(kept, later, c.window);
    var n := |Prune(kept, later, c.window)|;
    var cut, gone := |all| - n, |all| - |kept|;
    assert forall i :: gone <= i < |all| ==> all[i] == kept[i - gone];
    assert n > 0 ==> Prune(kept, later, c.window)[0] == kept[|kept| - n];
    CountSuffix(all, cut, later - c.window, later);
  }

  /** So after every run, at any later moment, flapping means that the last window, counted over the whole
      run, holds at least `threshold` restarts. */
  lemma {:induction false} FlappingIsExact(c: Config, steps: seq<Step>, start: real, service: string, later: real)
    requires 0.0 <= c.window < c.cooldown && TimedFrom(steps, start) && start <= later
    requires forall step :: step in steps && step.At? ==> step.obs.tCount <= later
    ensures var s := Exec(c, Initial, steps);
            var inWindow := CountIn(RestartTimes(s.trace, service), later - c.window, later);
            RestartCount(c, s.tracker, service, later) == inWindow
            && (IsFlapping(c, s.tracker, service, later) <==> inWindow >= c.threshold)
  {
    InvInitially(c, service, start);
    hide Exec, TimedFrom, CountIn, RestartTimes, Inv;
    var now := RunKeepsInv(c, Initial, steps, service, start);
    var s := Exec(c, Initial, steps);
    CountIsExact(c, Kept(s.tracker, service), Until(s.tracker, service), RestartTimes(s.trace, service), now, later);
  }

  // ------------------------------------------------------------------ start calls

  /** Start calls of a service made by restarts recorded between `from` and `to`; `on` says whether the
      last restart recorded so far is one of those. */
  function StartsDuring(trace: seq<Event>, service: string, from: real, to: real, on: bool): nat
    decreases |trace|
  {
    if trace == [] then 0
    else match trace[0]
      case Restart(s, at) =>
        StartsDuring(trace[1..], service, from, to, if s == service then from <= at <= to else on)
      case Start(s) =>
        (if s == service && on then 1 else 0) + StartsDuring(trace[1..], service, from, to, on)
      case _ => StartsDuring(trace[1..], service, from, to, on)
  }

  function OnAfter(trace: seq<Event>, service: string, from: real, to: real, on: bool): bool
    decreases |trace|
  {
    if trace == [] then on
    else if trace[0].Restart? && trace[0].service == service
    then OnAfter(trace[1..], service, from, to, from <= trace[0].at <= to)
    else OnAfter(trace[1..], service, from, to, on)
  }

  lemma {:induction false} StartsConcat(x: seq<Event>, y: seq<Event>, service: string, from: real, to: real, on: bool)
    ensures StartsDuring(x + y, service, from, to, on)
         == StartsDuring(x, service, from, to, on) + StartsDuring(y, service, from, to, OnAfter(x, service, from, to, on))
    decreases |x|
  {
    if x == [] {
      assert x + y == y;
    } else {
      assert (x + y)[1..] == x[1..] + y;
      var next := if x[0].Restart? && x[0].service == service then from <= x[0].at <= to else on;
      StartsConcat(x[1..], y, service, from, to, next);
    }
  }

  lemma {:induction false} NoStarts(x: seq<Event>, service: string, from: real, to: real, on: bool)
    requires forall e :: e in x ==> e.service != service || !e.Start?
    requires forall e :: e in x ==> e.service != service || !e.Restart?
    ensures StartsDuring(x, service, from, to, on) == 0
    decreases |x|
  {
    if x != [] {
      assert x[0] in x;
      NoStarts(x[1..], service, from, to, on);
    }
  }

  /** One restart makes at most the three attempts the runbook allows, and its refresh none. */
  lemma {:induction false} TryStarts(service: string, tries: seq<Answer<Status>>, attempt: nat,
                                     rest: seq<Event>, from: real, to: real, on: bool)
    requires attempt <= MaxRestartAttempts
    requires forall e :: e in rest ==> e.Read?
    ensures StartsDuring(Try(service, tries, attempt).events + rest, service, from, to, on)
         <= if on then MaxRestartAttempts - attempt else 0
    decreases MaxRestartAttempts - attempt
  {
    hide StartsDuring;
    var events := Try(service, tries, attempt).events;
    NoStarts(rest, service, from, to, on);
    if attempt == MaxRestartAttempts {
      NoStarts(events + rest, service, from, to, on);
    } else if attempt >= |tries| || tries[attempt].Raised? {
      StartFirst(service, rest, from, to, on);
    } else {
      var read := Read(service, tries[attempt].value);
      var after := if tries[attempt].value == Running then rest else Try(service, tries, attempt + 1).events + rest;
      assert events + rest == [Start(service)] + ([read] + after);
      StartFirst(service, [read] + after, from, to, on);
      ReadFirst(read, after, service, from, to, on);
      if tries[attempt].value != Running {
        TryStarts(service, tries, attempt + 1, rest, from, to, on);
      }
    }
  }

  lemma {:induction false} StartFirst(service: string, after: seq<Event>, from: real, to: real, on: bool)
    ensures StartsDuring([Start(service)] + after, service, from, to, on)
         == (if on then 1 else 0) + StartsDuring(after, service, from, to, on)
  {
    assert ([Start(service)] + after)[1..] == after;
  }

  lemma {:induction false} ReadFirst(read: Event, after: seq<Event>, service: string, from: real, to: real, on: bool)
    requires read.Read?
    ensures StartsDuring([read] + after, service, from, to, on) == StartsDuring(after, service, from, to, on)
  {
    assert ([read] + after)[1..] == after;
  }

  lemma {:induction false} RestartStarts(c: Config, t: Tracker, statusMap: map<string, Status>, service: string, o: Obs,
                      from: real, to: real, on: bool)
    ensures StartsDuring(RestartAndVerify(c, t, statusMap, service, o).events, service, from, to, on)
         <= if from <= o.tAct <= to then MaxRestartAttempts else 0
  {
    hide Recorded;
    var v := RestartAndVerify(c, t, statusMap, service, o);
    var done := Try(service, o.tries, 0);
    var rest := if !done.raised && o.refresh.Got? then [Read(service, o.refresh.value)] else [];
    assert v.events[1..] == done.events + rest;
    TryStarts(service, o.tries, 0, rest, from, to, from <= o.tAct <= to);
  }

  /** Any visit: start calls are made only by the restart it records. */
  lemma {:induction false} VisitStarts(c: Config, s: State, visited: string, o: Obs, service: string, from: real, to: real, on: bool)
    ensures var events := Visit(c, s.tracker, s.statusMap, visited, o).events;
            StartsDuring(events, service, from, to, on)
              <= MaxRestartAttempts * CountIn(RestartTimes(events, service), from, to)
  {
    var t := s.tracker;
    var events := Visit(c, t, s.statusMap, visited, o).events;
    VisitEffect(c, t, s.statusMap, visited, o);
    var t3 := Pruned(c, Pruned(c, CooldownChecked(t, visited, o.tCooldown), visited, o.tWatch), visited, o.tClassify);
    if visited == service && EffectOf(c, t, s.statusMap, visited, o).Restarted? {
      RestartIsVisit(c, t, s.statusMap, visited, o);
      RestartStarts(c, t3, s.statusMap, service, o, from, to, on);
      NoRestarts(events[1..], service);
      assert RestartTimes(events, service) == [o.tAct];
      assert [o.tAct][1..] == [];
    } else {
      hide Visit, EffectOf;
      if events != [] {
        HeadAndTail(events);
      }
      NoStarts(events, service, from, to, on);
    }
  }

  lemma {:induction false} RestartIsVisit(c: Config, t: Tracker, statusMap: map<string, Status>, service: string, o: Obs)
    requires EffectOf(c, t, statusMap, service, o).Restarted?
    ensures var t3 := Pruned(c, Pruned(c, CooldownChecked(t, service, o.tCooldown), service, o.tWatch), service, o.tClassify);
            Visit(c, t, statusMap, service, o) == RestartAndVerify(c, t3, statusMap, service, o)
  {
    hide CooldownChecked, IsFlapping, InCooldown, DependencyUp, Pruned, RestartAndVerify, EscalateFor;
  }

  lemma {:induction false} RunStarts(c: Config, s: State, steps: seq<Step>, service: string, from: real, to: real)
    requires StartsDuring(s.trace, service, from, to, false)
          <= MaxRestartAttempts * CountIn(RestartTimes(s.trace, service), from, to)
    ensures var trace := Exec(c, s, steps).trace;
            StartsDuring(trace, service, from, to, false)
              <= MaxRestartAttempts * CountIn(RestartTimes(trace, service), from, to)
    decreases |steps|
  {
    if steps != [] {
      var step := steps[0];
      var s' := Apply(c, s, step);
      var on := OnAfter(s.trace, service, from, to, false);
      match step {
        case Open(services, readings) =>
          if |services| == |readings| {
            SnapshotFrame(s.(statusMap := map[]), services, readings);
            var events := SnapshotEvents(services, readings);
            StartsConcat(s.trace, events, service, from, to, false);
            NoStarts(events, service, from, to, on);
            RestartTimesConcat(s.trace, events, service);
            NoRestarts(events, service);
            assert RestartTimes(s.trace, service) + [] == RestartTimes(s.trace, service);
          }
        case At(visited, o) =>
          var events := Visit(c, s.tracker, s.statusMap, visited, o).events;
          VisitStarts(c, s, visited, o, service, from, to, on);
          StartsConcat(s.trace, events, service, from, to, false);
          RestartTimesConcat(s.trace, events, service);
          CountConcat(RestartTimes(s.trace, service), RestartTimes(events, service), from, to);
      }
      RunStarts(c, s', steps[1..], service, from, to);
    }
  }

  /** So the restarts of one window make at most three times `threshold` start calls. */
  lemma {:induction false} StartsBounded(c: Config, steps: seq<Step>, start: real, service: string, from: real)
    requires 0.0 <= c.window < c.cooldown && TimedFrom(steps, start)
    ensures StartsDuring(Exec(c, Initial, steps).trace, service, from, from + c.window, false)
         <= MaxRestartAttempts * Limit(c)
  {
    hide Exec, CountIn, RestartTimes, TimedFrom;
    RestartsBounded(c, steps, start, service, from);
    RunStarts(c, Initial, steps, service, from, from + c.window);
  }
}
