/** The restart limit and the cooldown: over every sequence of polls of the watchdog's own service list
    the limit holds exactly when `threshold` poll intervals and a cooldown together outlast the window. */
module WatchdogBound {
  import opened Common
  import opened Flap
  import opened Topology
  import opened Watchdog
  import opened WatchdogDependency
  import opened WatchdogLoop
  import opened WatchdogRuns

  /** The time `k` intervals take. */
  function Gaps(k: int, interval: real): real {
    if k <= 0 then 0.0 else Gaps(k - 1, interval) + interval
  }

  lemma {:induction false} GapsProduct(k: nat, interval: real)
    ensures Gaps(k, interval) == (k as real) * interval
  {
    if k > 0 {
      GapsProduct(k - 1, interval);
      OneMore((k - 1) as real, interval);
      assert k as real == (k - 1) as real + 1.0;
    } else {
      assert k as real == 0.0;
    }
  }

  lemma {:induction false} OneMore(x: real, y: real)
    ensures (x + 1.0) * y == x * y + y
  {
  }

  lemma {:induction false} GapsStep(k: nat, interval: real)
    ensures Gaps(k + 1, interval) == Gaps(k, interval) + interval
  {
  }

  lemma {:induction false} GapsMonotone(j: int, k: int, interval: real)
    requires j <= k && interval >= 0.0
    ensures Gaps(j, interval) <= Gaps(k, interval)
    decreases k
  {
    if j < k && k > 0 {
      GapsMonotone(j, k - 1, interval);
    }
  }

  /** An escalated service is left alone for its cooldown, and in any case until the next poll. */
  function Rest(c: Config, interval: real): real {
    if c.cooldown > interval then c.cooldown else interval
  }

  /** One restart more than the limit, with an escalation among them, does not fit into a window. */
  predicate LongEnough(c: Config, interval: real) {
    c.window < 0.0 || c.threshold <= 0 || (c.threshold as real) * interval + Rest(c, interval) > c.window
  }

  lemma {:induction false} LongEnoughIff(c: Config, interval: real)
    ensures LongEnough(c, interval)
       <==> c.window < 0.0 || c.threshold <= 0 || Gaps(c.threshold, interval) + Rest(c, interval) > c.window
  {
    hide Gaps, Rest;
    if c.threshold > 0 {
      GapsProduct(c.threshold, interval);
    }
  }

  // ------------------------------------------------------------------ the invariant between polls

  /** For one service, between polls: `kept` is what the tracker holds, `until` its cooldown, `all` every
      restart so far, the first `wiped` of them before the last expired cooldown, and `next` the earliest
      moment of the next visit. Restarts are a poll apart, and those before a wipe a cooldown more. */
  ghost predicate PollInv(c: Config, interval: real, kept: seq<real>, until: Option<real>, all: seq<real>,
                          wiped: nat, next: real)
  {
    && wiped + |kept| <= |all| && kept == all[|all| - |kept|..]
    && (forall i :: wiped <= i < |all| - |kept| ==> all[i] + c.window < next)
    && Ordered(all) && Spaced(c, all)
    && PollsApart(all, |all|, 0.0, interval, next)
    && (until.None? ==> PollsApart(all, wiped, Rest(c, interval), interval, next))
    && (until.Some? ==> RestSince(c, interval, all, until.value, next))
  }

  ghost predicate Ordered(all: seq<real>) {
    forall i, j :: 0 <= i < j < |all| ==> all[i] <= all[j]
  }

  /** From each of the first `count` restarts on, every later one and the next visit are one interval
      apart, and `more` on top. */
  ghost predicate PollsApart(all: seq<real>, count: nat, more: real, interval: real, next: real)
    requires count <= |all|
  {
    forall i :: 0 <= i < count ==> all[i] + Gaps(|all| - i, interval) + more <= next
  }

  /** The escalation took a poll of its own, and the cooldown began then. */
  ghost predicate RestSince(c: Config, interval: real, all: seq<real>, until: real, next: real) {
    && PollsApart(all, |all|, interval, interval, next)
    && (c.cooldown >= interval ==> PollsApart(all, |all|, c.cooldown, interval, until))
  }

  lemma {:induction false} PollInvLater(c: Config, interval: real, kept: seq<real>, until: Option<real>, all: seq<real>,
                                        wiped: nat, next: real, later: real)
    requires PollInv(c, interval, kept, until, all, wiped, next) && next <= later
    ensures PollInv(c, interval, kept, until, all, wiped, later)
  {
    hide Gaps, Spaced, Ordered;
  }

  lemma {:induction false} PollInvPrune(c: Config, interval: real, kept: seq<real>, until: Option<real>, all: seq<real>,
                                        wiped: nat, next: real, now: real)
    requires PollInv(c, interval, kept, until, all, wiped, next) && now <= next
    ensures PollInv(c, interval, Prune(kept, now, c.window), until, all, wiped, next)
  {
    hide Prune, Gaps, Spaced, Ordered, PollsApart, RestSince;
    PruneIsSuffix(kept, now, c.window);
    var less := Prune(kept, now, c.window);
    var gone := |all| - |kept|;
    forall i | wiped <= i < |all| - |less|
      ensures all[i] + c.window < next
    {
      if i >= gone {
        assert all[i] == kept[i - gone];
      }
    }
  }

  /** An expired cooldown wipes the history: every restart so far is now a rest away. */
  lemma {:induction false} PollInvExpire(c: Config, interval: real, kept: seq<real>, until: real, all: seq<real>,
                                         wiped: nat, now: real)
    requires PollInv(c, interval, kept, Some(until), all, wiped, now) && until <= now
    ensures PollInv(c, interval, [], None, all, |all|, now)
  {
    hide Gaps, Spaced, Ordered;
    if c.cooldown < interval {
      assert PollsApart(all, |all|, interval, interval, now);
    }
  }

  /** Escalating at `now`, a poll before `later`. */
  lemma {:induction false} PollInvEscalate(c: Config, interval: real, kept: seq<real>, all: seq<real>, wiped: nat,
                                           now: real, duration: real, later: real)
    requires PollInv(c, interval, kept, None, all, wiped, now) && now + interval <= later && interval >= 0.0
    requires duration == c.cooldown || duration == c.cooldown * OomCooldownMultiplier
    ensures PollInv(c, interval, kept, Some(now + duration), all, wiped, later)
  {
    hide Gaps, Spaced, Ordered;
    assert c.cooldown >= interval ==> duration >= c.cooldown;
  }

  /** The step that matters: a restart at `now` is `Limit + 1` restarts away from one more than a window ago,
      because that one was pruned, or because a rest lies between. */
  lemma {:induction false} RecordSpaced(c: Config, interval: real, kept: seq<real>, all: seq<real>, wiped: nat,
                                        tested: real, now: real)
    requires LongEnough(c, interval) && interval >= 0.0
    requires PollInv(c, interval, kept, None, all, wiped, tested) && tested <= now
    requires |Prune(kept, tested, c.window)| < c.threshold
    ensures Spaced(c, all + [now]) && Ordered(all + [now])
  {
    forall i | 0 <= i < |all|
      ensures all[i] <= now
    {
      NoGaps(interval);
      GapsMonotone(0, |all| - i, interval);
    }
    PollInvPrune(c, interval, kept, None, all, wiped, tested, tested);
    LongEnoughIff(c, interval);
    hide LongEnough, Prune, Gaps, RestSince, Spaced, Ordered;
    var less := Prune(kept, tested, c.window);
    var i := |all| - Limit(c);
    if i >= 0 {
      assert i >= wiped ==> i < |all| - |less|;
      assert now - all[i] > c.window;
    }
    hide PollInv;
    SpacedSnoc(c, all, now);
  }

  lemma {:induction false} SpacedSnoc(c: Config, all: seq<real>, now: real)
    requires Spaced(c, all) && Ordered(all) && Limit(c) >= 1
    requires forall i :: 0 <= i < |all| ==> all[i] <= now
    requires |all| >= Limit(c) ==> now - all[|all| - Limit(c)] > c.window
    ensures Spaced(c, all + [now]) && Ordered(all + [now])
  {
  }

  lemma {:induction false} NoGaps(interval: real)
    ensures Gaps(0, interval) == 0.0
  {
  }

  lemma {:induction false} PollInvRecord(c: Config, interval: real, kept: seq<real>, all: seq<real>, wiped: nat,
                                         tested: real, now: real, later: real)
    requires LongEnough(c, interval) && interval >= 0.0
    requires PollInv(c, interval, kept, None, all, wiped, tested) && tested <= now && now + interval <= later
    requires |Prune(kept, tested, c.window)| < c.threshold
    ensures PollInv(c, interval, kept + [now], None, all + [now], wiped, later)
  {
    RecordSpaced(c, interval, kept, all, wiped, tested, now);
    ApartSnoc(all, |all|, 0.0, interval, now, later);
    ApartSnoc(all, wiped, Rest(c, interval), interval, now, later);
    hide Prune, Gaps, RestSince, Spaced, Ordered, Rest;
    var all' := all + [now];
    forall i | 0 <= i < |all'|
      ensures all'[i] + Gaps(|all'| - i, interval) + 0.0 <= later
    {
      if i == |all| {
        NoGaps(interval);
        GapsStep(0, interval);
      }
    }
    assert PollsApart(all', |all'|, 0.0, interval, later);
  }

  /** A restart at `now` is one more interval for the restarts before it. */
  lemma {:induction false} ApartSnoc(all: seq<real>, count: nat, more: real, interval: real, now: real, later: real)
    requires count <= |all| && PollsApart(all, count, more, interval, now) && now + interval <= later
    ensures PollsApart(all + [now], count, more, interval, later)
  {
    hide Gaps;
    forall i | 0 <= i < count
      ensures (all + [now])[i] + Gaps(|all + [now]| - i, interval) + more <= later
    {
      GapsStep(|all| - i, interval);
    }
  }

  // ------------------------------------------------------------------ one visit, one pass, many polls

  ghost predicate ServicePollInv(c: Config, interval: real, s: State, service: string, wiped: nat, next: real) {
    PollInv(c, interval, Kept(s.tracker, service), Until(s.tracker, service), RestartTimes(s.trace, service), wiped, next)
  }

  lemma {:induction false} PollInvChecked(c: Config, interval: real, t: Tracker, service: string, all: seq<real>,
                                          wiped: nat, next: real, now: real)
    returns (after: nat)
    requires PollInv(c, interval, Kept(t, service), Until(t, service), all, wiped, next) && next <= now
    ensures var t1 := CooldownChecked(t, service, now);
            && PollInv(c, interval, Kept(t1, service), Until(t1, service), all, after, now)
            && (!InCooldown(t, service, now) ==> Until(t1, service) == None)
  {
    hide PollInv;
    after := wiped;
    PollInvLater(c, interval, Kept(t, service), Until(t, service), all, wiped, next, now);
    if service in t.cooldownUntil && now >= t.cooldownUntil[service] {
      PollInvExpire(c, interval, Kept(t, service), t.cooldownUntil[service], all, wiped, now);
      after := |all|;
    }
  }

  lemma {:induction false} PollInvPruned(c: Config, interval: real, t: Tracker, service: string, all: seq<real>,
                                         wiped: nat, next: real, now: real)
    requires PollInv(c, interval, Kept(t, service), Until(t, service), all, wiped, next) && next <= now
    ensures var t1 := Pruned(c, t, service, now);
            && Until(t1, service) == Until(t, service)
            && PollInv(c, interval, Kept(t1, service), Until(t1, service), all, wiped, now)
  {
    hide PollInv, Prune;
    PollInvLater(c, interval, Kept(t, service), Until(t, service), all, wiped, next, now);
    PollInvPrune(c, interval, Kept(t, service), Until(t, service), all, wiped, now, now);
  }

  lemma {:induction false} PollInvRecorded(c: Config, interval: real, t: Tracker, service: string, all: seq<real>,
                                           wiped: nat, tested: real, now: real, later: real)
    requires LongEnough(c, interval) && interval >= 0.0 && Until(t, service) == None
    requires PollInv(c, interval, Kept(t, service), None, all, wiped, tested) && tested <= now && now + interval <= later
    requires |Prune(Kept(t, service), tested, c.window)| < c.threshold
    ensures var t1 := Recorded(c, t, service, now);
            PollInv(c, interval, Kept(t1, service), Until(t1, service), all + [now], wiped, later)
  {
    hide PollInv, Prune, LongEnough;
    PollInvRecord(c, interval, Kept(t, service), all, wiped, tested, now, later);
    PollInvPrune(c, interval, Kept(t, service) + [now], None, all + [now], wiped, later, now);
  }

  lemma {:induction false} PollInvCooling(c: Config, interval: real, t: Tracker, service: string, all: seq<real>,
                                          wiped: nat, tested: real, now: real, counted: real, d: real, later: real)
    requires interval >= 0.0 && Until(t, service) == None
    requires PollInv(c, interval, Kept(t, service), None, all, wiped, tested)
    requires tested <= now <= counted && counted + interval <= later
    requires d == c.cooldown || d == c.cooldown * OomCooldownMultiplier
    ensures var t1 := Pruned(c, CoolingDown(t, service, now + d), service, counted);
            PollInv(c, interval, Kept(t1, service), Until(t1, service), all, wiped, later)
  {
    hide PollInv, Prune;
    PollInvLater(c, interval, Kept(t, service), None, all, wiped, tested, now);
    PollInvEscalate(c, interval, Kept(t, service), all, wiped, now, d, later);
    PollInvPrune(c, interval, Kept(t, service), Some(now + d), all, wiped, later, counted);
  }

  /** One visit keeps the invariant of its own service up to the next poll. */
  lemma {:induction false} VisitKeepsPollInv(c: Config, interval: real, s: State, service: string, o: Obs,
                                             wiped: nat, next: real, later: real)
    returns (after: nat)
    requires LongEnough(c, interval) && interval >= 0.0
    requires ServicePollInv(c, interval, s, service, wiped, next)
    requires Timed(o, next, o.tCount) && o.tCount + interval <= later
    ensures ServicePollInv(c, interval, After(s, Visit(c, s.tracker, s.statusMap, service, o)), service, after, later)
  {
    hide Visit, EffectOf, PollInv, CooldownChecked, Pruned, CoolingDown, Recorded, LongEnough;
    var t := s.tracker;
    var t1 := CooldownChecked(t, service, o.tCooldown);
    var t2 := Pruned(c, t1, service, o.tWatch);
    var t3 := Pruned(c, t2, service, o.tClassify);
    var all := RestartTimes(s.trace, service);
    EffectTimes(c, s, service, o);
    EffectTracker(c, t, s.statusMap, service, o);
    after := PollInvChecked(c, interval, t, service, all, wiped, next, o.tCooldown);
    PollInvPruned(c, interval, t1, service, all, after, o.tCooldown, o.tWatch);
    PollInvPruned(c, interval, t2, service, all, after, o.tWatch, o.tClassify);
    match EffectOf(c, t, s.statusMap, service, o)
    case Nothing =>
      PollInvLater(c, interval, Kept(t1, service), Until(t1, service), all, after, o.tCooldown, later);
      PollInvLater(c, interval, Kept(t2, service), Until(t2, service), all, after, o.tWatch, later);
      assert all + [] == all;
    case Restarted =>
      KeptPruned(c, t2, service, o.tClassify);
      PollInvRecorded(c, interval, t3, service, all, after, o.tClassify, o.tAct, later);
    case Escalated(d) =>
      PollInvCooling(c, interval, t3, service, all, after, o.tClassify, o.tAct, o.tCount, d, later);
      assert all + [] == all;
  }

  /** The visits of one pass: a list without repeats visits a service at most once. */
  lemma {:induction false} VisitsKeepPollInv(c: Config, interval: real, s: State, services: seq<string>, obs: seq<Obs>,
                                             from: real, to: real, service: string, wiped: nat)
    returns (after: nat)
    requires LongEnough(c, interval) && interval >= 0.0
    requires Distinct(services) && |obs| == |services| && TimedObs(obs, from, to)
    requires ServicePollInv(c, interval, s, service, wiped, from)
    ensures ServicePollInv(c, interval, VisitAll(c, s, services, obs).0, service, after, to + interval)
    decreases |services|
  {
    hide Visit, ServicePollInv, LongEnough, Kept, Until, RestartTimes;
    if services == [] {
      after := wiped;
      PollInvFrame(c, interval, s, s, service, wiped, from, to + interval);
      return;
    }
    var v := Visit(c, s.tracker, s.statusMap, services[0], obs[0]);
    if services[0] == service {
      after := VisitKeepsPollInv(c, interval, s, service, obs[0], wiped, from, to + interval);
      if !v.aborted {
        VisitAllFrame(c, After(s, v), services[1..], obs[1..], service);
        PollInvFrame(c, interval, After(s, v), VisitAll(c, s, services, obs).0, service, after, to + interval, to + interval);
      }
    } else {
      VisitIsLocal(c, s, services[0], obs[0], service);
      if v.aborted {
        after := wiped;
        PollInvFrame(c, interval, s, After(s, v), service, wiped, from, to + interval);
      } else {
        PollInvFrame(c, interval, s, After(s, v), service, wiped, from, from);
        after := VisitsKeepPollInv(c, interval, After(s, v), services[1..], obs[1..], from, to, service, wiped);
      }
    }
  }

  /** What does not touch a service's entry or restarts keeps its invariant, now and later. */
  lemma {:induction false} PollInvFrame(c: Config, interval: real, s: State, s': State, service: string, wiped: nat,
                                        next: real, later: real)
    requires ServicePollInv(c, interval, s, service, wiped, next) && next <= later
    requires Kept(s'.tracker, service) == Kept(s.tracker, service) && Until(s'.tracker, service) == Until(s.tracker, service)
    requires RestartTimes(s'.trace, service) == RestartTimes(s.trace, service)
    ensures ServicePollInv(c, interval, s', service, wiped, later)
  {
    hide PollInv, Kept, Until, RestartTimes;
    PollInvLater(c, interval, Kept(s.tracker, service), Until(s.tracker, service), RestartTimes(s.trace, service),
                 wiped, next, later);
  }

  lemma {:induction false} PassKeepsPollInv(c: Config, interval: real, s: State, p: PassInput, from: real, to: real,
                                            service: string, wiped: nat)
    returns (after: nat)
    requires LongEnough(c, interval) && interval >= 0.0 && Distinct(p.services)
    requires |p.readings| <= |p.services| == |p.obs| && TimedObs(p.obs, from, to)
    requires ServicePollInv(c, interval, s, service, wiped, from)
    ensures ServicePollInv(c, interval, RunPass(c, s, p), service, after, to + interval)
  {
    hide Visit, ServicePollInv, LongEnough, VisitAll, Snapshot, RestartTimes;
    if |p.readings| == |p.services| {
      OpenKeeps(c, s, Open(p.services, p.readings), service);
      var begun := Snapshot(s.(statusMap := map[]), p.services, p.readings);
      PollInvFrame(c, interval, s, begun, service, wiped, from, from);
      after := VisitsKeepPollInv(c, interval, begun, p.services, p.obs, from, to, service, wiped);
    } else {
      after := wiped;
      OpenKeeps(c, s, Open(p.services[..|p.readings|], p.readings), service);
      PollInvFrame(c, interval, s, RunPass(c, s, p), service, wiped, from, to + interval);
    }
  }

  lemma {:induction false} PollsKeepInv(c: Config, s: State, services: seq<string>, passes: seq<PassInput>, times: seq<real>,
                                        interval: real, service: string, wiped: nat)
    returns (after: nat)
    requires LongEnough(c, interval) && Distinct(services) && PollsOf(services, passes, times, interval)
    requires ServicePollInv(c, interval, s, service, wiped, times[0])
    ensures ServicePollInv(c, interval, RunPasses(c, s, passes), service, after, times[|passes|])
    decreases |passes|
  {
    hide RunPass, ServicePollInv, LongEnough, TimedObs;
    if passes == [] {
      after := wiped;
    } else {
      var next := PassKeepsPollInv(c, interval, s, passes[0], times[0], times[1] - interval, service, wiped);
      after := PollsKeepInv(c, RunPass(c, s, passes[0]), services, passes[1..], times[1..], interval, service, next);
    }
  }

  /** Polls of any list without repeats keep the limit for every service and every window. */
  lemma {:induction false} PollsStayBounded(c: Config, services: seq<string>, passes: seq<PassInput>, times: seq<real>,
                                            interval: real, service: string, from: real)
    requires LongEnough(c, interval) && Distinct(services) && PollsOf(services, passes, times, interval)
    ensures PollsBounded(c, passes, service, from)
  {
    hide LongEnough, RunPasses, TimedObs, CountIn, RestartTimes, PollInv, Kept, Until, Distinct;
    assert |times| == |passes| + 1;
    NothingYet(c, interval, service, times[0]);
    hide PollsOf;
    var wiped := PollsKeepInv(c, Initial, services, passes, times, interval, service, 0);
    var s := RunPasses(c, Initial, passes);
    PollInvCount(c, interval, Kept(s.tracker, service), Until(s.tracker, service), RestartTimes(s.trace, service),
                 wiped, times[|passes|], from);
  }

  lemma {:induction false} PollInvCount(c: Config, interval: real, kept: seq<real>, until: Option<real>, all: seq<real>,
                                        wiped: nat, next: real, from: real)
    requires PollInv(c, interval, kept, until, all, wiped, next)
    ensures CountIn(all, from, from + c.window) <= Limit(c)
  {
    hide CountIn, PollsApart, RestSince;
    SpacedCount(c, all, from);
  }

  lemma {:induction false} NothingYet(c: Config, interval: real, service: string, next: real)
    ensures ServicePollInv(c, interval, Initial, service, 0, next)
  {
  }

  /** No window as long as the configured one holds more than `threshold` restarts. */
  ghost predicate PollsBounded(c: Config, passes: seq<PassInput>, service: string, from: real) {
    CountIn(RestartTimes(RunPasses(c, Initial, passes).trace, service), from, from + c.window) <= Limit(c)
  }

  // ------------------------------------------------------------------ only the gateway is down

  /** A visit at one instant to a service that is down. */
  function DownAt(now: real): Obs {
    Obs(now, None, now, Got(false), now, now, now, [Got(Running)], Got(Down))
  }

  /** A pass at one instant in which every service but the last is running. */
  function LastDown(services: seq<string>, now: real): PassInput
    requires services != []
  {
    var k := |services| - 1;
    PassInput(services, seq(k, _ => Running) + [Down], Idles(k, now) + [DownAt(now)])
  }

  /** No other service than the gateway is cooling down. */
  ghost predicate OnlyGatewayCools(t: Tracker) {
    forall x :: x != "gateway" ==> Until(t, x) == None
  }

  lemma {:induction false} RunningIsLeftAlone(c: Config, s: State, services: seq<string>, now: real)
    requires forall x :: x in services ==> StatusOf(s.statusMap, x) == Some(Running) && Until(s.tracker, x) == None
    ensures VisitAll(c, s, services, Idles(|services|, now)) == (s, false)
    decreases |services|
  {
    if services != [] {
      hide Heal;
      var v := Visit(c, s.tracker, s.statusMap, services[0], Idle(now));
      assert services[0] in services;
      assert v == Visited(s.tracker, s.statusMap, [], false);
      assert s.trace + [] == s.trace;
      assert After(s, v) == s;
      assert Idles(|services|, now)[1..] == Idles(|services| - 1, now);
      RunningIsLeftAlone(c, s, services[1..], now);
    }
  }

  /** Such a pass is its snapshot and the gateway's visit. */
  lemma {:induction false} LastDownIsVisit(c: Config, s: State, n: nat, now: real) returns (opened': State)
    requires OnlyGatewayCools(s.tracker)
    ensures StatusOf(opened'.statusMap, "gateway") == Some(Down) && opened'.tracker == s.tracker
    ensures RestartTimes(opened'.trace, "gateway") == RestartTimes(s.trace, "gateway")
    ensures RunPass(c, s, LastDown(Healed(n), now)) == Apply(c, opened', At("gateway", DownAt(now)))
  {
    var services, k := Healed(n), 5 * n;
    var p := LastDown(services, now);
    var begun := s.(statusMap := map[]);
    opened' := Snapshot(begun, services, p.readings);
    HealedDistinct(n);
    SnapshotFrame(begun, services, p.readings);
    RestartTimesConcat(s.trace, SnapshotEvents(services, p.readings), "gateway");
    NoRestarts(SnapshotEvents(services, p.readings), "gateway");
    assert RestartTimes(s.trace, "gateway") + [] == RestartTimes(s.trace, "gateway");
    SnapshotReads(begun, services, p.readings, k);
    forall x | x in services[..k]
      ensures StatusOf(opened'.statusMap, x) == Some(Running) && Until(s.tracker, x) == None
    {
      var j :| 0 <= j < k && services[j] == x;
      SnapshotReads(begun, services, p.readings, j);
      assert services[j] != services[k];
    }
    RunningIsLeftAlone(c, opened', services[..k], now);
    assert p.obs[..k] == Idles(k, now);
    VisitAllSplits(c, opened', services, p.obs, k);
    assert services[k..] == ["gateway"] && p.obs[k..] == [DownAt(now)];
    OneVisit(c, opened', now);
  }

  lemma {:induction false} OneVisit(c: Config, s: State, now: real)
    ensures VisitAll(c, s, ["gateway"], [DownAt(now)]).0 == Apply(c, s, At("gateway", DownAt(now)))
  {
    hide Visit;
    assert ["gateway"][1..] == [] && [DownAt(now)][1..] == [];
  }

  lemma {:induction false} OthersStayCool(c: Config, s: State, now: real)
    requires OnlyGatewayCools(s.tracker)
    ensures OnlyGatewayCools(Apply(c, s, At("gateway", DownAt(now))).tracker)
  {
    hide Visit;
    forall x | x != "gateway"
      ensures Until(Apply(c, s, At("gateway", DownAt(now))).tracker, x) == None
    {
      VisitIsLocal(c, s, "gateway", DownAt(now), x);
    }
  }

  lemma {:induction false} NothingPruned(times: seq<real>, now: real, window: real)
    requires forall t :: t in times ==> now - t <= window
    ensures Prune(times, now, window) == times
  {
    if times != [] {
      assert times[0] in times;
    }
  }

  /** The gateway's restarts, all inside the window and nothing else held against it. */
  ghost predicate Holding(c: Config, s: State, history: seq<real>, now: real) {
    && !InCooldown(s.tracker, "gateway", now)
    && Kept(CooldownChecked(s.tracker, "gateway", now), "gateway") == history
    && forall t :: t in history ==> now - t <= c.window
  }

  /** A restart at `now` of a gateway that is down, seen through the tracker and the trace. */
  lemma {:induction false} DownGatewayRestarts(c: Config, s: State, history: seq<real>, now: real)
    requires c.window >= 0.0 && |history| < c.threshold
    requires StatusOf(s.statusMap, "gateway") == Some(Down) && Holding(c, s, history, now)
    ensures var s' := Apply(c, s, At("gateway", DownAt(now)));
            && Until(s'.tracker, "gateway") == None
            && Kept(s'.tracker, "gateway") == history + [now]
            && RestartTimes(s'.trace, "gateway") == RestartTimes(s.trace, "gateway") + [now]
  {
    DependencyIsOwnTickerplant(Tickerplant, 0);
    NothingPruned(history, now, c.window);
    NothingPruned(history + [now], now, c.window);
    EffectTimes(c, s, "gateway", DownAt(now));
    EffectTracker(c, s.tracker, s.statusMap, "gateway", DownAt(now));
    var t1 := CooldownChecked(s.tracker, "gateway", now);
    var t2 := Pruned(c, t1, "gateway", now);
    assert Kept(t2, "gateway") == history;
    hide Prune, Visit;
    assert EffectOf(c, s.tracker, s.statusMap, "gateway", DownAt(now)) == Restarted;
  }

  /** One pass restarts the gateway while its history is below the limit. */
  lemma {:induction false} PassRestarts(c: Config, s: State, n: nat, history: seq<real>, now: real)
    requires c.window >= 0.0 && |history| < c.threshold
    requires OnlyGatewayCools(s.tracker) && Holding(c, s, history, now)
    ensures var s' := RunPass(c, s, LastDown(Healed(n), now));
            && OnlyGatewayCools(s'.tracker) && Until(s'.tracker, "gateway") == None
            && Kept(s'.tracker, "gateway") == history + [now]
            && RestartTimes(s'.trace, "gateway") == RestartTimes(s.trace, "gateway") + [now]
  {
    hide RunPass, Apply, Kept, CooldownChecked, InCooldown, OnlyGatewayCools, Until, LastDown;
    var opened' := LastDownIsVisit(c, s, n, now);
    DownGatewayRestarts(c, opened', history, now);
    OthersStayCool(c, opened', now);
  }

  /** At the limit the next visit escalates and opens the cooldown. */
  lemma {:induction false} DownGatewayEscalates(c: Config, s: State, history: seq<real>, now: real)
    requires c.threshold == |history| && c.window >= 0.0
    requires StatusOf(s.statusMap, "gateway") == Some(Down) && Holding(c, s, history, now)
    ensures var s' := Apply(c, s, At("gateway", DownAt(now)));
            && Until(s'.tracker, "gateway") == Some(now + c.cooldown)
            && RestartTimes(s'.trace, "gateway") == RestartTimes(s.trace, "gateway")
  {
    DependencyIsOwnTickerplant(Tickerplant, 0);
    NothingPruned(history, now, c.window);
    EffectTimes(c, s, "gateway", DownAt(now));
    EffectTracker(c, s.tracker, s.statusMap, "gateway", DownAt(now));
    var t1 := CooldownChecked(s.tracker, "gateway", now);
    var t2 := Pruned(c, t1, "gateway", now);
    assert Kept(t2, "gateway") == history;
    hide Prune, Visit;
    assert EffectOf(c, s.tracker, s.statusMap, "gateway", DownAt(now)) == Effect.Escalated(c.cooldown);
  }

  /** At the limit the next pass escalates and opens the cooldown. */
  lemma {:induction false} PassEscalates(c: Config, s: State, n: nat, history: seq<real>, now: real)
    requires c.threshold == |history| && c.window >= 0.0
    requires OnlyGatewayCools(s.tracker) && Holding(c, s, history, now)
    ensures var s' := RunPass(c, s, LastDown(Healed(n), now));
            && OnlyGatewayCools(s'.tracker) && Until(s'.tracker, "gateway") == Some(now + c.cooldown)
            && RestartTimes(s'.trace, "gateway") == RestartTimes(s.trace, "gateway")
  {
    hide RunPass, Apply, Kept, CooldownChecked, InCooldown, OnlyGatewayCools, Until, LastDown;
    var opened' := LastDownIsVisit(c, s, n, now);
    DownGatewayEscalates(c, opened', history, now);
    OthersStayCool(c, opened', now);
  }

  // ------------------------------------------------------------------ the polls that break the limit

  /** The first `count` polls, one interval apart. */
  function Ticks(count: nat, interval: real): (ticks: seq<real>)
    ensures |ticks| == count
  {
    seq(count, k => Gaps(k, interval))
  }

  function Polls(n: nat, count: nat, interval: real): (passes: seq<PassInput>)
    ensures |passes| == count
  {
    seq(count, k => LastDown(Healed(n), Gaps(k, interval)))
  }

  /** After `k` polls the gateway holds `k` restarts, an interval apart. */
  lemma {:induction false} RestartRepeatedly(c: Config, n: nat, k: nat, interval: real)
    requires c.window >= 0.0 && interval >= 0.0 && k <= c.threshold && Gaps(k, interval) <= c.window
    ensures var s := RunPasses(c, Initial, Polls(n, k, interval));
            && OnlyGatewayCools(s.tracker) && Until(s.tracker, "gateway") == None
            && Kept(s.tracker, "gateway") == Ticks(k, interval) == RestartTimes(s.trace, "gateway")
            && Holding(c, s, Ticks(k, interval), Gaps(k, interval))
  {
    hide RunPass, LastDown, OnlyGatewayCools, Gaps;
    if k == 0 {
      CoolInitially();
    } else {
      var now := Gaps(k - 1, interval);
      GapsMonotone(k - 1, k, interval);
      RestartRepeatedly(c, n, k - 1, interval);
      var s := RunPasses(c, Initial, Polls(n, k - 1, interval));
      PassRestarts(c, s, n, Ticks(k - 1, interval), now);
      assert Polls(n, k, interval) == Polls(n, k - 1, interval) + [LastDown(Healed(n), now)];
      RunPassesConcat(c, Initial, Polls(n, k - 1, interval), [LastDown(Healed(n), now)]);
      RunOne(c, s, LastDown(Healed(n), now));
      assert Ticks(k, interval) == Ticks(k - 1, interval) + [now];
    }
    TicksWithin(c, k, interval);
  }

  lemma {:induction false} TicksWithin(c: Config, k: nat, interval: real)
    requires interval >= 0.0 && Gaps(k, interval) <= c.window
    ensures forall t :: t in Ticks(k, interval) ==> 0.0 <= t <= c.window && Gaps(k, interval) - t <= c.window
  {
    hide Gaps;
    NoGaps(interval);
    forall t | t in Ticks(k, interval)
      ensures 0.0 <= t <= Gaps(k, interval)
    {
      var i :| 0 <= i < k && t == Gaps(i, interval);
      GapsMonotone(0, i, interval);
      GapsMonotone(i, k, interval);
    }
  }

  lemma {:induction false} CoolInitially()
    ensures OnlyGatewayCools(Initial.tracker) && Until(Initial.tracker, "gateway") == None
    ensures forall now :: !InCooldown(Initial.tracker, "gateway", now)
    ensures forall now :: CooldownChecked(Initial.tracker, "gateway", now) == Initial.tracker
    ensures Kept(Initial.tracker, "gateway") == [] == RestartTimes(Initial.trace, "gateway")
  {
  }

  /** Polls of the watchdog's own list, `interval` apart, that break the limit when the rest is too short:
      `threshold` restarts, an escalation, and one more restart as soon as the cooldown has wiped the
      history. */
  lemma {:induction false} ShortRestBreaks(c: Config, n: nat, interval: real)
    returns (passes: seq<PassInput>, times: seq<real>)
    requires interval >= 0.0 && !LongEnough(c, interval)
    ensures PollsOf(Healed(n), passes, times, interval) && !PollsBounded(c, passes, "gateway", 0.0)
  {
    hide RunPass, LastDown, OnlyGatewayCools, CountIn, PollsOf, Gaps;
    var k := c.threshold;
    var now := Gaps(k, interval);
    LongEnoughIff(c, interval);
    hide LongEnough;
    var last := now + Rest(c, interval);
    var burst, ticks := Polls(n, k, interval), Ticks(k, interval);
    var escalating, final := LastDown(Healed(n), now), LastDown(Healed(n), last);
    passes := burst + [escalating] + [final];
    times := ticks + [now, last, last + interval];
    PollsAreTimed(n, k, interval, last);

    RestartRepeatedly(c, n, k, interval);
    var s1 := RunPasses(c, Initial, burst);
    PassEscalates(c, s1, n, ticks, now);
    var s2 := RunPass(c, s1, escalating);
    assert Holding(c, s2, [], last);
    PassRestarts(c, s2, n, [], last);
    var s3 := RunPass(c, s2, final);
    RunPassesConcat(c, Initial, burst, [escalating]);
    RunOne(c, s1, escalating);
    RunPassesConcat(c, Initial, burst + [escalating], [final]);
    RunOne(c, s2, final);
    assert RestartTimes(s3.trace, "gateway") == ticks + [last];
    NoGaps(interval);
    GapsMonotone(0, k, interval);
    TicksWithin(c, k, interval);
    forall i | 0 <= i < k + 1
      ensures 0.0 <= (ticks + [last])[i] <= c.window
    {
      if i < k {
        assert ticks[i] in ticks;
      }
    }
    CountAll(ticks + [last], 0.0, c.window);
  }

  lemma {:induction false} PollsAreTimed(n: nat, k: nat, interval: real, last: real)
    requires interval >= 0.0 && last >= Gaps(k, interval) + interval
    ensures PollsOf(Healed(n),
                    Polls(n, k, interval) + [LastDown(Healed(n), Gaps(k, interval))] + [LastDown(Healed(n), last)],
                    Ticks(k, interval) + [Gaps(k, interval), last, last + interval], interval)
  {
    hide Gaps, LastDown, TimedObs, Healed;
    var now := Gaps(k, interval);
    var passes := Polls(n, k, interval) + [LastDown(Healed(n), now)] + [LastDown(Healed(n), last)];
    var times := Ticks(k, interval) + [now, last, last + interval];
    forall i | 0 <= i < |passes|
      ensures passes[i].services == Healed(n) && |passes[i].readings| <= |Healed(n)| == |passes[i].obs|
      ensures TimedObs(passes[i].obs, times[i], times[i + 1] - interval)
    {
      if i < k {
        GapsStep(i, interval);
        assert times[i + 1] == Gaps(i + 1, interval);
      }
      assert passes[i] == LastDown(Healed(n), times[i]);
      LastDownIsTimed(n, times[i], times[i + 1] - interval);
    }
  }

  lemma {:induction false} LastDownIsTimed(n: nat, now: real, to: real)
    requires now <= to
    ensures var p := LastDown(Healed(n), now);
            && p.services == Healed(n) && |p.readings| == |p.services| == |p.obs|
            && TimedObs(p.obs, now, to)
  {
  }

  // ------------------------------------------------------------------ exactly when

  ghost predicate EveryPollBounded(c: Config, services: seq<string>, interval: real) {
    forall passes: seq<PassInput>, times: seq<real>, service: string, from: real
      {:trigger PollsOf(services, passes, times, interval), PollsBounded(c, passes, service, from)} ::
      PollsOf(services, passes, times, interval) ==> PollsBounded(c, passes, service, from)
  }

  /** The limit holds over every sequence of polls exactly when `threshold` intervals and a rest outlast
      the window. */
  lemma {:induction false} BoundIff(c: Config, n: nat, interval: real)
    requires interval >= 0.0
    ensures EveryPollBounded(c, Healed(n), interval) <==> LongEnough(c, interval)
  {
    hide PollsOf, PollsBounded;
    if LongEnough(c, interval) {
      HealedDistinct(n);
      forall passes: seq<PassInput>, times: seq<real>, service: string, from: real |
        PollsOf(Healed(n), passes, times, interval)
        ensures PollsBounded(c, passes, service, from)
      {
        PollsStayBounded(c, Healed(n), passes, times, interval, service, from);
      }
    } else {
      var passes, times := ShortRestBreaks(c, n, interval);
      var service := "gateway";
      assert PollsOf(Healed(n), passes, times, interval) && !PollsBounded(c, passes, service, 0.0);
    }
  }

  /** The polling loop itself, under the exact condition: whatever its environment answers, no window holds
      more than `threshold` restarts of a service, nor more than three starts for each. */
  method PollWithin(w: WatchdogProcess, services: seq<string>, interval: real, polls: nat)
    requires w.Valid() && interval >= 0.0 && Distinct(services) && LongEnough(w.config, interval)
    requires w.flap.View() == Fresh && w.orchestrator.trace == []
    modifies w, w.flap, w.clock, w.orchestrator
    ensures w.Valid()
    ensures forall service, from :: WithinLimits(w.config, w.orchestrator.trace, service, from)
  {
    ghost var passes, times := Poll(w, services, interval, polls);
    forall service, from
      ensures WithinLimits(w.config, w.orchestrator.trace, service, from)
    {
      PollsLimits(w.config, services, passes, times, interval, service, from);
    }
  }

  lemma {:induction false} PollsLimits(c: Config, services: seq<string>, passes: seq<PassInput>, times: seq<real>,
                                       interval: real, service: string, from: real)
    requires LongEnough(c, interval) && Distinct(services) && PollsOf(services, passes, times, interval)
    ensures WithinLimits(c, RunPasses(c, Initial, passes).trace, service, from)
  {
    hide RunPasses, Exec, StartsDuring, CountIn, RestartTimes, LongEnough;
    PollsStayBounded(c, services, passes, times, interval, service, from);
    var steps := PollsAreRun(c, Initial, services, passes, times, interval);
    NothingStarted(service, from, from + c.window);
    RunStarts(c, Initial, steps, service, from, from + c.window);
  }

  lemma {:induction false} NothingStarted(service: string, from: real, to: real)
    ensures StartsDuring(Initial.trace, service, from, to, false) == 0
  {
  }
}
