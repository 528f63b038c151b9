/** The watchdog's own code: the retry loop, one healing pass and the polling loop, over a tracker, a
    clock and an orchestrator that answer as they like. Every pass is proved to be a `Pass` with some
    ordered observations, so the theorems about runs hold of the polling loop itself. */
module WatchdogLoop {
  import opened Common
  import opened Flap
  import opened Watchdog
  import opened WatchdogDependency
  import opened WatchdogRuns
  import opened WatchdogVisit

  /** Container states and health, as the outside world reports them. The trace is the log of what
      happened and is not consulted by the program. */
  class Orchestrator {
    ghost var trace: seq<Event>

    constructor ()
      ensures trace == []
    {
      trace := [];
    }

    method Status(service: string) returns (a: Answer<Status>)
      modifies this
      ensures trace == old(trace) + match a { case Got(st) => [Read(service, st)] case Raised => [] }
    {
      a := *;
      trace := trace + match a { case Got(st) => [Read(service, st)] case Raised => [] };
    }

    method Start(service: string) returns (raised: bool)
      modifies this
      ensures trace == old(trace) + [Event.Start(service)]
    {
      raised := *;
      trace := trace + [Event.Start(service)];
    }

    method OomKilled(service: string) returns (a: Answer<bool>) {
      a := *;
    }

    method HealthProbe(service: string) returns (a: Answer<bool>) {
      a := *;
    }

    ghost method Note(e: Event)
      modifies this
      ensures trace == old(trace) + [e]
    {
      trace := trace + [e];
    }
  }

  function Answers(tries: seq<Status>): seq<Answer<Status>> {
    seq(|tries|, i requires 0 <= i < |tries| => Got(tries[i]))
  }

  /** After `failed` attempts the loop continues where `Try` would. */
  lemma {:induction false} TryAfter(service: string, failed: seq<Status>, rest: seq<Answer<Status>>, attempt: nat)
    requires attempt <= |failed| <= MaxRestartAttempts && Running !in failed
    ensures var done := Try(service, Answers(failed) + rest, |failed|);
            Try(service, Answers(failed) + rest, attempt)
              == Attempts(Rounds(service, failed[attempt..]) + done.events, done.raised)
    decreases |failed| - attempt
  {
    hide Try;
    if attempt < |failed| {
      var all := Answers(failed) + rest;
      assert all[attempt] == Got(failed[attempt]) && failed[attempt] in failed;
      TryStep(service, all, attempt);
      TryAfter(service, failed, rest, attempt + 1);
      assert failed[attempt..][1..] == failed[attempt + 1..];
    }
  }

  lemma {:induction false} TryStep(service: string, tries: seq<Answer<Status>>, attempt: nat)
    requires attempt < MaxRestartAttempts && attempt < |tries|
    requires tries[attempt].Got? && tries[attempt].value != Running
    ensures var next := Try(service, tries, attempt + 1);
            Try(service, tries, attempt)
              == Attempts([Event.Start(service), Read(service, tries[attempt].value)] + next.events, next.raised)
  {
  }

  /** How the attempts end after `failed` ones: a call raises, the service runs, or they are used up. */
  lemma {:induction false} TryEnds(service: string, failed: seq<Status>, a: Answer<Status>)
    requires |failed| <= MaxRestartAttempts && Running !in failed
    ensures |failed| < MaxRestartAttempts ==>
              Try(service, Answers(failed) + [], 0)
                == Attempts(Rounds(service, failed) + [Event.Start(service)], true)
    ensures |failed| < MaxRestartAttempts && a.Raised? ==>
              Try(service, Answers(failed) + [a], 0)
                == Attempts(Rounds(service, failed) + [Event.Start(service)], true)
    ensures |failed| < MaxRestartAttempts && a == Got(Running) ==>
              Try(service, Answers(failed) + [a], 0)
                == Attempts(Rounds(service, failed) + [Event.Start(service), Read(service, Running)], false)
    ensures |failed| == MaxRestartAttempts ==>
              Try(service, Answers(failed) + [a], 0)
                == Attempts(Rounds(service, failed) + (if a.Got? then [Read(service, a.value)] else []), a.Raised?)
  {
    hide Rounds;
    assert failed[0..] == failed;
    TryAfter(service, failed, [], 0);
    TryAfter(service, failed, [a], 0);
  }

  lemma {:induction false} RoundsSnoc(service: string, failed: seq<Status>, st: Status)
    ensures Rounds(service, failed + [st]) == Rounds(service, failed) + [Event.Start(service), Read(service, st)]
  {
    var all := failed + [st];
    if failed == [] {
      assert all[1..] == [];
    } else {
      assert all[1..] == failed[1..] + [st];
      RoundsSnoc(service, failed[1..], st);
    }
  }

  /** When each signature is given, signature by signature. */
  ghost predicate Decided(statusMap: map<string, Status>, service: string, healthy: Option<bool>, oom: bool,
                          flapping: bool, sig: Signature)
  {
    var running := service in statusMap && statusMap[service] == Running;
    var sick := !running || healthy == Some(false);
    var acts := sick && !Blocked(statusMap, service);
    && (sig.Healthy? <==> !sick)
    && (sig.DependencyDown? <==> sick && Blocked(statusMap, service))
    && (sig.OomCrashLoop? <==> acts && flapping && oom)
    && (sig.Flapping? <==> acts && flapping && !oom)
    && (sig.ContainerUnhealthy? <==> acts && !flapping && running)
    && (sig.ContainerDown? <==> acts && !flapping && !running)
  }

  /** The observations of a pass: each in order, and each after the one before. */
  ghost predicate TimedObs(obs: seq<Obs>, from: real, to: real) {
    && from <= to
    && (forall k :: 0 <= k < |obs| ==> Timed(obs[k], from, to))
    && (forall j, k :: 0 <= j < k < |obs| ==> obs[j].tCount <= obs[k].tCooldown)
  }

  function Idle(now: real): Obs {
    Obs(now, None, now, Got(false), now, now, now, [], Got(Running))
  }

  function Idles(count: nat, now: real): seq<Obs> {
    seq(count, _ => Idle(now))
  }

  class WatchdogProcess {
    const config: Config
    const clock: Clock
    const flap: FlapTracker
    const orchestrator: Orchestrator
    const probing: bool
    var inProgress: set<string>

    ghost predicate Wired() {
      flap.config == config && flap.clock == clock
    }

    /** Between visits no service is in progress, so the program's in-progress test never skips one. */
    ghost predicate Valid()
      reads this
    {
      Wired() && inProgress == {}
    }

    constructor (config: Config, start: real, probing: bool)
      ensures Valid() && this.config == config && fresh(clock) && fresh(flap) && fresh(orchestrator)
      ensures clock.now == start && flap.View() == Fresh && orchestrator.trace == []
    {
      this.config, this.probing, inProgress := config, probing, {};
      var theClock := new Clock(start);
      clock := theClock;
      flap := new FlapTracker(config, theClock);
      orchestrator := new Orchestrator();
    }

    /** The retry loop of restart_and_verify, after the restart has been recorded. */
    method TryToStart(service: string) returns (raised: bool, ghost tries: seq<Answer<Status>>)
      modifies orchestrator
      ensures orchestrator.trace == old(orchestrator.trace) + Try(service, tries, 0).events
      ensures raised == Try(service, tries, 0).raised
    {
      hide Try, Answers;
      ghost var failed: seq<Status> := [];
      for attempt := 0 to MaxRestartAttempts
        invariant |failed| == attempt && Running !in failed
        invariant orchestrator.trace == old(orchestrator.trace) + Rounds(service, failed)
      {
        var startRaised := orchestrator.Start(service);
        if startRaised {
          TryEnds(service, failed, Raised);
          return true, Answers(failed) + [];
        }
        var a := orchestrator.Status(service);
        TryEnds(service, failed, a);
        if a.Raised? || a.value == Running {
          return a.Raised?, Answers(failed) + [a];
        }
        RoundsSnoc(service, failed, a.value);
        failed := failed + [a.value];
      }
      var last := orchestrator.Status(service);
      TryEnds(service, failed, last);
      return last.Raised?, Answers(failed) + [last];
    }

    method RestartService(service: string)
      returns (raised: bool, ghost at: real, ghost tries: seq<Answer<Status>>)
      requires Wired()
      modifies flap, clock, orchestrator
      ensures old(clock.now) <= at == clock.now
      ensures flap.View() == Recorded(config, old(flap.View()), service, at)
      ensures raised == Try(service, tries, 0).raised
      ensures orchestrator.trace
           == old(orchestrator.trace) + ([Restart(service, at)] + Try(service, tries, 0).events)
    {
      flap.RecordRestart(service);
      at := clock.now;
      orchestrator.Note(Restart(service, at));
      raised, tries := TryToStart(service);
    }

    method EscalateService(service: string, duration: real)
      returns (ghost at: real, ghost counted: real)
      requires Wired()
      modifies flap, clock, orchestrator
      ensures old(clock.now) <= at <= counted == clock.now
      ensures flap.View() == Pruned(config, CoolingDown(old(flap.View()), service, at + duration), service, counted)
      ensures orchestrator.trace == old(orchestrator.trace) + [Escalate(service, at, at + duration)]
    {
      flap.StartCooldown(service, duration);
      at := clock.now;
      orchestrator.Note(Escalate(service, at, at + duration));
      var _ := flap.CountRestarts(service);
      counted := clock.now;
    }

    /** Dispatch a signature to its runbook. `done` completes the observations of the visit. */
    method RunRunbook(service: string, ghost statusMap: map<string, Status>, sig: Signature, ghost o: Obs)
      returns (raised: bool, ghost done: Obs, ghost events: seq<Event>)
      requires Wired() && !sig.Healthy? && o.tClassify <= clock.now
      modifies flap, clock, orchestrator
      ensures o.tClassify <= done.tAct <= done.tCount <= clock.now && old(clock.now) <= clock.now
      ensures done == o.(tAct := done.tAct, tCount := done.tCount, tries := done.tries)
      ensures orchestrator.trace == old(orchestrator.trace) + events
      ensures raised ==> Dispatch(config, old(flap.View()), statusMap, service, done, sig)
                           == Visited(flap.View(), statusMap, events, true)
      ensures !raised ==> forall refresh ::
                Dispatch(config, old(flap.View()), statusMap, service, done.(refresh := refresh), sig)
                  == Refresh(flap.View(), statusMap, service, events, refresh)
    {
      done := o.(tAct := clock.now, tCount := clock.now);
      raised, events := false, [];
      match sig {
        case DependencyDown =>
        case Flapping =>
          ghost var at, counted := EscalateService(service, config.cooldown);
          done := done.(tAct := at, tCount := counted);
          events := [Escalate(service, at, at + config.cooldown)];
        case OomCrashLoop =>
          ghost var at, counted := EscalateService(service, config.cooldown * OomCooldownMultiplier);
          done := done.(tAct := at, tCount := counted);
          events := [Escalate(service, at, at + config.cooldown * OomCooldownMultiplier)];
        case ContainerDown | ContainerUnhealthy =>
          ghost var at, tries;
          raised, at, tries := RestartService(service);
          done := done.(tAct := at, tCount := at, tries := tries);
          events := [Restart(service, at)] + Try(service, tries, 0).events;
      }
    }

    /** One service of the pass, from the cooldown test to the refreshed status. */
    method VisitService(service: string, statusMap: map<string, Status>)
      returns (newMap: map<string, Status>, aborted: bool, ghost o: Obs)
      requires Valid()
      modifies this, flap, clock, orchestrator
      ensures Valid() && Timed(o, old(clock.now), clock.now)
      ensures var v := Visit(config, old(flap.View()), statusMap, service, o);
              && newMap == v.statusMap && aborted == v.aborted && flap.View() == v.tracker
              && orchestrator.trace == old(orchestrator.trace) + v.events
    {
      newMap, aborted := statusMap, false;
      if service in inProgress {
        // a visit under way elsewhere would be left alone; with one thread there is none
        assert false;
      }
      var cooling := flap.CheckCooldown(service);
      o := Idle(clock.now);
      if cooling {
        return;
      }
      var status := StatusOf(statusMap, service);
      if status == Some(NotFound) {
        return;
      }
      var healthy: Option<bool> := None;
      if status == Some(Running) {
        if !probing {
          return;
        }
        var a := orchestrator.HealthProbe(service);
        o := o.(probe := Some(a));
        if a.Raised? {
          return newMap, true, o;
        }
        if a.value {
          return;
        }
        healthy := Some(false);
      }
      newMap, aborted, o := HealService(service, statusMap, healthy, o);
    }

    /** Flapping test, out-of-memory record, classification and runbook for a service that looks broken. */
    method HealService(service: string, statusMap: map<string, Status>, healthy: Option<bool>, ghost seen: Obs)
      returns (newMap: map<string, Status>, aborted: bool, ghost o: Obs)
      requires Valid() && seen.tCooldown <= clock.now
      requires StatusOf(statusMap, service) == Some(Running) ==> healthy == Some(false)
      modifies this, flap, clock, orchestrator
      ensures Valid() && Timed(o, seen.tCooldown, clock.now) && old(clock.now) <= clock.now
      ensures o.tCooldown == seen.tCooldown && o.probe == seen.probe
      ensures var v := Heal(config, old(flap.View()), statusMap, service, o, healthy);
              && newMap == v.statusMap && aborted == v.aborted && flap.View() == v.tracker
              && orchestrator.trace == old(orchestrator.trace) + v.events
    {
      hide Classify, Dispatch, IsFlapping, Pruned;
      newMap, aborted := statusMap, false;
      var flapping := flap.CheckFlapping(service);
      o := seen.(tWatch := clock.now, tClassify := clock.now, tAct := clock.now, tCount := clock.now, oom := Got(false));
      var oom := false;
      if flapping {
        var a := orchestrator.OomKilled(service);
        o := o.(oom := a);
        if a.Raised? {
          return newMap, true, o;
        }
        oom := a.value;
      }
      var sig, sigTime := ClassifyNow(service, statusMap, healthy, oom);
      o := o.(tClassify := sigTime);
      newMap, aborted, o := ActOn(service, statusMap, sig, o);
    }

    /** The runbook for a signature, marked as in progress, and the status read back after it. */
    method ActOn(service: string, statusMap: map<string, Status>, sig: Signature, ghost seen: Obs)
      returns (newMap: map<string, Status>, aborted: bool, ghost o: Obs)
      requires Valid() && !sig.Healthy? && seen.tClassify <= clock.now
      modifies this, flap, clock, orchestrator
      ensures Valid() && seen.tClassify <= o.tAct <= o.tCount <= clock.now && old(clock.now) <= clock.now
      ensures o == seen.(tAct := o.tAct, tCount := o.tCount, tries := o.tries, refresh := o.refresh)
      ensures var v := Dispatch(config, old(flap.View()), statusMap, service, o, sig);
              && newMap == v.statusMap && aborted == v.aborted && flap.View() == v.tracker
              && orchestrator.trace == old(orchestrator.trace) + v.events
    {
      hide Dispatch;
      newMap, aborted := statusMap, false;
      inProgress := inProgress + {service};
      var raised, done, events := RunRunbook(service, statusMap, sig, seen);
      inProgress := inProgress - {service};
      o := done;
      if raised {
        return newMap, true, o;
      }
      var a := orchestrator.Status(service);
      o := o.(refresh := a);
      match a
      case Raised => aborted := true;
      case Got(st) => newMap := newMap[service := st];
    }

    method ClassifyNow(service: string, statusMap: map<string, Status>, healthy: Option<bool>, oom: bool)
      returns (sig: Signature, ghost now: real)
      requires Valid()
      modifies flap, clock
      ensures Valid() && old(clock.now) <= now == clock.now
      ensures sig == Classify(config, old(flap.View()), statusMap, service, healthy, oom, now)
      ensures Decided(statusMap, service, healthy, oom, IsFlapping(config, old(flap.View()), service, now), sig)
      ensures flap.View() == if sig.Healthy? || sig.DependencyDown? then old(flap.View())
                             else Pruned(config, old(flap.View()), service, now)
    {
      now := clock.now;
      var running := StatusOf(statusMap, service) == Some(Running);
      var unhealthy := running && healthy == Some(false);
      if running && !unhealthy {
        return Healthy, now;
      }
      if !DependencyUp(statusMap, service) {
        return DependencyDown, now;
      }
      var flapping := flap.CheckFlapping(service);
      now := clock.now;
      if flapping {
        return if oom then OomCrashLoop else Flapping, now;
      }
      return if unhealthy then ContainerUnhealthy else ContainerDown, now;
    }

    /** One healing pass, as watchdog.py runs it: a snapshot, then every service in turn. */
    method CheckAndHeal(services: seq<string>)
      returns (aborted: bool, ghost p: PassInput, ghost last: map<string, Status>)
      requires Valid()
      modifies this, flap, clock, orchestrator
      ensures Valid() && old(clock.now) <= clock.now
      ensures p.services == services && |p.readings| <= |services| && |p.obs| == |services|
      ensures TimedObs(p.obs, old(clock.now), clock.now)
      ensures State(flap.View(), last, orchestrator.trace)
           == RunPass(config, State(old(flap.View()), map[], old(orchestrator.trace)), p)
    {
      ghost var t0 := flap.View();
      var statusMap, raised, readings := TakeSnapshot(services, t0);
      if raised {
        return true, PassInput(services, readings, Idles(|services|, clock.now)), statusMap;
      }
      assert services[..|services|] == services;
      ghost var obs;
      aborted, obs, last := HealAll(services, statusMap);
      p := PassInput(services, readings, obs);
      hide VisitAll;
    }

    /** Visit every service in turn, until one visit raises. */
    method HealAll(services: seq<string>, snapshot: map<string, Status>)
      returns (aborted: bool, ghost obs: seq<Obs>, ghost last: map<string, Status>)
      requires Valid()
      modifies this, flap, clock, orchestrator
      ensures Valid() && old(clock.now) <= clock.now
      ensures |obs| == |services| && TimedObs(obs, old(clock.now), clock.now)
      ensures VisitAll(config, State(old(flap.View()), snapshot, old(orchestrator.trace)), services, obs)
           == (State(flap.View(), last, orchestrator.trace), aborted)
    {
      hide Visit, VisitAll;
      ghost var s1 := State(flap.View(), snapshot, orchestrator.trace);
      var statusMap := snapshot;
      obs := [];
      VisitNone(config, s1, services);
      for k := 0 to |services|
        invariant Valid() && old(clock.now) <= clock.now
        invariant |obs| == k && TimedObs(obs, old(clock.now), clock.now)
        invariant VisitAll(config, s1, services[..k], obs) == (State(flap.View(), statusMap, orchestrator.trace), false)
      {
        ghost var seen := obs;
        ghost var o;
        statusMap, aborted, o := VisitService(services[k], statusMap);
        obs := seen + [o];
        assert obs[..k] == seen;
        VisitAllSnoc(config, s1, services, obs, k);
        if aborted {
          ghost var rest := Idles(|services| - k - 1, clock.now);
          VisitAllSplits(config, s1, services, obs + rest, k + 1);
          assert (obs + rest)[..k + 1] == obs;
          return true, obs + rest, statusMap;
        }
      }
      assert services[..|services|] == services;
      return false, obs, statusMap;
    }

    /** The readings that open a pass; an exception leaves only those made so far. */
    method TakeSnapshot(services: seq<string>, ghost t: Tracker)
      returns (statusMap: map<string, Status>, raised: bool, ghost readings: seq<Status>)
      modifies orchestrator
      ensures |readings| <= |services| && (!raised ==> |readings| == |services|)
      ensures raised ==> |readings| < |services|
      ensures State(t, statusMap, orchestrator.trace)
           == Snapshot(State(t, map[], old(orchestrator.trace)), services[..|readings|], readings)
    {
      statusMap, readings := map[], [];
      for k := 0 to |services|
        invariant |readings| == k
        invariant State(t, statusMap, orchestrator.trace)
             == Snapshot(State(t, map[], old(orchestrator.trace)), services[..k], readings)
      {
        var a := orchestrator.Status(services[k]);
        if a.Raised? {
          return statusMap, true, readings;
        }
        SnapshotSnoc(State(t, map[], old(orchestrator.trace)), services[..k], readings, services[k], a.value);
        statusMap := statusMap[services[k] := a.value];
        readings := readings + [a.value];
        assert services[..k + 1] == services[..k] + [services[k]];
      }
      raised := false;
      assert services[..|services|] == services;
    }
  }

  lemma {:induction false} SnapshotSnoc(s: State, services: seq<string>, readings: seq<Status>,
                                        service: string, reading: Status)
    requires |readings| == |services|
    ensures var s1 := Snapshot(s, services, readings);
            Snapshot(s, services + [service], readings + [reading])
              == State(s1.tracker, s1.statusMap[service := reading], s1.trace + [Read(service, reading)])
    decreases |services|
  {
    var all, got := services + [service], readings + [reading];
    if services == [] {
      assert all[1..] == [] && got[1..] == [];
    } else {
      assert all[1..] == services[1..] + [service] && got[1..] == readings[1..] + [reading];
      var s1 := s.(statusMap := s.statusMap[services[0] := readings[0]],
                   trace := s.trace + [Read(services[0], readings[0])]);
      SnapshotSnoc(s1, services[1..], readings[1..], service, reading);
    }
  }

  lemma {:induction false} VisitNone(c: Config, s: State, services: seq<string>)
    ensures VisitAll(c, s, services[..0], []) == (s, false)
  {
  }

  /** Visiting one more service. */
  lemma {:induction false} VisitAllSnoc(c: Config, s: State, services: seq<string>, obs: seq<Obs>, k: nat)
    requires k < |services| && |obs| == k + 1
    requires !VisitAll(c, s, services[..k], obs[..k]).1
    ensures var before := VisitAll(c, s, services[..k], obs[..k]).0;
            var v := Visit(c, before.tracker, before.statusMap, services[k], obs[k]);
            VisitAll(c, s, services[..k + 1], obs) == (After(before, v), v.aborted)
  {
    hide Visit;
    VisitAllSplits(c, s, services[..k + 1], obs, k);
    assert services[..k + 1][..k] == services[..k];
    assert services[..k + 1][k..] == [services[k]] && obs[k..] == [obs[k]];
    assert [services[k]][1..] == [] && [obs[k]][1..] == [];
  }

  // ------------------------------------------------------------------ passes are runs

  /** A pass is the opening snapshot followed by the visits made before an exception, if any. */
  lemma {:induction false} VisitAllIsRun(c: Config, s: State, services: seq<string>, obs: seq<Obs>, from: real, to: real)
    returns (steps: seq<Step>)
    requires |obs| == |services| && TimedObs(obs, from, to)
    ensures TimedWithin(steps, from, to) && Exec(c, s, steps) == VisitAll(c, s, services, obs).0
    decreases |services|
  {
    hide Visit;
    if services == [] {
      return [];
    }
    var v := Visit(c, s.tracker, s.statusMap, services[0], obs[0]);
    var rest: seq<Step> := [];
    if !v.aborted {
      rest := VisitAllIsRun(c, After(s, v), services[1..], obs[1..], obs[0].tCount, to);
    }
    steps := [At(services[0], obs[0])] + rest;
    assert steps[1..] == rest;
    TimedCons(steps, from, if v.aborted then to else obs[0].tCount, to);
  }

  lemma {:induction false} TimedCons(steps: seq<Step>, from: real, mid: real, to: real)
    requires steps != [] && from <= mid <= to && TimedWithin(steps[1..], mid, to)
    requires steps[0].At? ==> Timed(steps[0].obs, from, to) && (steps[0].obs.tCount == mid || steps[1..] == [])
    requires steps[0].Open? ==> mid == from
    ensures TimedWithin(steps, from, to)
  {
    HeadAndTail(steps);
    if steps[0].At? {
      assert Timed(steps[0].obs, from, steps[0].obs.tCount);
      assert TimedFrom(steps[1..], steps[0].obs.tCount);
    }
    assert TimedFrom(steps, from);
  }

  /** Clock reads in order and none after `to`. */
  ghost predicate TimedWithin(steps: seq<Step>, from: real, to: real) {
    && from <= to && TimedFrom(steps, from)
    && forall step :: step in steps && step.At? ==> step.obs.tCount <= to
  }

  lemma {:induction false} TimedConcat(x: seq<Step>, y: seq<Step>, from: real, mid: real, to: real)
    requires TimedWithin(x, from, mid) && TimedWithin(y, mid, to)
    ensures TimedWithin(x + y, from, to)
    decreases |x|
  {
    if x == [] {
      assert x + y == y;
      TimedEarlier(y, from, mid);
    } else {
      assert (x + y)[1..] == x[1..] + y && x[0] in x;
      TimedConcat(x[1..], y, if x[0].At? then x[0].obs.tCount else from, mid, to);
    }
  }

  lemma {:induction false} TimedEarlier(steps: seq<Step>, from: real, later: real)
    requires from <= later && TimedFrom(steps, later)
    ensures TimedFrom(steps, from)
    decreases |steps|
  {
    if steps != [] && steps[0].Open? {
      TimedEarlier(steps[1..], from, later);
    }
  }

  lemma {:induction false} PassIsRun(c: Config, s: State, p: PassInput, from: real, to: real) returns (steps: seq<Step>)
    requires |p.readings| <= |p.services| == |p.obs| && TimedObs(p.obs, from, to)
    ensures TimedWithin(steps, from, to) && Exec(c, s, steps) == RunPass(c, s, p)
  {
    hide Visit;
    var begun := s.(statusMap := map[]);
    if |p.readings| == |p.services| {
      var open := Open(p.services, p.readings);
      var rest := VisitAllIsRun(c, Snapshot(begun, p.services, p.readings), p.services, p.obs, from, to);
      steps := [open] + rest;
      assert steps[1..] == rest;
      TimedCons(steps, from, from, to);
    } else {
      steps := [Open(p.services[..|p.readings|], p.readings)];
      assert steps[1..] == [];
      TimedCons(steps, from, from, to);
    }
  }

  /** The status map a pass leaves behind is not an input of the next one. */
  lemma {:induction false} RunPassForgetsMap(c: Config, s: State, p: PassInput, other: map<string, Status>)
    requires |p.readings| <= |p.services| == |p.obs|
    ensures RunPass(c, s, p) == RunPass(c, s.(statusMap := other), p)
  {
    hide Visit;
    assert s.(statusMap := map[]) == s.(statusMap := other).(statusMap := map[]);
  }

  // ------------------------------------------------------------------ polls

  /** Passes over one list, complete or cut short, with clock readings that never run backwards: pass `k`
      starts at or after `times[k]` and ends at least `interval` before `times[k + 1]`. */
  ghost predicate PollsOf(services: seq<string>, passes: seq<PassInput>, times: seq<real>, interval: real) {
    && interval >= 0.0 && |times| == |passes| + 1
    && forall k :: 0 <= k < |passes| ==>
         && passes[k].services == services
         && |passes[k].readings| <= |services| == |passes[k].obs|
         && TimedObs(passes[k].obs, times[k], times[k + 1] - interval)
  }

  lemma {:induction false} TimedLonger(steps: seq<Step>, from: real, to: real, later: real)
    requires TimedWithin(steps, from, to) && to <= later
    ensures TimedWithin(steps, from, later)
  {
  }

  /** Any sequence of polls of one list is a timed run. */
  lemma {:induction false} PollsAreRun(c: Config, s: State, services: seq<string>, passes: seq<PassInput>,
                                       times: seq<real>, interval: real)
    returns (steps: seq<Step>)
    requires PollsOf(services, passes, times, interval)
    ensures TimedWithin(steps, times[0], times[|passes|]) && Exec(c, s, steps) == RunPasses(c, s, passes)
    decreases |passes|
  {
    hide RunPass, Apply;
    if passes == [] {
      return [];
    }
    var first := PassIsRun(c, s, passes[0], times[0], times[1] - interval);
    TimedLonger(first, times[0], times[1] - interval, times[1]);
    var rest := PollsAreRun(c, RunPass(c, s, passes[0]), services, passes[1..], times[1..], interval);
    TimedConcat(first, rest, times[0], times[1], times[|passes|]);
    ExecConcat(c, s, first, rest);
    steps := first + rest;
  }

  lemma {:induction false} RunPassesConcat(c: Config, s: State, x: seq<PassInput>, y: seq<PassInput>)
    ensures RunPasses(c, s, x + y) == RunPasses(c, RunPasses(c, s, x), y)
    decreases |x|
  {
    hide RunPass;
    if x == [] {
      assert x + y == y;
    } else {
      assert (x + y)[1..] == x[1..] + y;
      RunPassesConcat(c, RunPass(c, s, x[0]), x[1..], y);
    }
  }

  lemma {:induction false} RunOne(c: Config, s: State, p: PassInput)
    ensures RunPasses(c, s, [p]) == RunPass(c, s, p)
  {
    hide RunPass;
    assert [p][1..] == [];
    assert RunPasses(c, RunPass(c, s, p), []) == RunPass(c, s, p);
  }

  /** What one window may hold of a service: `threshold` restarts, and three starts for each. */
  ghost predicate WithinLimits(c: Config, trace: seq<Event>, service: string, from: real) {
    && CountIn(RestartTimes(trace, service), from, from + c.window) <= Limit(c)
    && StartsDuring(trace, service, from, from + c.window, false) <= MaxRestartAttempts * Limit(c)
  }

  /** The polling loop, for any number of polls: what it did is a sequence of polls, sleeps included;
      no window ever holds more than `threshold` restarts of a service, and every start respects the
      dependency order. */
  method Poll(w: WatchdogProcess, services: seq<string>, interval: real, polls: nat)
    returns (ghost passes: seq<PassInput>, ghost times: seq<real>)
    requires w.Valid() && interval >= 0.0
    requires w.flap.View() == Fresh && w.orchestrator.trace == []
    modifies w, w.flap, w.clock, w.orchestrator
    ensures w.Valid() && DependencyOrder(w.orchestrator.trace)
    ensures |passes| == polls && PollsOf(services, passes, times, interval)
    ensures w.orchestrator.trace == RunPasses(w.config, Initial, passes).trace
    ensures 0.0 <= w.config.window < w.config.cooldown ==>
              forall service, from :: WithinLimits(w.config, w.orchestrator.trace, service, from)
  {
    hide RunPass, TimedObs, DependencyOrder;
    passes, times := [], [w.clock.now];
    ghost var s := Initial;
    for i := 0 to polls
      invariant w.Valid() && |passes| == i && PollsOf(services, passes, times, interval)
      invariant times[|passes|] == w.clock.now
      invariant s == RunPasses(w.config, Initial, passes)
      invariant s.tracker == w.flap.View() && s.trace == w.orchestrator.trace
    {
      var _, p, last := w.CheckAndHeal(services);
      RunPassForgetsMap(w.config, s, p, map[]);
      RunPassesConcat(w.config, Initial, passes, [p]);
      RunOne(w.config, s, p);
      ghost var end := w.clock.now;
      w.clock.Sleep(interval);
      TimedObsLonger(p.obs, times[|passes|], end, w.clock.now - interval);
      passes, times := passes + [p], times + [w.clock.now];
      s := RunPass(w.config, s, p);
    }
    PassesKeepOrder(w.config, Initial, passes);
    if 0.0 <= w.config.window < w.config.cooldown {
      LongCooldownLimits(w.config, services, passes, times, interval);
    }
  }

  lemma {:induction false} LongCooldownLimits(c: Config, services: seq<string>, passes: seq<PassInput>,
                                              times: seq<real>, interval: real)
    requires 0.0 <= c.window < c.cooldown && PollsOf(services, passes, times, interval)
    ensures forall service, from :: WithinLimits(c, RunPasses(c, Initial, passes).trace, service, from)
  {
    hide RunPasses, Exec, TimedFrom;
    var steps := PollsAreRun(c, Initial, services, passes, times, interval);
    forall service, from
      ensures WithinLimits(c, RunPasses(c, Initial, passes).trace, service, from)
    {
      RestartsBounded(c, steps, times[0], service, from);
      StartsBounded(c, steps, times[0], service, from);
    }
  }

  lemma {:induction false} TimedObsLonger(obs: seq<Obs>, from: real, to: real, later: real)
    requires TimedObs(obs, from, to) && to <= later
    ensures TimedObs(obs, from, later)
  {
  }
}
