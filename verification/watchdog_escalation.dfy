/** Escalations over whole runs: a service that keeps failing is escalated, an escalated service is
    left alone until its cooldown ends, and then it starts afresh. */
module WatchdogEscalation {
  import opened Common
  import opened Flap
  import opened Watchdog
  import opened WatchdogRuns

  /** The events a run adds to the trace. */
  function RunEvents(c: Config, s: State, steps: seq<Step>): seq<Event>
    decreases |steps|
  {
    if steps == [] then []
    else
      var events :=
        match steps[0]
        case Open(services, readings) =>
          if |services| == |readings| then SnapshotEvents(services, readings) else []
        case At(service, o) => Visit(c, s.tracker, s.statusMap, service, o).events;
      events + RunEvents(c, Apply(c, s, steps[0]), steps[1..])
  }

  /** What a run adds to the trace is what follows the old trace. */
  lemma {:induction false} RunEventsAppend(c: Config, s: State, steps: seq<Step>)
    ensures var trace := Exec(c, s, steps).trace;
            |s.trace| <= |trace| && trace == s.trace + RunEvents(c, s, steps)
            && trace[|s.trace|..] == RunEvents(c, s, steps)
    decreases |steps|
  {
    hide Visit, Snapshot;
    if steps != [] {
      RunEventsAppend(c, Apply(c, s, steps[0]), steps[1..]);
      if steps[0].Open? && |steps[0].services| == |steps[0].readings| {
        SnapshotFrame(s.(statusMap := map[]), steps[0].services, steps[0].readings);
      }
    }
  }

  // ------------------------------------------------------------------ progress

  /** The visit sees the service down or wedged, its tickerplant running, and no call raises. */
  predicate Fails(statusMap: map<string, Status>, service: string, o: Obs) {
    var status := StatusOf(statusMap, service);
    && status != Some(NotFound)
    && (status == Some(Running) ==> o.probe == Some(Got(false)))
    && DependencyUp(statusMap, service)
    && o.oom.Got?
  }

  ghost predicate AlwaysFails(c: Config, s: State, steps: seq<Step>, service: string)
    decreases |steps|
  {
    steps != [] ==>
      && (steps[0].At? && steps[0].service == service ==> Fails(s.statusMap, service, steps[0].obs))
      && AlwaysFails(c, Apply(c, s, steps[0]), steps[1..], service)
  }

  function VisitsOf(steps: seq<Step>, service: string): nat
    decreases |steps|
  {
    if steps == [] then 0
    else (if steps[0].At? && steps[0].service == service then 1 else 0) + VisitsOf(steps[1..], service)
  }

  ghost predicate VisitsWithin(steps: seq<Step>, service: string, from: real, to: real) {
    forall step :: step in steps && step.At? && step.service == service
      ==> from <= step.obs.tCooldown && step.obs.tAct <= to
  }

  /** The last `k` restarts kept are no older than `since`. */
  ghost predicate RecentlyKept(times: seq<real>, k: nat, since: real) {
    k <= |times| && forall i :: |times| - k <= i < |times| ==> times[i] >= since
  }

  lemma {:induction false} PruneKeepsRecent(times: seq<real>, k: nat, since: real, now: real, window: real)
    requires RecentlyKept(times, k, since) && now <= since + window
    ensures RecentlyKept(Prune(times, now, window), k, since)
  {
    PruneIsSuffix(times, now, window);
    var kept := Prune(times, now, window);
    var gone := |times| - |kept|;
    assert gone > 0 ==> now - times[gone - 1] > window;
    forall i | |kept| - k <= i < |kept|
      ensures kept[i] >= since
    {
      assert kept[i] == times[i + gone];
    }
  }

  /** One failing visit either escalates or adds a recent restart, if there is room for one. */
  lemma {:induction false} FailingVisit(c: Config, s: State, service: string, o: Obs, k: nat, since: real)
    requires Timed(o, since, o.tCount) && o.tAct <= since + c.window
    requires Fails(s.statusMap, service, o)
    requires Until(s.tracker, service).Some? ==> k == 0 && Until(s.tracker, service).value <= since
    requires RecentlyKept(Kept(s.tracker, service), k, since)
    ensures var s' := Apply(c, s, At(service, o));
            match EffectOf(c, s.tracker, s.statusMap, service, o)
            case Nothing => false
            case Restarted =>
              && k + 1 <= Limit(c) && Until(s'.tracker, service) == None
              && RecentlyKept(Kept(s'.tracker, service), k + 1, since)
            case Escalated(d) =>
              Escalate(service, o.tAct, o.tAct + d) in Visit(c, s.tracker, s.statusMap, service, o).events
  {
    hide Visit, EffectOf, Prune, Fails, RecentlyKept;
    FailingActs(c, s, service, o, since);
    var t1 := CooldownChecked(s.tracker, service, o.tCooldown);
    var k1 := Kept(t1, service);
    var k2 := Prune(k1, o.tWatch, c.window);
    var k3 := Prune(k2, o.tClassify, c.window);
    CheckKeepsRecent(s.tracker, service, o.tCooldown, k, since);
    PruneKeepsRecent(k1, k, since, o.tWatch, c.window);
    PruneKeepsRecent(k2, k, since, o.tClassify, c.window);
    OneMoreRecent(k3, k, since, o.tAct);
    PruneKeepsRecent(k3 + [o.tAct], k + 1, since, o.tAct, c.window);
    VisitEffect(c, s.tracker, s.statusMap, service, o);
    EffectTracker(c, s.tracker, s.statusMap, service, o);
    RecentFits(k3, k, since);
  }

  lemma {:induction false} FailingActs(c: Config, s: State, service: string, o: Obs, since: real)
    requires Timed(o, since, o.tCount) && Fails(s.statusMap, service, o)
    requires Until(s.tracker, service).Some? ==> Until(s.tracker, service).value <= since
    ensures !EffectOf(c, s.tracker, s.statusMap, service, o).Nothing?
  {
    hide IsFlapping, Pruned, CooldownChecked, DependencyUp;
  }

  lemma {:induction false} CheckKeepsRecent(t: Tracker, service: string, now: real, k: nat, since: real)
    requires Until(t, service).Some? ==> k == 0
    requires RecentlyKept(Kept(t, service), k, since)
    ensures RecentlyKept(Kept(CooldownChecked(t, service, now), service), k, since)
  {
  }

  lemma {:induction false} OneMoreRecent(times: seq<real>, k: nat, since: real, now: real)
    requires RecentlyKept(times, k, since) && now >= since
    ensures RecentlyKept(times + [now], k + 1, since)
  {
  }

  lemma {:induction false} RecentFits(times: seq<real>, k: nat, since: real)
    requires RecentlyKept(times, k, since)
    ensures k <= |times|
  {
  }

  lemma {:induction false} KeepsFailing(c: Config, s: State, steps: seq<Step>, service: string,
                                        from: real, since: real, k: nat)
    returns (at: real, until: real)
    requires c.window >= 0.0 && TimedFrom(steps, from) && AlwaysFails(c, s, steps, service)
    requires VisitsWithin(steps, service, since, since + c.window)
    requires k <= Limit(c) < k + VisitsOf(steps, service)
    requires Until(s.tracker, service).Some? ==> k == 0 && Until(s.tracker, service).value <= since
    requires RecentlyKept(Kept(s.tracker, service), k, since)
    ensures Escalate(service, at, until) in RunEvents(c, s, steps)
    decreases |steps|
  {
    hide Visit, EffectOf;
    var s' := Apply(c, s, steps[0]);
    match steps[0]
    case Open(_, _) =>
      OpenKeeps(c, s, steps[0], service);
      at, until := KeepsFailing(c, s', steps[1..], service, from, since, k);
    case At(visited, o) =>
      if visited == service {
        FailingVisit(c, s, service, o, k, since);
        match EffectOf(c, s.tracker, s.statusMap, service, o)
        case Restarted => at, until := KeepsFailing(c, s', steps[1..], service, o.tCount, since, k + 1);
        case Escalated(d) => at, until := o.tAct, o.tAct + d;
      } else {
        VisitIsLocal(c, s, visited, o, service);
        at, until := KeepsFailing(c, s', steps[1..], service, o.tCount, since, k);
      }
  }

  /** A service that is not cooling down and is seen failing on `threshold + 1` visits inside one window
      is escalated by the last of them, whatever happens to other services in between. */
  lemma {:induction false} PersistentFailureEscalates(c: Config, s: State, steps: seq<Step>, service: string, from: real, since: real)
    requires c.window >= 0.0 && TimedFrom(steps, from) && AlwaysFails(c, s, steps, service)
    requires VisitsWithin(steps, service, since, since + c.window)
    requires VisitsOf(steps, service) > Limit(c)
    requires Until(s.tracker, service).Some? ==> Until(s.tracker, service).value <= since
    ensures var trace := Exec(c, s, steps).trace;
            |s.trace| <= |trace| && exists at, until :: Escalate(service, at, until) in trace[|s.trace|..]
  {
    var at, until := KeepsFailing(c, s, steps, service, from, since, 0);
    RunEventsAppend(c, s, steps);
    assert Escalate(service, at, until) in Exec(c, s, steps).trace[|s.trace|..];
  }

  // ------------------------------------------------------------------ silence

  ghost predicate VisitsBefore(steps: seq<Step>, service: string, until: real) {
    forall step :: step in steps && step.At? && step.service == service ==> step.obs.tCooldown < until
  }

  /** A run that visits a cooling service only before its cooldown ends adds nothing but readings of it. */
  lemma {:induction false} CoolingIsSilent(c: Config, s: State, steps: seq<Step>, service: string)
    requires Until(s.tracker, service).Some?
    requires VisitsBefore(steps, service, Until(s.tracker, service).value)
    ensures forall e :: e in RunEvents(c, s, steps) && e.service == service ==> e.Read?
    ensures var t := Exec(c, s, steps).tracker;
            Until(t, service) == Until(s.tracker, service) && Kept(t, service) == Kept(s.tracker, service)
    decreases |steps|
  {
    if steps != [] {
      var s' := Apply(c, s, steps[0]);
      match steps[0] {
        case Open(_, _) => OpenKeeps(c, s, steps[0], service);
        case At(visited, o) =>
          if visited == service {
            assert steps[0] in steps;
            assert s' == s;
          } else {
            hide Visit, EffectOf;
            VisitIsLocal(c, s, visited, o, service);
            VisitEffect(c, s.tracker, s.statusMap, visited, o);
          }
      }
      hide Visit, EffectOf;
      CoolingIsSilent(c, s', steps[1..], service);
    }
  }

  /** An out-of-memory loop is the one that cools down six times longer. */
  lemma {:induction false} EscalationDuration(c: Config, s: State, service: string, o: Obs)
    requires o.tWatch <= o.tClassify
    requires EffectOf(c, s.tracker, s.statusMap, service, o).Escalated?
    ensures EffectOf(c, s.tracker, s.statusMap, service, o).duration
         == if o.oom == Got(true) then c.cooldown * OomCooldownMultiplier else c.cooldown
  {
    hide IsFlapping, Pruned, DependencyUp, CooldownChecked, InCooldown;
    FlappingBefore(c, CooldownChecked(s.tracker, service, o.tCooldown), service, o.tWatch, o.tClassify);
  }

  /** What flaps at a later test flapped at the earlier one: pruning only drops restarts. */
  lemma {:induction false} FlappingBefore(c: Config, t: Tracker, service: string, now: real, later: real)
    requires IsFlapping(c, Pruned(c, t, service, now), service, later)
    ensures IsFlapping(c, t, service, now)
  {
    hide Prune;
    PruneIsSuffix(Kept(t, service), now, c.window);
    PruneIsSuffix(Prune(Kept(t, service), now, c.window), later, c.window);
  }

  /** From an escalation until its cooldown ends the service is neither started nor restarted nor
      escalated again; and when the cooldown has ended, the next visit finds no restarts counted
      against it. */
  lemma {:induction false} EscalationSilences(c: Config, s: State, service: string, o: Obs, steps: seq<Step>, next: real, later: real)
    requires Timed(o, o.tCooldown, o.tCount) && EffectOf(c, s.tracker, s.statusMap, service, o).Escalated?
    requires var d := if o.oom == Got(true) then c.cooldown * OomCooldownMultiplier else c.cooldown;
             VisitsBefore(steps, service, o.tAct + d) && next >= o.tAct + d
    ensures var s1 := Apply(c, s, At(service, o));
            var s2 := Exec(c, s1, steps);
            var t := CooldownChecked(s2.tracker, service, next);
            && |s1.trace| <= |s2.trace|
            && (forall e :: e in s2.trace[|s1.trace|..] && e.service == service ==> e.Read?)
            && Until(t, service) == None && RestartCount(c, t, service, later) == 0
  {
    EscalationDuration(c, s, service, o);
    EffectTracker(c, s.tracker, s.statusMap, service, o);
    hide Visit, EffectOf;
    CoolingIsSilent(c, Apply(c, s, At(service, o)), steps, service);
    RunEventsAppend(c, Apply(c, s, At(service, o)), steps);
  }
}
