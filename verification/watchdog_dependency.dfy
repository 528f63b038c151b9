/** Dependency order: a wdb, rdb or idb is started only while its tickerplant last read as running,
    and a tickerplant healed early in a pass lets its dependents be restarted in the same pass. */
module WatchdogDependency {
  import opened Common
  import opened Flap
  import opened Topology
  import opened Watchdog
  import opened WatchdogRuns

  /** The last status read for a service. */
  function Latest(trace: seq<Event>, service: string): Option<Status>
    decreases |trace|
  {
    if trace == [] then None
    else
      var e := trace[|trace| - 1];
      if e.Read? && e.service == service then Some(e.status) else Latest(trace[..|trace| - 1], service)
  }

  ghost predicate StartAllowed(trace: seq<Event>, i: nat)
    requires i < |trace|
  {
    var dep := TickerplantDependency(trace[i].service);
    trace[i].Start? && dep.Some? ==> Latest(trace[..i], dep.value) == Some(Running)
  }

  /** Every start of a dependent service happens while its tickerplant's latest reading is running. */
  ghost predicate DependencyOrder(trace: seq<Event>) {
    forall i :: 0 <= i < |trace| ==> StartAllowed(trace, i)
  }

  /** The status map the pass works from is never stale. */
  ghost predicate MapIsLatest(statusMap: map<string, Status>, trace: seq<Event>) {
    forall x :: x in statusMap ==> Latest(trace, x) == Some(statusMap[x])
  }

  lemma {:induction false} LatestSkips(x: seq<Event>, y: seq<Event>, service: string)
    requires forall e :: e in y ==> e.service != service
    ensures Latest(x + y, service) == Latest(x, service)
    decreases |y|
  {
    if y == [] {
      assert x + y == x;
    } else {
      var init := y[..|y| - 1];
      assert (x + y)[..|x + y| - 1] == x + init;
      assert (x + y)[|x + y| - 1] == y[|y| - 1] && y[|y| - 1] in y;
      LatestSkips(x, init, service);
    }
  }

  lemma {:induction false} TickerplantIsOther(service: string)
    requires TickerplantDependency(service).Some?
    ensures TickerplantDependency(service).value != service
  {
    var tp := TickerplantDependency(service).value;
    assert tp[0] == 't';
    assert service[0] != 't' by {
      if "wdb-" <= service { assert service[0] == "wdb-"[0]; }
      else if "rdb-" <= service { assert service[0] == "rdb-"[0]; }
      else { assert service[0] == "idb-"[0]; }
    }
  }

  lemma {:induction false} OwnEventsKeepOrder(x: seq<Event>, y: seq<Event>, service: string)
    requires DependencyOrder(x) && forall e :: e in y ==> e.service == service
    requires (exists e :: e in y && e.Start?) && TickerplantDependency(service).Some?
             ==> Latest(x, TickerplantDependency(service).value) == Some(Running)
    ensures DependencyOrder(x + y)
  {
    forall i | 0 <= i < |x + y|
      ensures StartAllowed(x + y, i)
    {
      if i < |x| {
        assert StartAllowed(x, i) && (x + y)[..i] == x[..i];
      } else if (x + y)[i].Start? && TickerplantDependency(service).Some? {
        var before := y[..i - |x|];
        assert (x + y)[i] == y[i - |x|] && y[i - |x|] in y;
        assert (x + y)[..i] == x + before;
        TickerplantIsOther(service);
        LatestSkips(x, before, TickerplantDependency(service).value);
      }
    }
  }

  /** A visit that ends normally either adds nothing and leaves the map alone, or ends by reading the
      service back into the map. */
  lemma {:induction false} VisitRefreshes(c: Config, t: Tracker, statusMap: map<string, Status>, service: string, o: Obs)
    ensures var v := Visit(c, t, statusMap, service, o);
            !v.aborted ==>
              || (v.events == [] && v.statusMap == statusMap)
              || (v.events != [] && o.refresh.Got?
                  && v.events[|v.events| - 1] == Read(service, o.refresh.value)
                  && v.statusMap == statusMap[service := o.refresh.value])
  {
    hide CooldownChecked, InCooldown, Heal;
    var t1 := CooldownChecked(t, service, o.tCooldown);
    HealRefreshes(c, t1, statusMap, service, o, None);
    HealRefreshes(c, t1, statusMap, service, o, Some(false));
  }

  lemma {:induction false} HealRefreshes(c: Config, t: Tracker, statusMap: map<string, Status>, service: string,
                                         o: Obs, healthy: Option<bool>)
    ensures var v := Heal(c, t, statusMap, service, o, healthy);
            !v.aborted ==>
              || (v.events == [] && v.statusMap == statusMap)
              || (v.events != [] && o.refresh.Got?
                  && v.events[|v.events| - 1] == Read(service, o.refresh.value)
                  && v.statusMap == statusMap[service := o.refresh.value])
  {
    hide IsFlapping, Pruned, Recorded, CoolingDown, Try, Classify;
  }

  lemma {:induction false} StartsNeedDependency(c: Config, t: Tracker, statusMap: map<string, Status>, service: string, o: Obs)
    requires !DependencyUp(statusMap, service)
    ensures forall e :: e in Visit(c, t, statusMap, service, o).events ==> e.Read?
  {
    hide Visit, CooldownChecked, IsFlapping, InCooldown, Pruned, DependencyUp;
    VisitEffect(c, t, statusMap, service, o);
  }

  /** One visit keeps the order, and the map fresh unless an exception ended the pass. */
  lemma {:induction false} VisitKeepsOrder(c: Config, s: State, service: string, o: Obs)
    requires DependencyOrder(s.trace) && MapIsLatest(s.statusMap, s.trace)
    ensures var v := Visit(c, s.tracker, s.statusMap, service, o);
            && DependencyOrder(s.trace + v.events)
            && (!v.aborted ==> MapIsLatest(v.statusMap, s.trace + v.events))
  {
    hide Visit, EffectOf, Latest, DependencyOrder;
    var v := Visit(c, s.tracker, s.statusMap, service, o);
    VisitRefreshes(c, s.tracker, s.statusMap, service, o);
    VisitEffect(c, s.tracker, s.statusMap, service, o);
    if !DependencyUp(s.statusMap, service) {
      StartsNeedDependency(c, s.tracker, s.statusMap, service, o);
    }
    OwnEventsKeepOrder(s.trace, v.events, service);
    if !v.aborted {
      MapStaysLatest(s, v, service);
    }
  }

  lemma {:induction false} MapStaysLatest(s: State, v: Visited, service: string)
    requires MapIsLatest(s.statusMap, s.trace) && forall e :: e in v.events ==> e.service == service
    requires || (v.events == [] && v.statusMap == s.statusMap)
             || (v.events != [] && v.events[|v.events| - 1].Read?
                 && v.statusMap == s.statusMap[service := v.events[|v.events| - 1].status])
    ensures MapIsLatest(v.statusMap, s.trace + v.events)
  {
    assert v.events == [] ==> s.trace + v.events == s.trace;
    forall x | x in v.statusMap
      ensures Latest(s.trace + v.events, x) == Some(v.statusMap[x])
    {
      if x != service {
        LatestSkips(s.trace, v.events, x);
      } else if v.events != [] {
        assert v.events[|v.events| - 1] in v.events;
      }
    }
  }

  lemma {:induction false} SnapshotIsLatest(s: State, services: seq<string>, readings: seq<Status>)
    requires |readings| == |services|
    requires DependencyOrder(s.trace) && MapIsLatest(s.statusMap, s.trace)
    ensures var s' := Snapshot(s, services, readings);
            && DependencyOrder(s'.trace) && MapIsLatest(s'.statusMap, s'.trace)
            && s'.tracker == s.tracker
    decreases |services|
  {
    if services != [] {
      var e := Read(services[0], readings[0]);
      var s1 := s.(statusMap := s.statusMap[services[0] := readings[0]], trace := s.trace + [e]);
      OwnEventsKeepOrder(s.trace, [e], services[0]);
      forall x | x in s1.statusMap
        ensures Latest(s1.trace, x) == Some(s1.statusMap[x])
      {
        if x != services[0] {
          LatestSkips(s.trace, [e], x);
        }
      }
      SnapshotIsLatest(s1, services[1..], readings[1..]);
    }
  }

  lemma {:induction false} VisitAllKeepsOrder(c: Config, s: State, services: seq<string>, obs: seq<Obs>)
    requires |obs| == |services|
    requires DependencyOrder(s.trace) && MapIsLatest(s.statusMap, s.trace)
    ensures DependencyOrder(VisitAll(c, s, services, obs).0.trace)
    decreases |services|
  {
    hide Visit;
    if services != [] {
      VisitKeepsOrder(c, s, services[0], obs[0]);
      var v := Visit(c, s.tracker, s.statusMap, services[0], obs[0]);
      if !v.aborted {
        VisitAllKeepsOrder(c, After(s, v), services[1..], obs[1..]);
      }
    }
  }

  /** One pass over any list of services. When a status call raises while the snapshot is taken, only
      the readings so far exist and the pass is over. */
  datatype PassInput = PassInput(services: seq<string>, readings: seq<Status>, obs: seq<Obs>)

  function RunPass(c: Config, s: State, p: PassInput): State {
    if |p.readings| == |p.services| == |p.obs| then Pass(c, s, p.services, p.readings, p.obs).0
    else if |p.readings| <= |p.services|
    then Snapshot(s.(statusMap := map[]), p.services[..|p.readings|], p.readings)
    else s
  }

  function RunPasses(c: Config, s: State, passes: seq<PassInput>): State
    decreases |passes|
  {
    if passes == [] then s else RunPasses(c, RunPass(c, s, passes[0]), passes[1..])
  }

  lemma {:induction false} PassKeepsOrder(c: Config, s: State, p: PassInput)
    requires DependencyOrder(s.trace)
    ensures DependencyOrder(RunPass(c, s, p).trace)
  {
    hide Visit;
    var begun := s.(statusMap := map[]);
    if |p.readings| == |p.services| == |p.obs| {
      SnapshotIsLatest(begun, p.services, p.readings);
      VisitAllKeepsOrder(c, Snapshot(begun, p.services, p.readings), p.services, p.obs);
    } else if |p.readings| <= |p.services| {
      SnapshotIsLatest(begun, p.services[..|p.readings|], p.readings);
    }
  }

  /** Over every run of passes, every start call respects the dependency order. */
  lemma {:induction false} PassesKeepOrder(c: Config, s: State, passes: seq<PassInput>)
    requires DependencyOrder(s.trace)
    ensures DependencyOrder(RunPasses(c, s, passes).trace)
    decreases |passes|
  {
    if passes != [] {
      PassKeepsOrder(c, s, passes[0]);
      PassesKeepOrder(c, RunPass(c, s, passes[0]), passes[1..]);
    }
  }

  // ------------------------------------------------------------------ recovery in the same pass

  lemma {:induction false} VisitAllSplits(c: Config, s: State, services: seq<string>, obs: seq<Obs>, j: nat)
    requires |obs| == |services| && j <= |services|
    ensures var first := VisitAll(c, s, services[..j], obs[..j]);
            VisitAll(c, s, services, obs)
              == if first.1 then first else VisitAll(c, first.0, services[j..], obs[j..])
    decreases j
  {
    hide Visit;
    if j > 0 {
      assert services[..j][1..] == services[1..][..j - 1] && obs[..j][1..] == obs[1..][..j - 1];
      assert services[1..][j - 1..] == services[j..] && obs[1..][j - 1..] == obs[j..];
      var v := Visit(c, s.tracker, s.statusMap, services[0], obs[0]);
      if !v.aborted {
        VisitAllSplits(c, After(s, v), services[1..], obs[1..], j - 1);
      }
    } else {
      assert services[0..] == services && obs[0..] == obs;
    }
  }

  /** Visits to other services leave a service's tracker entry and its snapshot reading alone. */
  lemma {:induction false} VisitAllFrame(c: Config, s: State, services: seq<string>, obs: seq<Obs>, service: string)
    requires |obs| == |services|
    ensures s.trace <= VisitAll(c, s, services, obs).0.trace
    ensures service !in services ==>
              var s' := VisitAll(c, s, services, obs).0;
              && Kept(s'.tracker, service) == Kept(s.tracker, service)
              && Until(s'.tracker, service) == Until(s.tracker, service)
              && StatusOf(s'.statusMap, service) == StatusOf(s.statusMap, service)
              && RestartTimes(s'.trace, service) == RestartTimes(s.trace, service)
    decreases |services|
  {
    if services != [] {
      var v := Visit(c, s.tracker, s.statusMap, services[0], obs[0]);
      if services[0] != service {
        VisitIsLocal(c, s, services[0], obs[0], service);
        VisitTouchesOwnStatus(c, s.tracker, s.statusMap, services[0], obs[0], service);
      }
      hide Visit;
      if !v.aborted {
        VisitAllFrame(c, After(s, v), services[1..], obs[1..], service);
      }
    }
  }

  lemma {:induction false} VisitTouchesOwnStatus(c: Config, t: Tracker, statusMap: map<string, Status>, service: string, o: Obs, other: string)
    requires other != service
    ensures StatusOf(Visit(c, t, statusMap, service, o).statusMap, other) == StatusOf(statusMap, other)
  {
    hide CooldownChecked, IsFlapping, InCooldown, Pruned, Recorded, CoolingDown, Try, DependencyUp;
  }

  lemma {:induction false} SnapshotReads(s: State, services: seq<string>, readings: seq<Status>, j: nat)
    requires |readings| == |services| && j < |services| && Distinct(services)
    ensures var s' := Snapshot(s, services, readings);
            StatusOf(s'.statusMap, services[j]) == Some(readings[j])
    decreases |services|
  {
    var s1 := s.(statusMap := s.statusMap[services[0] := readings[0]],
                 trace := s.trace + [Read(services[0], readings[0])]);
    if j > 0 {
      SnapshotReads(s1, services[1..], readings[1..], j - 1);
    } else {
      assert forall k :: 0 < k < |services| ==> services[k] != services[0];
      SnapshotKeeps(s1, services[1..], readings[1..], services[0]);
    }
  }

  lemma {:induction false} SnapshotKeeps(s: State, services: seq<string>, readings: seq<Status>, service: string)
    requires |readings| == |services| && service !in services
    ensures StatusOf(Snapshot(s, services, readings).statusMap, service) == StatusOf(s.statusMap, service)
    decreases |services|
  {
    if services != [] {
      var s1 := s.(statusMap := s.statusMap[services[0] := readings[0]],
                   trace := s.trace + [Read(services[0], readings[0])]);
      SnapshotKeeps(s1, services[1..], readings[1..], service);
    }
  }

  /** A visit to a service that is down, with its tickerplant up, no cooldown and room under the
      limit, restarts it. */
  lemma {:induction false} DownVisitRestarts(c: Config, s: State, service: string, o: Obs)
    requires StatusOf(s.statusMap, service) == Some(Down) && DependencyUp(s.statusMap, service)
    requires !InCooldown(s.tracker, service, o.tCooldown) && o.tWatch <= o.tClassify
    requires !IsFlapping(c, CooldownChecked(s.tracker, service, o.tCooldown), service, o.tWatch)
    ensures var events := Visit(c, s.tracker, s.statusMap, service, o).events;
            |events| >= 2 && events[0] == Restart(service, o.tAct) && events[1] == Start(service)
  {
    var t1 := CooldownChecked(s.tracker, service, o.tCooldown);
    PruneIsSuffix(Kept(t1, service), o.tWatch, c.window);
    PruneIsSuffix(Prune(Kept(t1, service), o.tWatch, c.window), o.tClassify, c.window);
    RestartIsVisit(c, s.tracker, s.statusMap, service, o);
  }

  /** A dependent that the snapshot saw down is restarted in the same pass as its tickerplant, provided
      the tickerplant reads running once it has been visited and the dependent is neither cooling down
      nor flapping. */
  lemma {:induction false} DependentRecoversInPass(c: Config, s: State, services: seq<string>, readings: seq<Status>,
                                obs: seq<Obs>, i: nat, j: nat)
    requires |readings| == |obs| == |services| && Distinct(services) && i < j < |services|
    requires TickerplantDependency(services[j]) == Some(services[i]) && readings[j] == Down
    requires var begun := Snapshot(s.(statusMap := map[]), services, readings);
             var healed := VisitAll(c, begun, services[..i + 1], obs[..i + 1]);
             !healed.1 && StatusOf(healed.0.statusMap, services[i]) == Some(Running)
    requires !VisitAll(c, Snapshot(s.(statusMap := map[]), services, readings), services[..j], obs[..j]).1
    requires !InCooldown(s.tracker, services[j], obs[j].tCooldown) && obs[j].tWatch <= obs[j].tClassify
    requires !IsFlapping(c, CooldownChecked(s.tracker, services[j], obs[j].tCooldown), services[j], obs[j].tWatch)
    ensures var before := Snapshot(s.(statusMap := map[]), services, readings).trace;
            var after := Pass(c, s, services, readings, obs).0.trace;
            exists k :: |before| <= k < |after| - 1
                     && after[k] == Restart(services[j], obs[j].tAct) && after[k + 1] == Start(services[j])
  {
    hide Visit;
    var d := services[j];
    var begun := Snapshot(s.(statusMap := map[]), services, readings);
    var first := VisitAll(c, begun, services[..j], obs[..j]).0;
    SnapshotReads(s.(statusMap := map[]), services, readings, j);
    SnapshotFrame(s.(statusMap := map[]), services, readings);
    assert d !in services[..j];
    VisitAllFrame(c, begun, services[..j], obs[..j], d);
    TickerplantStaysUp(c, begun, services, obs, i, j);
    DownVisitRestarts(c, first, d, obs[j]);
    VisitAllSplits(c, begun, services, obs, j);
    assert services[j..][1..] == services[j + 1..] && obs[j..][1..] == obs[j + 1..];
    var v := Visit(c, first.tracker, first.statusMap, d, obs[j]);
    if !v.aborted {
      VisitAllFrame(c, After(first, v), services[j + 1..], obs[j + 1..], d);
    }
    var after := Pass(c, s, services, readings, obs).0.trace;
    var k := |first.trace|;
    assert first.trace + v.events <= after;
    assert after[k] == v.events[0] && after[k + 1] == v.events[1];
  }

  /** Between the tickerplant's own visit and the dependent's, nobody changes the tickerplant's entry. */
  lemma {:induction false} TickerplantStaysUp(c: Config, s: State, services: seq<string>, obs: seq<Obs>, i: nat, j: nat)
    requires |obs| == |services| && Distinct(services) && i < j < |services|
    requires !VisitAll(c, s, services[..i + 1], obs[..i + 1]).1
    ensures StatusOf(VisitAll(c, s, services[..j], obs[..j]).0.statusMap, services[i])
         == StatusOf(VisitAll(c, s, services[..i + 1], obs[..i + 1]).0.statusMap, services[i])
  {
    hide Visit;
    VisitAllSplits(c, s, services[..j], obs[..j], i + 1);
    assert services[..j][..i + 1] == services[..i + 1] && obs[..j][..i + 1] == obs[..i + 1];
    var healed := VisitAll(c, s, services[..i + 1], obs[..i + 1]).0;
    assert services[i] !in services[..j][i + 1..];
    VisitAllFrame(c, healed, services[..j][i + 1..], obs[..j][i + 1..], services[i]);
  }

  /** In the watchdog's own service list every wdb, rdb and idb comes after its tickerplant, so the
      recovery above applies to each of them. */
  lemma {:induction false} HealedListServesDependents(n: nat, shard: nat, t: Tier)
    requires shard < n && (t.Wdb? || t.Rdb? || t.Idb?)
    ensures var services := Healed(n);
            Distinct(services)
            && exists i, j :: 0 <= i < j < |services| && services[j] == Service(t, shard)
                           && TickerplantDependency(services[j]) == Some(services[i])
  {
    HealedOrder(n, shard, t);
    DependencyIsOwnTickerplant(t, shard);
    var i, j :| 0 <= i < j < 5 * n && Healed(n)[i] == Service(Tickerplant, shard)
                && Healed(n)[j] == Service(t, shard);
    assert Healed(n)[i] == Service(Tickerplant, shard) && Healed(n)[j] == Service(t, shard);
  }
}
