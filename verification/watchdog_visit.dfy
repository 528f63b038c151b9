/** What one visit does, said without the program's own steps: from the status, the tracker's entries and
    the answers straight to the events. */
module WatchdogVisit {
  import opened Common
  import opened Flap
  import opened Topology
  import opened Watchdog
  import opened WatchdogRuns

  // ------------------------------------------------------------------ the restart loop

  /** Attempts that failed: each a start, and a reading that is not running. */
  function Rounds(service: string, failed: seq<Status>): seq<Event> {
    if failed == [] then [] else [Start(service), Read(service, failed[0])] + Rounds(service, failed[1..])
  }

  /** Starts until one is read running, a call raises, or `left` have failed; the last failure is read
      once more. */
  ghost predicate Attempted(service: string, events: seq<Event>, raised: bool, left: nat) {
    exists failed: seq<Status> ::
      && |failed| <= left && Running !in failed
      && EndsAfter(service, events, raised, Rounds(service, failed), |failed| < left)
  }

  ghost predicate EndsAfter(service: string, events: seq<Event>, raised: bool, rounds: seq<Event>, more: bool) {
    if more then events == rounds + if raised then [Start(service)] else [Start(service), Read(service, Running)]
    else if raised then events == rounds
    else exists st :: events == rounds + [Read(service, st)]
  }

  lemma {:induction false} OneMoreAttempt(service: string, st: Status, rest: seq<Event>, raised: bool, left: nat)
    requires st != Running && Attempted(service, rest, raised, left)
    ensures Attempted(service, [Start(service), Read(service, st)] + rest, raised, left + 1)
  {
    hide Rounds, EndsAfter;
    var failed: seq<Status> :| |failed| <= left && Running !in failed
                               && EndsAfter(service, rest, raised, Rounds(service, failed), |failed| < left);
    var all := [st] + failed;
    RoundsFront(service, st, failed);
    OneMoreRound(service, [Start(service), Read(service, st)], rest, raised, Rounds(service, failed), |failed| < left);
    assert Running !in all && (|all| < left + 1 <==> |failed| < left);
  }

  lemma {:induction false} RoundsFront(service: string, st: Status, failed: seq<Status>)
    ensures Rounds(service, [st] + failed) == [Start(service), Read(service, st)] + Rounds(service, failed)
  {
    assert ([st] + failed)[1..] == failed;
  }

  lemma {:induction false} OneMoreRound(service: string, round: seq<Event>, rest: seq<Event>, raised: bool,
                                        rounds: seq<Event>, more: bool)
    requires EndsAfter(service, rest, raised, rounds, more)
    ensures EndsAfter(service, round + rest, raised, round + rounds, more)
  {
    if more {
      var tail := if raised then [Start(service)] else [Start(service), Read(service, Running)];
      assert round + (rounds + tail) == (round + rounds) + tail;
    } else if !raised {
      var st :| rest == rounds + [Read(service, st)];
      assert round + (rounds + [Read(service, st)]) == (round + rounds) + [Read(service, st)];
    }
  }

  lemma {:induction false} NoRounds(service: string, events: seq<Event>, raised: bool, left: nat)
    requires EndsAfter(service, events, raised, [], 0 < left)
    ensures Attempted(service, events, raised, left)
  {
    var failed: seq<Status> := [];
    assert Rounds(service, failed) == [];
  }

  /** The retry loop of a runbook: three starts at most, and no fewer while the service stays down. */
  lemma {:induction false} TryAttempts(service: string, tries: seq<Answer<Status>>, attempt: nat)
    requires attempt <= 3
    ensures var done := Try(service, tries, attempt);
            Attempted(service, done.events, done.raised, 3 - attempt)
    decreases 3 - attempt
  {
    hide Attempted;
    var done := Try(service, tries, attempt);
    if attempt < 3 && attempt < |tries| && tries[attempt].Got? && tries[attempt].value != Running {
      TryAttempts(service, tries, attempt + 1);
      OneMoreAttempt(service, tries[attempt].value, Try(service, tries, attempt + 1).events, done.raised, 2 - attempt);
    } else {
      assert [] + done.events == done.events;
      NoRounds(service, done.events, done.raised, 3 - attempt);
    }
  }

  // ------------------------------------------------------------------ one visit

  ghost predicate Cooling(t: Tracker, service: string, now: real) {
    service in t.cooldownUntil && now < t.cooldownUntil[service]
  }

  /** The restarts that still count: a cooldown that has ended takes the history with it. */
  ghost function Remembered(t: Tracker, service: string, now: real): seq<real> {
    if service in t.cooldownUntil && t.cooldownUntil[service] <= now then []
    else if service in t.restarts then t.restarts[service]
    else []
  }

  ghost predicate InOrder(times: seq<real>, now: real) {
    && (forall i, j :: 0 <= i < j < |times| ==> times[i] <= times[j])
    && forall i :: 0 <= i < |times| ==> times[i] <= now
  }

  /** Down, never read, or running while the health probe says no. */
  ghost predicate Broken(statusMap: map<string, Status>, service: string, probe: Option<Answer<bool>>) {
    service in statusMap ==>
      statusMap[service] == Down || (statusMap[service] == Running && probe == Some(Got(false)))
  }

  /** The service needs a tickerplant that was not read as running. */
  ghost predicate Blocked(statusMap: map<string, Status>, service: string) {
    var dep := TickerplantDependency(service);
    dep.Some? && !(dep.value in statusMap && statusMap[dep.value] == Running)
  }

  ghost predicate FlapsAt(c: Config, times: seq<real>, now: real) {
    CountIn(times, now - c.window, now) >= c.threshold
  }

  /** These events, and then the service's status read back into the map, unless that read raises. */
  ghost predicate Ends(statusMap: map<string, Status>, service: string, refresh: Answer<Status>, events: seq<Event>, v: Visited) {
    if refresh.Raised? then v.aborted && v.events == events && v.statusMap == statusMap
    else
      && !v.aborted && v.events == events + [Read(service, refresh.value)]
      && v.statusMap == statusMap[service := refresh.value]
  }

  ghost predicate NothingDone(statusMap: map<string, Status>, v: Visited, aborted: bool) {
    v.events == [] && v.statusMap == statusMap && v.aborted == aborted
  }

  ghost predicate RestartsNow(statusMap: map<string, Status>, service: string, o: Obs, v: Visited) {
    exists attempts, raised ::
      && Attempted(service, attempts, raised, 3)
      && if raised then v.aborted && v.events == [Restart(service, o.tAct)] + attempts && v.statusMap == statusMap
         else Ends(statusMap, service, o.refresh, [Restart(service, o.tAct)] + attempts, v)
  }

  ghost predicate Outcome(c: Config, t: Tracker, statusMap: map<string, Status>, service: string, o: Obs, v: Visited) {
    var times := Remembered(t, service, o.tCooldown);
    var until := o.tAct + if o.oom == Got(true) then c.cooldown * 6.0 else c.cooldown;
    if Cooling(t, service, o.tCooldown) then NothingDone(statusMap, v, false)
    else if !Broken(statusMap, service, o.probe) then
      NothingDone(statusMap, v, statusMap[service] == Running && o.probe == Some(Raised))
    else if FlapsAt(c, times, o.tWatch) && o.oom.Raised? then NothingDone(statusMap, v, true)
    else if Blocked(statusMap, service) then Ends(statusMap, service, o.refresh, [], v)
    else if FlapsAt(c, times, o.tClassify) then
      Ends(statusMap, service, o.refresh, [Escalate(service, o.tAct, until)], v)
    else RestartsNow(statusMap, service, o, v)
  }

  lemma {:induction false} PruneCounts(times: seq<real>, now: real, window: real)
    requires InOrder(times, now)
    ensures |Prune(times, now, window)| == CountIn(times, now - window, now)
  {
    hide CountIn, Prune;
    PruneIsSuffix(times, now, window);
    var cut := |times| - |Prune(times, now, window)|;
    assert cut < |times| ==> Prune(times, now, window)[0] == times[cut];
    CountSuffix(times, cut, now - window, now);
  }

  /** Pruning earlier does not change what is counted later. */
  lemma {:induction false} PruneTwice(times: seq<real>, now: real, later: real, window: real)
    requires now <= later
    ensures Prune(Prune(times, now, window), later, window) == Prune(times, later, window)
    decreases |times|
  {
    if times != [] && now - times[0] > window {
      PruneTwice(times[1..], now, later, window);
    }
  }

  lemma {:induction false} Flaps(c: Config, t: Tracker, service: string, o: Obs)
    requires o.tCooldown <= o.tWatch <= o.tClassify && InOrder(Remembered(t, service, o.tCooldown), o.tCooldown)
    requires !Cooling(t, service, o.tCooldown)
    ensures var t1 := CooldownChecked(t, service, o.tCooldown);
            var times := Remembered(t, service, o.tCooldown);
            && (IsFlapping(c, t1, service, o.tWatch) <==> FlapsAt(c, times, o.tWatch))
            && (IsFlapping(c, Pruned(c, t1, service, o.tWatch), service, o.tClassify) <==> FlapsAt(c, times, o.tClassify))
  {
    hide Prune, CountIn, FlapsAt;
    var t1 := CooldownChecked(t, service, o.tCooldown);
    var times := Remembered(t, service, o.tCooldown);
    assert Kept(t1, service) == times;
    PruneCounts(times, o.tWatch, c.window);
    PruneCounts(times, o.tClassify, c.window);
    PruneTwice(times, o.tWatch, o.tClassify, c.window);
    Threshold(c, times, o.tWatch);
    Threshold(c, times, o.tClassify);
  }

  lemma {:induction false} Threshold(c: Config, times: seq<real>, now: real)
    ensures FlapsAt(c, times, now) <==> CountIn(times, now - c.window, now) >= c.threshold
  {
  }

  lemma {:induction false} RestartOutcome(c: Config, t: Tracker, statusMap: map<string, Status>, service: string, o: Obs)
    ensures RestartsNow(statusMap, service, o, RestartAndVerify(c, t, statusMap, service, o))
  {
    hide Recorded, Try, Attempted;
    TryAttempts(service, o.tries, 0);
    var done := Try(service, o.tries, 0);
    assert Attempted(service, done.events, done.raised, 3);
  }

  lemma {:induction false} EscalateOutcome(c: Config, t: Tracker, statusMap: map<string, Status>, service: string, o: Obs, d: real)
    ensures Ends(statusMap, service, o.refresh, [Escalate(service, o.tAct, o.tAct + d)], EscalateFor(c, t, statusMap, service, o, d))
  {
    hide Pruned, CoolingDown;
  }

  /** From the flapping test on, for a service that is not running or that its probe found wedged. */
  lemma {:induction false} HealOutcome(c: Config, t: Tracker, statusMap: map<string, Status>, service: string, o: Obs,
                                       healthy: Option<bool>)
    requires StatusOf(statusMap, service) == Some(Running) ==> healthy == Some(false)
    ensures var v := Heal(c, t, statusMap, service, o, healthy);
            var (watched, flapping) := (IsFlapping(c, t, service, o.tWatch),
                                        IsFlapping(c, Pruned(c, t, service, o.tWatch), service, o.tClassify));
            if watched && o.oom.Raised? then NothingDone(statusMap, v, true)
            else if Blocked(statusMap, service) then Ends(statusMap, service, o.refresh, [], v)
            else if flapping then
              var d := if watched && o.oom == Got(true) then c.cooldown * 6.0 else c.cooldown;
              Ends(statusMap, service, o.refresh, [Escalate(service, o.tAct, o.tAct + d)], v)
            else RestartsNow(statusMap, service, o, v)
  {
    hide IsFlapping, Pruned, RestartAndVerify, EscalateFor, RestartsNow;
    var t1 := Pruned(c, t, service, o.tWatch);
    var t2 := Pruned(c, t1, service, o.tClassify);
    RestartOutcome(c, t2, statusMap, service, o);
    EscalateOutcome(c, t2, statusMap, service, o, c.cooldown);
    EscalateOutcome(c, t2, statusMap, service, o, c.cooldown * 6.0);
  }

  /** Which visits do nothing, wait for the tickerplant, escalate or restart, and with which events. */
  lemma {:induction false} VisitOutcome(c: Config, t: Tracker, statusMap: map<string, Status>, service: string, o: Obs)
    requires Timed(o, o.tCooldown, o.tCount)
    requires InOrder(Remembered(t, service, o.tCooldown), o.tCooldown)
    ensures Outcome(c, t, statusMap, service, o, Visit(c, t, statusMap, service, o))
  {
    hide IsFlapping, FlapsAt, Pruned, Heal, Remembered, Ends, RestartsNow, CooldownChecked, Blocked;
    if !Cooling(t, service, o.tCooldown) {
      var t1 := CooldownChecked(t, service, o.tCooldown);
      Flaps(c, t, service, o);
      FlappingEarlier(c, t, service, o);
      var running := StatusOf(statusMap, service) == Some(Running);
      HealOutcome(c, t1, statusMap, service, o, if running then Some(false) else None);
    }
  }

  /** What flaps at the classification flapped at the watch. */
  lemma {:induction false} FlappingEarlier(c: Config, t: Tracker, service: string, o: Obs)
    requires o.tCooldown <= o.tWatch <= o.tClassify
    ensures var t1 := CooldownChecked(t, service, o.tCooldown);
            IsFlapping(c, Pruned(c, t1, service, o.tWatch), service, o.tClassify) ==> IsFlapping(c, t1, service, o.tWatch)
  {
    hide Prune, CooldownChecked;
    var times := Kept(CooldownChecked(t, service, o.tCooldown), service);
    PruneIsSuffix(Prune(times, o.tWatch, c.window), o.tClassify, c.window);
  }

  // ------------------------------------------------------------------ one pass

  ghost predicate VisitedNext(c: Config, states: seq<State>, services: seq<string>, obs: seq<Obs>, k: nat)
    requires k + 1 < |states| && k < |services| == |obs|
  {
    states[k + 1] == After(states[k], Visit(c, states[k].tracker, states[k].statusMap, services[k], obs[k]))
  }

  ghost predicate AbortsAt(c: Config, states: seq<State>, services: seq<string>, obs: seq<Obs>, k: nat)
    requires k < |states| && k < |services| == |obs|
  {
    Visit(c, states[k].tracker, states[k].statusMap, services[k], obs[k]).aborted
  }

  /** A pass visits its services in turn, each in the state the one before left, up to the first visit that
      raises, or all of them. */
  lemma {:induction false} VisitsInTurn(c: Config, s: State, services: seq<string>, obs: seq<Obs>)
    returns (states: seq<State>)
    requires |obs| == |services|
    ensures 0 < |states| <= |services| + 1 && states[0] == s
    ensures forall k :: 0 <= k < |states| - 1 ==> VisitedNext(c, states, services, obs, k)
    ensures forall k :: 0 <= k < |states| - 2 ==> !AbortsAt(c, states, services, obs, k)
    ensures var aborted := |states| >= 2 && AbortsAt(c, states, services, obs, |states| - 2);
            VisitAll(c, s, services, obs) == (states[|states| - 1], aborted) && (aborted || |states| == |services| + 1)
    decreases |services|
  {
    hide Visit;
    if services == [] {
      return [s];
    }
    var v := Visit(c, s.tracker, s.statusMap, services[0], obs[0]);
    if v.aborted {
      return [s, After(s, v)];
    }
    var rest := VisitsInTurn(c, After(s, v), services[1..], obs[1..]);
    states := [s] + rest;
    forall k | 0 <= k < |states| - 1
      ensures VisitedNext(c, states, services, obs, k)
      ensures k < |states| - 2 ==> !AbortsAt(c, states, services, obs, k)
    {
      if k > 0 {
        assert VisitedNext(c, rest, services[1..], obs[1..], k - 1);
        assert k < |states| - 2 ==> !AbortsAt(c, rest, services[1..], obs[1..], k - 1);
      }
    }
  }
}
