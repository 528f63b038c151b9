/** One healing pass (watchdog/watchdog.py, check_and_heal) and the runbooks it dispatches
    (watchdog/runbooks.py).

    Everything the program reads from outside (clock, container states, health probe, out-of-memory
    record) is an observation; `Visit` and `Pass` say what the program does with given observations,
    and module WatchdogLoop is the program's loop, drawing its observations from an environment that
    answers as it likes. */
module Watchdog {
  import opened Common
  import opened Flap
  import opened Topology

  datatype Status = Running | NotFound | Down

  datatype Signature =
    Healthy | ContainerDown | ContainerUnhealthy | DependencyDown | Flapping | OomCrashLoop

  const MaxRestartAttempts := 3
  const OomCooldownMultiplier := 6.0

  /** What happened, in order. `Restart` is the runbook recording a restart with the tracker. */
  datatype Event =
    | Read(service: string, status: Status)
    | Restart(service: string, at: real)
    | Start(service: string)
    | Escalate(service: string, at: real, until: real)

  datatype State = State(tracker: Tracker, statusMap: map<string, Status>, trace: seq<Event>)

  /** The answer of a call that may raise instead of answering. */
  datatype Answer<T> = Got(value: T) | Raised

  /** What one visit reads: the clock, in the order of the reads, and the answers of the orchestrator. */
  datatype Obs = Obs(
    tCooldown: real,                // in_cooldown
    probe: Option<Answer<bool>>,    // the health probe, when one is configured
    tWatch: real,                   // is_flapping, before asking for the out-of-memory record
    oom: Answer<bool>,
    tClassify: real,                // is_flapping, in classify
    tAct: real,                     // record_restart or start_cooldown
    tCount: real,                   // restart_count, in the escalation runbooks
    tries: seq<Answer<Status>>,     // the status after each start
    refresh: Answer<Status>)        // the status read back after the runbook

  function StatusOf(statusMap: map<string, Status>, service: string): Option<Status> {
    if service in statusMap then Some(statusMap[service]) else None
  }

  predicate DependencyUp(statusMap: map<string, Status>, service: string) {
    var dep := TickerplantDependency(service);
    dep.Some? ==> StatusOf(statusMap, dep.value) == Some(Running)
  }

  /** The program's decision table, in the program's order. */
  function Classify(c: Config, t: Tracker, statusMap: map<string, Status>, service: string,
                    healthy: Option<bool>, oom: bool, now: real): Signature
  {
    var running := StatusOf(statusMap, service) == Some(Running);
    var unhealthy := running && healthy == Some(false);
    if running && !unhealthy then Healthy
    else if !DependencyUp(statusMap, service) then DependencyDown
    else if IsFlapping(c, t, service, now) then if oom then OomCrashLoop else Flapping
    else if unhealthy then ContainerUnhealthy else ContainerDown
  }

  // ------------------------------------------------------------------ the restart loop

  /** What the restart loop did: its events, and whether a call raised out of it. */
  datatype Attempts = Attempts(events: seq<Event>, raised: bool)

  function Try(service: string, tries: seq<Answer<Status>>, attempt: nat): Attempts
    requires attempt <= MaxRestartAttempts
    decreases MaxRestartAttempts - attempt
  {
    if attempt == MaxRestartAttempts then
      // out of attempts: the status is read once more for the report
      if attempt < |tries| && tries[attempt].Got?
      then Attempts([Read(service, tries[attempt].value)], false)
      else Attempts([], true)
    else if attempt >= |tries| || tries[attempt].Raised? then
      Attempts([Start(service)], true)
    else if tries[attempt].value == Running then
      Attempts([Start(service), Read(service, Running)], false)
    else
      var rest := Try(service, tries, attempt + 1);
      Attempts([Start(service), Read(service, tries[attempt].value)] + rest.events, rest.raised)
  }

  // ------------------------------------------------------------------ one visit

  /** What a visit leaves behind: the tracker, the status map, the events it adds to the trace, and
      whether an exception ended the pass. */
  datatype Visited = Visited(tracker: Tracker, statusMap: map<string, Status>, events: seq<Event>, aborted: bool)

  /** Read the service's status back, so that dependents later in the pass see it. */
  function Refresh(t: Tracker, statusMap: map<string, Status>, service: string, events: seq<Event>,
                   refresh: Answer<Status>): Visited
  {
    match refresh
    case Raised => Visited(t, statusMap, events, true)
    case Got(st) => Visited(t, statusMap[service := st], events + [Read(service, st)], false)
  }

  function RestartAndVerify(c: Config, t: Tracker, statusMap: map<string, Status>, service: string, o: Obs): Visited {
    var done := Try(service, o.tries, 0);
    var t1 := Recorded(c, t, service, o.tAct);
    var events := [Restart(service, o.tAct)] + done.events;
    if done.raised then Visited(t1, statusMap, events, true)
    else Refresh(t1, statusMap, service, events, o.refresh)
  }

  function EscalateFor(c: Config, t: Tracker, statusMap: map<string, Status>, service: string, o: Obs,
                       duration: real): Visited
  {
    var until := o.tAct + duration;
    var t1 := Pruned(c, CoolingDown(t, service, until), service, o.tCount);
    Refresh(t1, statusMap, service, [Escalate(service, o.tAct, until)], o.refresh)
  }

  function Dispatch(c: Config, t: Tracker, statusMap: map<string, Status>, service: string, o: Obs,
                    sig: Signature): Visited
  {
    match sig
    case Healthy => Visited(t, statusMap, [], false)
    case DependencyDown => Refresh(t, statusMap, service, [], o.refresh)
    case Flapping => EscalateFor(c, t, statusMap, service, o, c.cooldown)
    case OomCrashLoop => EscalateFor(c, t, statusMap, service, o, c.cooldown * OomCooldownMultiplier)
    case ContainerDown => RestartAndVerify(c, t, statusMap, service, o)
    case ContainerUnhealthy => RestartAndVerify(c, t, statusMap, service, o)
  }

  /** From the flapping test to the refreshed status, for a service that looks broken. */
  function Heal(c: Config, t: Tracker, statusMap: map<string, Status>, service: string, o: Obs,
                healthy: Option<bool>): Visited
  {
    var flapping := IsFlapping(c, t, service, o.tWatch);
    var t1 := Pruned(c, t, service, o.tWatch);
    if flapping && o.oom.Raised? then Visited(t1, statusMap, [], true)
    else
      var oom := flapping && o.oom.value;
      var sig := Classify(c, t1, statusMap, service, healthy, oom, o.tClassify);
      var asked := !sig.Healthy? && !sig.DependencyDown?;
      var t2 := if asked then Pruned(c, t1, service, o.tClassify) else t1;
      Dispatch(c, t2, statusMap, service, o, sig)
  }

  function Visit(c: Config, t: Tracker, statusMap: map<string, Status>, service: string, o: Obs): Visited {
    var t1 := CooldownChecked(t, service, o.tCooldown);
    var status := StatusOf(statusMap, service);
    if InCooldown(t, service, o.tCooldown) then Visited(t1, statusMap, [], false)
    else if status == Some(NotFound) then Visited(t1, statusMap, [], false)
    else if status != Some(Running) then Heal(c, t1, statusMap, service, o, None)
    else match o.probe
      case None => Visited(t1, statusMap, [], false)
      case Some(Raised) => Visited(t1, statusMap, [], true)
      case Some(Got(true)) => Visited(t1, statusMap, [], false)
      case Some(Got(false)) => Heal(c, t1, statusMap, service, o, Some(false))
  }

  function After(s: State, v: Visited): State {
    State(v.tracker, v.statusMap, s.trace + v.events)
  }

  // ------------------------------------------------------------------ one pass

  /** Visit the services in order, until one visit raises. */
  function VisitAll(c: Config, s: State, services: seq<string>, obs: seq<Obs>): (State, bool)
    requires |obs| == |services|
    decreases |services|
  {
    if services == [] then (s, false)
    else
      var v := Visit(c, s.tracker, s.statusMap, services[0], obs[0]);
      if v.aborted then (After(s, v), true) else VisitAll(c, After(s, v), services[1..], obs[1..])
  }

  /** The snapshot that opens a pass: every service read once, in order. */
  function Snapshot(s: State, services: seq<string>, readings: seq<Status>): State
    requires |readings| == |services|
    decreases |services|
  {
    if services == [] then s
    else
      var s1 := s.(statusMap := s.statusMap[services[0] := readings[0]],
                   trace := s.trace + [Read(services[0], readings[0])]);
      Snapshot(s1, services[1..], readings[1..])
  }

  function Pass(c: Config, s: State, services: seq<string>, readings: seq<Status>, obs: seq<Obs>): (State, bool)
    requires |readings| == |obs| == |services|
  {
    VisitAll(c, Snapshot(s.(statusMap := map[]), services, readings), services, obs)
  }

  /** The clock reads of a visit come in order, between `from` and `to`. */
  ghost predicate Timed(o: Obs, from: real, to: real) {
    from <= o.tCooldown <= o.tWatch <= o.tClassify <= o.tAct <= o.tCount <= to
  }
}
