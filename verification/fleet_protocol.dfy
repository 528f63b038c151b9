/** The fleet protocol as a whole: the server's tables, the messages in flight and the agent processes,
    stepping in any order, with lost responses, lost or late reports and crashes at any moment. */
module FleetProtocol {
  import opened Common
  import opened Fleet

  type Pid = nat
  type Msg = nat

  /** An agent process: its credentials, the response it waits for, and the commands it still has to run. */
  datatype Process = Process(agent: Id, secret: Secret, awaiting: Option<Msg>, queue: seq<Id>)

  datatype Response = Response(pid: Pid, commands: seq<Id>)

  datatype Report = Report(agent: Id, secret: Secret, id: Id, outcome: Outcome)

  /** One execution of a command by a process of an agent. */
  datatype Execution = Execution(agent: Id, id: Id, outcome: Outcome)

  datatype Handed = Handed(agent: Id, id: Id)

  /** Where a dispatched command currently is. A history variable: no step consults it. */
  datatype Place = InResponse(m: Msg) | InQueue(p: Pid) | InReport(m: Msg) | Gone

  datatype Sys = Sys(
    server: Server,
    responses: map<Msg, Response>,
    reports: map<Msg, Report>,
    processes: map<Pid, Process>,
    nextMsg: Msg,
    handed: seq<Handed>,          // every command ever put into a heartbeat response
    executed: seq<Execution>,     // every command ever run
    place: map<Id, Place>)

  const Empty := Sys(Server(map[], map[], 0, 0), map[], map[], map[], 0, [], [], map[])

  datatype Move =
    | CreateAgent(tenant: Tenant, token: Token)
    | Revoke(agent: Id)
    | Enroll(pid: Pid, agent: Id, secret: Secret, delivered: bool)
    | Spawn(pid: Pid, like: Pid)                    // another process with stored credentials
    | Crash(pid: Pid)
    | Enqueue(tenant: Tenant, agent: Id, action: string, service: string)
    | Provision(tenant: Tenant, agent: Id, shards: int, replicas: Option<int>)
    | Deprovision(tenant: Tenant, agent: Id)
    | ServeHeartbeat(pid: Pid, picked: seq<Id>, waiting: bool)   // a late heartbeat has nobody waiting
    | LoseResponse(msg: Msg)
    | DeliverResponse(msg: Msg)
    | RunCommand(pid: Pid, result: LocalResult)
    | DeliverReport(msg: Msg)
    | LoseReport(msg: Msg)
    | Forge(request: Request)                       // anyone, with a secret that is not the agent's

  datatype Request =
    | HeartbeatRequest(agent: Id, secret: Secret, picked: seq<Id>)
    | ReportRequest(agent: Id, secret: Secret, id: Id, outcome: Outcome)

  ghost predicate HoldsSecret(s: Server, agent: Id, secret: Secret) {
    agent in s.agents && s.agents[agent].secret == Some(secret)
  }

  /** What the handlers make of a request, whoever sent it. */
  ghost function Handle(s: Server, r: Request): Server {
    match r
    case HeartbeatRequest(agent, secret, picked) =>
      if AuthRefusal(s, agent, secret) == None && ValidPick(s, agent, picked)
      then Marked(SetOnline(s, agent), picked) else s
    case ReportRequest(agent, secret, id, outcome) =>
      if ReportRefusal(s, agent, secret, id) == None then SetStatus(s, id, StatusFor(outcome)) else s
  }

  ghost predicate Enabled(s: Sys, m: Move) {
    match m
    case CreateAgent(_, _) => true
    case Revoke(agent) => agent in s.server.agents
    case Enroll(pid, agent, _, _) =>
      pid !in s.processes && agent in s.server.agents && s.server.agents[agent].secret == None
    case Spawn(pid, like) => pid !in s.processes && like in s.processes
    case Crash(pid) => pid in s.processes
    case Enqueue(tenant, agent, action, _) => EnqueueRefusal(s.server, tenant, agent, action) == None
    case Provision(tenant, agent, shards, replicas) =>
      ProvisionRefusal(s.server, tenant, agent, shards, replicas) == None
    case Deprovision(tenant, agent) => OwnsAgent(s.server, tenant, agent)
    case ServeHeartbeat(pid, picked, waiting) =>
      && pid in s.processes
      && var p := s.processes[pid];
         && AuthRefusal(s.server, p.agent, p.secret) == None
         && ValidPick(s.server, p.agent, picked)
         && (waiting ==> p.awaiting == None && p.queue == [])
    case LoseResponse(msg) => msg in s.responses
    case DeliverResponse(msg) =>
      && msg in s.responses && s.responses[msg].pid in s.processes
      && s.processes[s.responses[msg].pid].awaiting == Some(msg)
    case RunCommand(pid, _) =>
      && pid in s.processes && s.processes[pid].queue != []
      && s.processes[pid].queue[0] in s.server.commands
    case DeliverReport(msg) => msg in s.reports
    case LoseReport(msg) => msg in s.reports
    case Forge(request) => !HoldsSecret(s.server, request.agent, request.secret)
  }

  function Placed(place: map<Id, Place>, ids: seq<Id>, at: Place): map<Id, Place> {
    map id | id in place.Keys + (set i | i in ids) :: if id in ids then at else place[id]
  }

  function HandedTo(agent: Id, ids: seq<Id>): seq<Handed> {
    seq(|ids|, i requires 0 <= i < |ids| => Handed(agent, ids[i]))
  }

  ghost function Do(s: Sys, m: Move): Sys
    requires Enabled(s, m)
  {
    match m
    case CreateAgent(tenant, token) =>
      s.(server := s.server.(agents := s.server.agents[s.server.nextAgent := Agent(tenant, token, None, Pending)],
                             nextAgent := s.server.nextAgent + 1))
    case Revoke(agent) =>
      s.(server := s.server.(agents := s.server.agents[agent := s.server.agents[agent].(status := Revoked)]))
    case Enroll(pid, agent, secret, delivered) =>
      var s1 := s.(server := s.server.(agents := s.server.agents[agent :=
                     s.server.agents[agent].(secret := Some(secret), status := Online)]));
      if delivered then s1.(processes := s1.processes[pid := Process(agent, secret, None, [])]) else s1
    case Spawn(pid, like) =>
      s.(processes := s.processes[pid := s.processes[like].(awaiting := None, queue := [])])
    case Crash(pid) =>
      var p := s.processes[pid];
      s.(processes := s.processes[pid := p.(awaiting := None, queue := [])],
         place := Placed(s.place, p.queue, Gone))
    case Enqueue(tenant, agent, action, service) =>
      s.(server := AddCommand(s.server, tenant, agent, action, service))
    case Provision(tenant, agent, _, _) =>
      s.(server := AddCommand(s.server, tenant, agent, "provision", "data-plane"))
    case Deprovision(tenant, agent) =>
      s.(server := AddCommand(s.server, tenant, agent, "deprovision", "data-plane"))
    case ServeHeartbeat(pid, picked, waiting) =>
      var p := s.processes[pid];
      s.(server := Marked(SetOnline(s.server, p.agent), picked),
         responses := s.responses[s.nextMsg := Response(pid, picked)],
         processes := if waiting then s.processes[pid := p.(awaiting := Some(s.nextMsg))] else s.processes,
         nextMsg := s.nextMsg + 1,
         handed := s.handed + HandedTo(p.agent, picked),
         place := Placed(s.place, picked, InResponse(s.nextMsg)))
    case LoseResponse(msg) =>
      var r := s.responses[msg];
      var waits := r.pid in s.processes && s.processes[r.pid].awaiting == Some(msg);
      s.(responses := s.responses - {msg},
         processes := if waits then s.processes[r.pid := s.processes[r.pid].(awaiting := None)] else s.processes,
         place := Placed(s.place, r.commands, Gone))
    case DeliverResponse(msg) =>
      var r := s.responses[msg];
      s.(responses := s.responses - {msg},
         processes := s.processes[r.pid := s.processes[r.pid].(awaiting := None, queue := r.commands)],
         place := Placed(s.place, r.commands, InQueue(r.pid)))
    case RunCommand(pid, result) =>
      var p := s.processes[pid];
      var id := p.queue[0];
      var outcome := HandleCommand(s.server.commands[id].action, result);
      s.(processes := s.processes[pid := p.(queue := p.queue[1..])],
         reports := s.reports[s.nextMsg := Report(p.agent, p.secret, id, outcome)],
         nextMsg := s.nextMsg + 1,
         executed := s.executed + [Execution(p.agent, id, outcome)],
         place := s.place[id := InReport(s.nextMsg)])
    case DeliverReport(msg) =>
      var r := s.reports[msg];
      s.(reports := s.reports - {msg},
         server := if ReportRefusal(s.server, r.agent, r.secret, r.id) == None
                   then SetStatus(s.server, r.id, StatusFor(r.outcome)) else s.server,
         place := s.place[r.id := Gone])
    case LoseReport(msg) =>
      s.(reports := s.reports - {msg}, place := s.place[s.reports[msg].id := Gone])
    case Forge(request) => s.(server := Handle(s.server, request))
  }

  /** A request whose secret is not the agent's hands out nothing and changes no status. */
  lemma {:induction false} ForgeryIsRefused(s: Sys, m: Move)
    requires m.Forge? && Enabled(s, m)
    ensures Do(s, m) == s
  {
    hide ValidPick, Marked, SetOnline, SetStatus;
  }

  // ------------------------------------------------------------------ the invariant

  /** The server's tables are consistent, and every process holds its agent's credentials. */
  ghost predicate Tables(s: Sys) {
    && (forall a :: a in s.server.agents ==> a < s.server.nextAgent)
    && (forall c :: c in s.server.commands ==>
          && c < s.server.nextCommand
          && s.server.commands[c].agent in s.server.agents
          && s.server.agents[s.server.commands[c].agent].tenant == s.server.commands[c].tenant)
    && (forall p :: p in s.processes ==>
          && s.processes[p].agent in s.server.agents
          && s.server.agents[s.processes[p].agent].secret == Some(s.processes[p].secret))
  }

  /** The commands at one place are on their way to `agent`: dispatched, not yet run, and nowhere else. */
  ghost predicate OnTheWay(s: Sys, ids: seq<Id>, agent: Id, at: Place) {
    && Distinct(ids)
    && forall i :: 0 <= i < |ids| ==>
         && ids[i] in s.place && s.place[ids[i]] == at
         && ids[i] in s.server.commands
         && s.server.commands[ids[i]].agent == agent && s.server.commands[ids[i]].status == Dispatched
  }

  ghost predicate ResponseOk(s: Sys, m: Msg)
    requires m in s.responses
  {
    && m < s.nextMsg && s.responses[m].pid in s.processes
    && OnTheWay(s, s.responses[m].commands, s.processes[s.responses[m].pid].agent, InResponse(m))
  }

  ghost predicate ProcessOk(s: Sys, p: Pid)
    requires p in s.processes
  {
    && OnTheWay(s, s.processes[p].queue, s.processes[p].agent, InQueue(p))
    && (s.processes[p].awaiting.Some? ==> s.processes[p].queue == [])
  }

  ghost predicate ReportOk(s: Sys, m: Msg)
    requires m in s.reports
  {
    var r := s.reports[m];
    && m < s.nextMsg
    && OnTheWay(s, [r.id], r.agent, InReport(m))
    && Execution(r.agent, r.id, r.outcome) in s.executed
  }

  ghost predicate InFlight(s: Sys) {
    && (forall m :: m in s.responses ==> ResponseOk(s, m))
    && (forall p :: p in s.processes ==> ProcessOk(s, p))
    && (forall m :: m in s.reports ==> ReportOk(s, m))
  }

  /** The histories: each command is handed out and run at most once, for its own agent, and its status
      tells which of the two has happened. */
  ghost predicate Histories(s: Sys) {
    && (forall i, j :: 0 <= i < j < |s.handed| ==> s.handed[i].id != s.handed[j].id)
    && (forall i, j :: 0 <= i < j < |s.executed| ==> s.executed[i].id != s.executed[j].id)
    && (forall id :: id in s.place ==> id in s.server.commands && s.server.commands[id].status != Queued)
    && (forall i :: 0 <= i < |s.handed| ==> WasHanded(s, s.handed[i]))
    && (forall e :: e in s.executed ==> WasRun(s, e))
    && (forall id :: id in s.server.commands && s.server.commands[id].status in {Success, Failure} ==>
          Finished(s, id))
  }

  ghost predicate WasHanded(s: Sys, h: Handed) {
    && h.id in s.server.commands && s.server.commands[h.id].agent == h.agent
    && s.server.commands[h.id].status != Queued && h.id in s.place
  }

  ghost predicate WasRun(s: Sys, e: Execution) {
    && e.id in s.server.commands && s.server.commands[e.id].agent == e.agent
    && s.server.commands[e.id].status != Queued
    && e.id in s.place && (s.place[e.id].InReport? || s.place[e.id].Gone?)
  }

  ghost predicate Finished(s: Sys, id: Id)
    requires id in s.server.commands
  {
    && id in s.place && s.place[id] == Gone
    && exists e :: e in s.executed && e.id == id && StatusFor(e.outcome) == s.server.commands[id].status
  }

  ghost predicate Inv(s: Sys) {
    Tables(s) && InFlight(s) && Histories(s)
  }

  // ------------------------------------------------------------------ every step keeps it

  /** A step that leaves a place and the commands at it alone leaves them on their way. */
  ghost predicate Undisturbed(s: Sys, t: Sys, at: Place) {
    forall id :: id in s.place && s.place[id] == at ==>
      && id in t.place && t.place[id] == at
      && (id in s.server.commands ==> id in t.server.commands && t.server.commands[id] == s.server.commands[id])
  }

  lemma {:induction false} StillOnTheWay(s: Sys, t: Sys, ids: seq<Id>, agent: Id, at: Place)
    requires OnTheWay(s, ids, agent, at) && Undisturbed(s, t, at)
    ensures OnTheWay(t, ids, agent, at)
  {
  }

  /** Nothing in flight is disturbed except at one place, whose own users are checked separately. */
  lemma {:induction false} FlightFrame(s: Sys, t: Sys, except: Place)
    requires InFlight(s) && s.nextMsg <= t.nextMsg
    requires forall at: Place :: at != except && !at.Gone? ==> Undisturbed(s, t, at)
    requires forall p :: p in s.processes ==> p in t.processes && t.processes[p].agent == s.processes[p].agent
    requires forall e :: e in s.executed ==> e in t.executed
    ensures forall m | m in s.responses && m in t.responses && t.responses[m] == s.responses[m] ::
              InResponse(m) != except ==> ResponseOk(t, m)
    ensures forall p | p in s.processes && t.processes[p].queue == s.processes[p].queue ::
              (InQueue(p) != except && (t.processes[p].awaiting.Some? ==> t.processes[p].queue == []) ==> ProcessOk(t, p))
    ensures forall m | m in s.reports && m in t.reports && t.reports[m] == s.reports[m] ::
              InReport(m) != except ==> ReportOk(t, m)
  {
    forall m | m in s.responses && m in t.responses && InResponse(m) != except && t.responses[m] == s.responses[m]
      ensures ResponseOk(t, m)
    {
      StillOnTheWay(s, t, s.responses[m].commands, s.processes[s.responses[m].pid].agent, InResponse(m));
    }
    forall p | p in s.processes && InQueue(p) != except && t.processes[p].queue == s.processes[p].queue
               && (t.processes[p].awaiting.Some? ==> t.processes[p].queue == [])
      ensures ProcessOk(t, p)
    {
      StillOnTheWay(s, t, s.processes[p].queue, s.processes[p].agent, InQueue(p));
    }
    forall m | m in s.reports && m in t.reports && InReport(m) != except && t.reports[m] == s.reports[m]
      ensures ReportOk(t, m)
    {
      StillOnTheWay(s, t, [s.reports[m].id], s.reports[m].agent, InReport(m));
    }
  }

  /** Serving a heartbeat changes only commands that were queued, and those are nowhere yet. */
  lemma {:induction false} HeartbeatDisturbsNothing(s: Sys, m: Move, at: Place)
    requires Inv(s) && m.ServeHeartbeat? && Enabled(s, m) && !at.Gone?
    ensures Undisturbed(s, Do(s, m), at)
  {
    forall id | id in s.place && s.place[id] == at
      ensures id !in m.picked
    {
      assert s.server.commands[id].status != Queued;
    }
  }

  lemma {:induction false} HeartbeatResponse(s: Sys, m: Move)
    requires Inv(s) && m.ServeHeartbeat? && Enabled(s, m)
    ensures ResponseOk(Do(s, m), s.nextMsg)
  {
    forall i | 0 <= i < |m.picked|
      ensures m.picked[i] in QueuedFor(s.server, s.processes[m.pid].agent)
    {
    }
  }

  /** A new response in flight, and at most a process that now waits for it. */
  lemma {:induction false} NewResponseInFlight(s: Sys, t: Sys, msg: Msg)
    requires InFlight(s) && s.nextMsg <= t.nextMsg && t.executed == s.executed
    requires forall at: Place :: !at.Gone? ==> Undisturbed(s, t, at)
    requires forall m :: m in t.responses ==> m == msg || (m in s.responses && t.responses[m] == s.responses[m])
    requires msg in t.responses && ResponseOk(t, msg) && t.reports == s.reports && t.processes.Keys == s.processes.Keys
    requires forall p :: p in s.processes ==>
               && t.processes[p].agent == s.processes[p].agent && t.processes[p].queue == s.processes[p].queue
               && (t.processes[p].awaiting == s.processes[p].awaiting || s.processes[p].queue == [])
    ensures InFlight(t)
  {
    assert forall p :: p in s.processes ==> ProcessOk(s, p);
    hide Undisturbed, ResponseOk, ReportOk, OnTheWay;
    FlightFrame(s, t, Gone);
  }

  lemma {:induction false} ServeHeartbeatInFlight(s: Sys, m: Move)
    requires Inv(s) && m.ServeHeartbeat? && Enabled(s, m)
    ensures InFlight(Do(s, m))
  {
    hide InFlight, Tables, Histories, Undisturbed, ResponseOk, Placed, Marked, SetOnline, HandedTo, ValidPick, AuthRefusal;
    HeartbeatResponse(s, m);
    forall at: Place | !at.Gone?
      ensures Undisturbed(s, Do(s, m), at)
    {
      HeartbeatDisturbsNothing(s, m, at);
    }
    NewResponseInFlight(s, Do(s, m), s.nextMsg);
  }

  /** What is in flight after a step: what was there, undisturbed, or what the step accounts for. */
  lemma {:induction false} FrameKeepsInFlight(s: Sys, t: Sys, except: Place)
    requires InFlight(s) && s.nextMsg <= t.nextMsg
    requires forall at: Place :: at != except && !at.Gone? ==> Undisturbed(s, t, at)
    requires forall p :: p in s.processes ==> p in t.processes && t.processes[p].agent == s.processes[p].agent
    requires forall e :: e in s.executed ==> e in t.executed
    requires forall m :: m in t.responses ==> ResponseStays(s, t, m, except) || ResponseOk(t, m)
    requires forall p :: p in t.processes ==> ProcessStays(s, t, p, except) || ProcessOk(t, p)
    requires forall m :: m in t.reports ==> ReportStays(s, t, m, except) || ReportOk(t, m)
    ensures InFlight(t)
  {
    assert forall p :: p in s.processes ==> ProcessOk(s, p);
    hide Undisturbed, ResponseOk, ReportOk, OnTheWay;
    FlightFrame(s, t, except);
  }

  ghost predicate ResponseStays(s: Sys, t: Sys, m: Msg, except: Place)
    requires m in t.responses
  {
    m in s.responses && t.responses[m] == s.responses[m] && InResponse(m) != except
  }

  ghost predicate ProcessStays(s: Sys, t: Sys, p: Pid, except: Place)
    requires p in t.processes
  {
    && p in s.processes && t.processes[p].queue == s.processes[p].queue && InQueue(p) != except
    && (t.processes[p].awaiting.Some? ==> t.processes[p].awaiting == s.processes[p].awaiting)
  }

  ghost predicate ReportStays(s: Sys, t: Sys, m: Msg, except: Place)
    requires m in t.reports
  {
    m in s.reports && t.reports[m] == s.reports[m] && InReport(m) != except
  }

  /** The place a step takes commands from; Gone when it takes none. */
  function Source(s: Sys, m: Move): Place {
    match m
    case LoseResponse(msg) => InResponse(msg)
    case DeliverResponse(msg) => InResponse(msg)
    case RunCommand(pid, _) => InQueue(pid)
    case DeliverReport(msg) => InReport(msg)
    case LoseReport(msg) => InReport(msg)
    case Crash(pid) => InQueue(pid)
    case _ => Gone
  }

  lemma {:induction false} HeldInFlight(s: Sys)
    requires InFlight(s)
    ensures forall m :: m in s.responses ==> ResponseOk(s, m)
    ensures forall p :: p in s.processes ==> ProcessOk(s, p)
    ensures forall m :: m in s.reports ==> ReportOk(s, m)
  {
  }

  /** A step leaves alone what is anywhere but at its source. */
  lemma {:induction false} ResponseStepDisturbs(s: Sys, m: Move, at: Place)
    requires (m.LoseResponse? || m.DeliverResponse?) && Enabled(s, m) && ResponseOk(s, m.msg)
    requires at != Source(s, m) && !at.Gone?
    ensures Undisturbed(s, Do(s, m), at)
  {
    forall id | id in s.place && s.place[id] == at
      ensures id !in s.responses[m.msg].commands
    {
    }
  }

  lemma {:induction false} QueueStepDisturbs(s: Sys, m: Move, at: Place)
    requires (m.RunCommand? || m.Crash?) && Enabled(s, m) && ProcessOk(s, m.pid)
    requires at != Source(s, m) && !at.Gone?
    ensures Undisturbed(s, Do(s, m), at)
  {
    forall id | id in s.place && s.place[id] == at
      ensures id !in s.processes[m.pid].queue
    {
    }
  }

  lemma {:induction false} ReportStepDisturbs(s: Sys, m: Move, at: Place)
    requires (m.DeliverReport? || m.LoseReport?) && Enabled(s, m) && ReportOk(s, m.msg)
    requires at != Source(s, m) && !at.Gone?
    ensures Undisturbed(s, Do(s, m), at)
  {
    assert [s.reports[m.msg].id][0] == s.reports[m.msg].id;
  }

  lemma {:induction false} ServerStepDisturbs(s: Sys, m: Move, at: Place)
    requires Tables(s) && Enabled(s, m)
    requires m.CreateAgent? || m.Revoke? || m.Enqueue? || m.Provision? || m.Deprovision? || m.Enroll? || m.Spawn?
    ensures Undisturbed(s, Do(s, m), at)
  {
    hide EnqueueRefusal, ProvisionRefusal;
  }

  lemma {:induction false} LoseResponseInFlight(s: Sys, m: Move)
    requires Inv(s) && m.LoseResponse? && Enabled(s, m)
    ensures InFlight(Do(s, m))
  {
    hide Tables, Histories, InFlight, ResponseOk, ProcessOk, ReportOk, OnTheWay, Undisturbed, Placed;
    HeldInFlight(s);
    forall at: Place | at != Source(s, m) && !at.Gone?
      ensures Undisturbed(s, Do(s, m), at)
    {
      ResponseStepDisturbs(s, m, at);
    }
    FrameKeepsInFlight(s, Do(s, m), Source(s, m));
  }

  lemma {:induction false} DeliveredQueue(s: Sys, m: Move)
    requires m.DeliverResponse? && Enabled(s, m) && ResponseOk(s, m.msg)
    ensures ProcessOk(Do(s, m), s.responses[m.msg].pid)
  {
  }

  lemma {:induction false} DeliverResponseInFlight(s: Sys, m: Move)
    requires Inv(s) && m.DeliverResponse? && Enabled(s, m)
    ensures InFlight(Do(s, m))
  {
    hide Tables, Histories, InFlight, ResponseOk, ProcessOk, ReportOk, OnTheWay, Undisturbed, Placed;
    HeldInFlight(s);
    DeliveredQueue(s, m);
    forall at: Place | at != Source(s, m) && !at.Gone?
      ensures Undisturbed(s, Do(s, m), at)
    {
      ResponseStepDisturbs(s, m, at);
    }
    FrameKeepsInFlight(s, Do(s, m), Source(s, m));
  }

  lemma {:induction false} RunCommandReport(s: Sys, m: Move)
    requires m.RunCommand? && Enabled(s, m) && ProcessOk(s, m.pid)
    ensures ReportOk(Do(s, m), s.nextMsg) && ProcessOk(Do(s, m), m.pid)
  {
    hide HandleCommand;
    var t := Do(s, m);
    assert Execution(t.reports[s.nextMsg].agent, t.reports[s.nextMsg].id, t.reports[s.nextMsg].outcome)
        == t.executed[|s.executed|];
  }

  lemma {:induction false} RunCommandInFlight(s: Sys, m: Move)
    requires Inv(s) && m.RunCommand? && Enabled(s, m)
    ensures InFlight(Do(s, m))
  {
    hide Tables, Histories, InFlight, ResponseOk, ProcessOk, ReportOk, OnTheWay, Undisturbed, HandleCommand;
    HeldInFlight(s);
    RunCommandReport(s, m);
    forall at: Place | at != Source(s, m) && !at.Gone?
      ensures Undisturbed(s, Do(s, m), at)
    {
      QueueStepDisturbs(s, m, at);
    }
    FrameKeepsInFlight(s, Do(s, m), Source(s, m));
  }

  lemma {:induction false} CrashInFlight(s: Sys, m: Move)
    requires Inv(s) && m.Crash? && Enabled(s, m)
    ensures InFlight(Do(s, m))
  {
    assert ProcessOk(s, m.pid);
    assert ProcessOk(Do(s, m), m.pid);
    hide Tables, Histories, InFlight, ResponseOk, ProcessOk, ReportOk, OnTheWay, Undisturbed, Placed;
    forall at: Place | at != Source(s, m) && !at.Gone?
      ensures Undisturbed(s, Do(s, m), at)
    {
      QueueStepDisturbs(s, m, at);
    }
    FrameKeepsInFlight(s, Do(s, m), Source(s, m));
  }

  lemma {:induction false} ReportInFlight(s: Sys, m: Move)
    requires Inv(s) && (m.DeliverReport? || m.LoseReport?) && Enabled(s, m)
    ensures InFlight(Do(s, m))
  {
    hide Tables, Histories, InFlight, ResponseOk, ProcessOk, ReportOk, OnTheWay, Undisturbed, ReportRefusal;
    HeldInFlight(s);
    forall at: Place | at != Source(s, m) && !at.Gone?
      ensures Undisturbed(s, Do(s, m), at)
    {
      ReportStepDisturbs(s, m, at);
    }
    FrameKeepsInFlight(s, Do(s, m), Source(s, m));
  }

  lemma {:induction false} FreshProcess(s: Sys, p: Pid)
    requires p in s.processes && s.processes[p].queue == [] && s.processes[p].awaiting == None
    ensures ProcessOk(s, p)
  {
  }

  lemma {:induction false} ServerOnlyInFlight(s: Sys, m: Move)
    requires Inv(s) && Enabled(s, m)
    requires m.CreateAgent? || m.Revoke? || m.Enqueue? || m.Provision? || m.Deprovision? || m.Enroll? || m.Spawn?
    ensures InFlight(Do(s, m))
  {
    hide Histories, Tables, InFlight, ResponseOk, ProcessOk, ReportOk, OnTheWay, Undisturbed, EnqueueRefusal, ProvisionRefusal;
    var t := Do(s, m);
    forall at: Place
      ensures Undisturbed(s, t, at)
    {
      ServerStepDisturbs(s, m, at);
    }
    if (m.Enroll? || m.Spawn?) && m.pid in t.processes {
      FreshProcess(t, m.pid);
    }
    FrameKeepsInFlight(s, t, Gone);
  }

  lemma {:induction false} EnrollTables(s: Sys, m: Move)
    requires Tables(s) && m.Enroll? && Enabled(s, m)
    ensures Tables(Do(s, m))
  {
  }

  lemma {:induction false} EnrollHistories(s: Sys, m: Move)
    requires Inv(s) && m.Enroll? && Enabled(s, m)
    ensures Tables(Do(s, m)) && Histories(Do(s, m))
  {
    hide Tables, InFlight, Histories;
    EnrollTables(s, m);
    SameCommandsHistories(s, Do(s, m));
  }

  lemma {:induction false} SameCommandsHistories(s: Sys, t: Sys)
    requires Histories(s) && t.server.commands == s.server.commands
    requires t.handed == s.handed && t.executed == s.executed && t.place == s.place
    ensures Histories(t)
  {
  }

  lemma {:induction false} ServeHeartbeatTables(s: Sys, m: Move)
    requires Tables(s) && m.ServeHeartbeat? && Enabled(s, m)
    ensures Tables(Do(s, m))
  {
    hide Placed, HandedTo, AuthRefusal, ValidPick;
  }

  /** Handing out commands that were queued: they had neither been handed out nor run before. */
  lemma {:induction false} HandOutHistories(s: Sys, t: Sys, agent: Id, ids: seq<Id>)
    requires Histories(s) && Distinct(ids)
    requires forall id :: id in ids ==>
               id in s.server.commands && s.server.commands[id].status == Queued && s.server.commands[id].agent == agent
    requires t.handed == s.handed + HandedTo(agent, ids) && t.executed == s.executed
    requires t.server.commands == Marked(s.server, ids).commands
    requires forall id :: id in t.place <==> id in s.place || id in ids
    requires forall id :: id in s.place && id !in ids ==> t.place[id] == s.place[id]
    ensures Histories(t)
  {
    forall i | 0 <= i < |t.handed|
      ensures WasHanded(t, t.handed[i]) && (t.handed[i].id in ids <==> i >= |s.handed|)
    {
      if i < |s.handed| {
        assert WasHanded(s, s.handed[i]);
      } else {
        assert t.handed[i].id == ids[i - |s.handed|];
      }
    }
    forall e | e in t.executed
      ensures WasRun(t, e)
    {
      assert WasRun(s, e);
    }
    forall id | id in t.server.commands && t.server.commands[id].status in {Success, Failure}
      ensures Finished(t, id)
    {
      assert Finished(s, id);
    }
  }

  lemma {:induction false} ServeHeartbeatHistories(s: Sys, m: Move)
    requires Inv(s) && m.ServeHeartbeat? && Enabled(s, m)
    ensures Tables(Do(s, m)) && Histories(Do(s, m))
  {
    ServeHeartbeatTables(s, m);
    hide Tables, InFlight, Histories, AuthRefusal;
    HandOutHistories(s, Do(s, m), s.processes[m.pid].agent, m.picked);
  }

  lemma {:induction false} ResponseStepTables(s: Sys, m: Move)
    requires Tables(s) && (m.LoseResponse? || m.DeliverResponse?) && Enabled(s, m)
    ensures Tables(Do(s, m))
  {
    hide Placed;
  }

  /** Moving commands that have not been run changes no history. */
  lemma {:induction false} MovedHistories(s: Sys, t: Sys, ids: seq<Id>, at: Place)
    requires Histories(s) && t.server == s.server && t.handed == s.handed && t.executed == s.executed
    requires t.place == Placed(s.place, ids, at)
    requires forall id :: id in ids ==> id in s.place && !s.place[id].InReport? && !s.place[id].Gone?
    ensures Histories(t)
  {
    forall e | e in t.executed
      ensures WasRun(t, e)
    {
      assert WasRun(s, e);
    }
    forall i | 0 <= i < |t.handed|
      ensures WasHanded(t, t.handed[i])
    {
      assert WasHanded(s, s.handed[i]);
    }
    forall x | x in t.server.commands && t.server.commands[x].status in {Success, Failure}
      ensures Finished(t, x)
    {
      assert Finished(s, x);
    }
  }

  lemma {:induction false} CrashTables(s: Sys, m: Move)
    requires Tables(s) && m.Crash? && Enabled(s, m)
    ensures Tables(Do(s, m))
  {
    hide Placed;
  }

  lemma {:induction false} CrashHistories(s: Sys, m: Move)
    requires Inv(s) && m.Crash? && Enabled(s, m)
    ensures Tables(Do(s, m)) && Histories(Do(s, m))
  {
    assert ProcessOk(s, m.pid);
    var queue := s.processes[m.pid].queue;
    assert forall id :: id in queue ==> id in s.place && s.place[id] == InQueue(m.pid);
    CrashTables(s, m);
    hide Tables, InFlight, Histories, Placed, ProcessOk;
    MovedHistories(s, Do(s, m), queue, Gone);
  }

  lemma {:induction false} ResponseStepHistories(s: Sys, m: Move)
    requires Inv(s) && (m.LoseResponse? || m.DeliverResponse?) && Enabled(s, m)
    ensures Tables(Do(s, m)) && Histories(Do(s, m))
  {
    assert ResponseOk(s, m.msg);
    var r := s.responses[m.msg];
    assert forall id :: id in r.commands ==> id in s.place && s.place[id] == InResponse(m.msg);
    ResponseStepTables(s, m);
    hide Tables, InFlight, Histories, Placed, ResponseOk;
    MovedHistories(s, Do(s, m), r.commands, if m.LoseResponse? then Gone else InQueue(r.pid));
  }

  lemma {:induction false} RunCommandTables(s: Sys, m: Move)
    requires Tables(s) && m.RunCommand? && Enabled(s, m)
    ensures Tables(Do(s, m))
  {
    hide HandleCommand;
  }

  /** Running a command that was on its way: it had not been run before. */
  lemma {:induction false} ExecutedHistories(s: Sys, t: Sys, e: Execution, at: Place)
    requires Histories(s) && t.server == s.server && t.handed == s.handed
    requires t.executed == s.executed + [e] && t.place == s.place[e.id := at] && at.InReport?
    requires e.id in s.place && s.place[e.id].InQueue?
    requires e.id in s.server.commands && s.server.commands[e.id].agent == e.agent
    requires s.server.commands[e.id].status == Dispatched
    ensures Histories(t)
  {
    forall x | x in s.executed
      ensures x.id != e.id && WasRun(t, x)
    {
      assert WasRun(s, x);
    }
    forall i | 0 <= i < |t.handed|
      ensures WasHanded(t, t.handed[i])
    {
      assert WasHanded(s, s.handed[i]);
    }
    forall id | id in t.server.commands && t.server.commands[id].status in {Success, Failure}
      ensures Finished(t, id)
    {
      assert Finished(s, id);
      var x :| x in s.executed && x.id == id && StatusFor(x.outcome) == s.server.commands[id].status;
      assert x in t.executed;
    }
  }

  lemma {:induction false} RunCommandHistories(s: Sys, m: Move)
    requires Inv(s) && m.RunCommand? && Enabled(s, m)
    ensures Tables(Do(s, m)) && Histories(Do(s, m))
  {
    hide Tables, InFlight, Histories, HandleCommand, ResponseOk, ReportOk;
    HeldInFlight(s);
    assert ProcessOk(s, m.pid);
    RunCommandTables(s, m);
    var t := Do(s, m);
    ExecutedHistories(s, t, t.executed[|s.executed|], InReport(s.nextMsg));
  }

  lemma {:induction false} ReportTables(s: Sys, m: Move)
    requires Tables(s) && (m.DeliverReport? || m.LoseReport?) && Enabled(s, m)
    ensures Tables(Do(s, m))
  {
  }

  /** A command that a delivered report finishes had been run, and its place was that report. */
  lemma {:induction false} ReportedHistories(s: Sys, t: Sys, e: Execution, status: CommandStatus)
    requires Histories(s) && e in s.executed && e.id in s.server.commands && e.id in s.place
    requires status == s.server.commands[e.id].status || status == StatusFor(e.outcome)
    requires t.handed == s.handed && t.executed == s.executed && t.place == s.place[e.id := Gone]
    requires t.server.commands == s.server.commands[e.id := s.server.commands[e.id].(status := status)]
    requires s.server.commands[e.id].status == Dispatched
    ensures Histories(t)
  {
    forall x | x in t.executed
      ensures WasRun(t, x)
    {
      assert WasRun(s, x);
    }
    forall i | 0 <= i < |t.handed|
      ensures WasHanded(t, t.handed[i])
    {
      assert WasHanded(s, s.handed[i]);
    }
    forall id | id in t.server.commands && t.server.commands[id].status in {Success, Failure}
      ensures Finished(t, id)
    {
      if id != e.id {
        assert Finished(s, id);
      }
    }
  }

  lemma {:induction false} ReportedCommand(s: Sys, msg: Msg)
    requires msg in s.reports && ReportOk(s, msg)
    ensures var r := s.reports[msg];
            && Execution(r.agent, r.id, r.outcome) in s.executed
            && r.id in s.place && r.id in s.server.commands && s.server.commands[r.id].status == Dispatched
  {
    assert [s.reports[msg].id][0] == s.reports[msg].id;
  }

  lemma {:induction false} ReportHistories(s: Sys, m: Move)
    requires Inv(s) && (m.DeliverReport? || m.LoseReport?) && Enabled(s, m)
    ensures Tables(Do(s, m)) && Histories(Do(s, m))
  {
    hide Tables, InFlight, Histories, ReportRefusal, ReportOk, ResponseOk, ProcessOk;
    HeldInFlight(s);
    var r, t := s.reports[m.msg], Do(s, m);
    ReportedCommand(s, m.msg);
    ReportTables(s, m);
    assert t.server.commands == s.server.commands[r.id := s.server.commands[r.id].(status := t.server.commands[r.id].status)];
    ReportedHistories(s, t, Execution(r.agent, r.id, r.outcome), t.server.commands[r.id].status);
  }

  lemma {:induction false} OtherTables(s: Sys, m: Move)
    requires Tables(s) && Enabled(s, m)
    requires m.CreateAgent? || m.Revoke? || m.Spawn? || m.Enqueue? || m.Provision? || m.Deprovision?
    ensures Tables(Do(s, m))
  {
  }

  lemma {:induction false} NewCommandHistories(s: Sys, t: Sys, id: Id, c: Command)
    requires Histories(s) && id !in s.server.commands && c.status == Queued
    requires t.server.commands == s.server.commands[id := c]
    requires t.handed == s.handed && t.executed == s.executed && t.place == s.place
    ensures Histories(t)
  {
    forall e | e in t.executed
      ensures WasRun(t, e)
    {
      assert WasRun(s, e);
    }
    forall i | 0 <= i < |t.handed|
      ensures WasHanded(t, t.handed[i])
    {
      assert WasHanded(s, s.handed[i]);
    }
    forall x | x in t.server.commands && t.server.commands[x].status in {Success, Failure}
      ensures Finished(t, x)
    {
      assert Finished(s, x);
    }
  }

  lemma {:induction false} OtherHistories(s: Sys, m: Move)
    requires Inv(s) && Enabled(s, m)
    requires m.CreateAgent? || m.Revoke? || m.Spawn? || m.Enqueue? || m.Provision? || m.Deprovision?
    ensures Tables(Do(s, m)) && Histories(Do(s, m))
  {
    OtherTables(s, m);
    var t := Do(s, m);
    var n := s.server.nextCommand;
    assert n !in s.server.commands;
    hide Tables, InFlight, Histories, EnqueueRefusal, ProvisionRefusal;
    if m.CreateAgent? || m.Revoke? || m.Spawn? {
      SameCommandsHistories(s, t);
    } else {
      NewCommandHistories(s, t, n, t.server.commands[n]);
    }
  }

  lemma {:induction false} StepKeepsInv(s: Sys, m: Move)
    requires Inv(s) && Enabled(s, m)
    ensures Inv(Do(s, m))
  {
    hide Tables, InFlight, Histories, Do, Enabled;
    match m
    case Enroll(_, _, _, _) => ServerOnlyInFlight(s, m); EnrollHistories(s, m);
    case Crash(_) => CrashInFlight(s, m); CrashHistories(s, m);
    case ServeHeartbeat(_, _, _) => ServeHeartbeatInFlight(s, m); ServeHeartbeatHistories(s, m);
    case LoseResponse(_) => LoseResponseInFlight(s, m); ResponseStepHistories(s, m);
    case DeliverResponse(_) => DeliverResponseInFlight(s, m); ResponseStepHistories(s, m);
    case RunCommand(_, _) => RunCommandInFlight(s, m); RunCommandHistories(s, m);
    case DeliverReport(_) => ReportInFlight(s, m); ReportHistories(s, m);
    case LoseReport(_) => ReportInFlight(s, m); ReportHistories(s, m);
    case Forge(_) => ForgeryIsRefused(s, m);
    case _ => ServerOnlyInFlight(s, m); OtherHistories(s, m);
  }

  // ------------------------------------------------------------------ runs

  ghost predicate Run(s: Sys, moves: seq<Move>)
    decreases |moves|
  {
    moves != [] ==> Enabled(s, moves[0]) && Run(Do(s, moves[0]), moves[1..])
  }

  ghost function Final(s: Sys, moves: seq<Move>): Sys
    requires Run(s, moves)
    decreases |moves|
  {
    if moves == [] then s else Final(Do(s, moves[0]), moves[1..])
  }

  lemma {:induction false} RunKeepsInv(s: Sys, moves: seq<Move>)
    requires Inv(s) && Run(s, moves)
    ensures Inv(Final(s, moves))
    decreases |moves|
  {
    hide Inv, Do, Enabled;
    if moves != [] {
      StepKeepsInv(s, moves[0]);
      RunKeepsInv(Do(s, moves[0]), moves[1..]);
    }
  }

  /** The moves of a run but the forgeries. */
  function Genuine(moves: seq<Move>): seq<Move> {
    if moves == [] then [] else (if moves[0].Forge? then [] else [moves[0]]) + Genuine(moves[1..])
  }

  /** Forged requests may be struck from any run: what is left is a run, and ends in the same state. */
  lemma {:induction false} ForgeriesChangeNothing(s: Sys, moves: seq<Move>)
    requires Run(s, moves)
    ensures Run(s, Genuine(moves)) && Final(s, Genuine(moves)) == Final(s, moves)
    decreases |moves|
  {
    hide Do, Enabled;
    if moves != [] {
      ForgeriesChangeNothing(Do(s, moves[0]), moves[1..]);
      if moves[0].Forge? {
        ForgeryIsRefused(s, moves[0]);
        assert Genuine(moves) == Genuine(moves[1..]);
      } else {
        assert Genuine(moves)[0] == moves[0] && Genuine(moves)[1..] == Genuine(moves[1..]);
      }
    }
  }

  /** An agent revoked after it enrolled. */
  ghost predicate LockedOut(s: Sys, agent: Id) {
    && agent in s.server.agents && s.server.agents[agent].secret.Some? && s.server.agents[agent].status == Revoked
  }

  lemma {:induction false} StepKeepsLockedOut(s: Sys, m: Move, agent: Id)
    requires Tables(s) && Enabled(s, m) && LockedOut(s, agent)
    ensures LockedOut(Do(s, m), agent)
    ensures forall i :: |s.handed| <= i < |Do(s, m).handed| ==> Do(s, m).handed[i].agent != agent
    ensures s.handed <= Do(s, m).handed
  {
    hide ValidPick, EnqueueRefusal, ProvisionRefusal, HandleCommand, Placed;
    if m.Forge? {
      ForgeryIsRefused(s, m);
    }
  }

  /** From then on it is let in never again: no command is handed to it, and it stays revoked. */
  lemma {:induction false} RevokedStaysOut(s: Sys, moves: seq<Move>, agent: Id)
    requires Inv(s) && Run(s, moves) && LockedOut(s, agent)
    ensures var t := Final(s, moves);
            && LockedOut(t, agent) && s.handed <= t.handed
            && forall i :: |s.handed| <= i < |t.handed| ==> t.handed[i].agent != agent
    decreases |moves|
  {
    hide Do, Enabled, InFlight, Histories, Tables, LockedOut;
    if moves != [] {
      StepKeepsInv(s, moves[0]);
      StepKeepsLockedOut(s, moves[0], agent);
      RevokedStaysOut(Do(s, moves[0]), moves[1..], agent);
    }
  }

  /** Over every interleaving a command is put into at most one heartbeat response and run at most once,
      by a process of the agent it was queued for, in that agent's tenant. */
  lemma {:induction false} AtMostOnce(moves: seq<Move>)
    requires Run(Empty, moves)
    ensures var s := Final(Empty, moves);
            && (forall i, j :: 0 <= i < j < |s.handed| ==> s.handed[i].id != s.handed[j].id)
            && (forall i, j :: 0 <= i < j < |s.executed| ==> s.executed[i].id != s.executed[j].id)
            && (forall e :: e in s.executed ==>
                  && e.id in s.server.commands && s.server.commands[e.id].agent == e.agent
                  && e.agent in s.server.agents
                  && s.server.agents[e.agent].tenant == s.server.commands[e.id].tenant)
  {
    RunKeepsInv(Empty, moves);
    var s := Final(Empty, moves);
    hide Run, Final, InFlight;
    forall e | e in s.executed
      ensures e.id in s.server.commands && s.server.commands[e.id].agent == e.agent
    {
      assert WasRun(s, e);
    }
  }

  /** In every reachable state a final status is the outcome of the command's one execution. */
  lemma {:induction false} FinalStatusIsTheOutcome(moves: seq<Move>, id: Id) returns (k: nat)
    requires Run(Empty, moves)
    requires var s := Final(Empty, moves);
             id in s.server.commands && s.server.commands[id].status in {Success, Failure}
    ensures var s := Final(Empty, moves);
            && k < |s.executed| && s.executed[k].id == id
            && (s.server.commands[id].status == Success <==> s.executed[k].outcome == Succeeded)
            && (forall j :: 0 <= j < |s.executed| && s.executed[j].id == id ==> j == k)
  {
    RunKeepsInv(Empty, moves);
    var s := Final(Empty, moves);
    hide Run, Final, Tables, InFlight;
    assert Finished(s, id);
    var e :| e in s.executed && e.id == id && StatusFor(e.outcome) == s.server.commands[id].status;
    k :| 0 <= k < |s.executed| && s.executed[k] == e;
  }

  // ------------------------------------------------------------------ statuses only move forward

  /** What a command was queued as never changes, and its status takes the next step or none. */
  ghost predicate OneStepOn(a: Command, b: Command) {
    && b == a.(status := b.status)
    && (b.status == a.status
        || (a.status == Queued && b.status == Dispatched)
        || (a.status == Dispatched && b.status in {Success, Failure}))
  }

  lemma {:induction false} HeartbeatForward(s: Sys, m: Move, id: Id)
    requires m.ServeHeartbeat? && Enabled(s, m) && id in s.server.commands
    ensures id in Do(s, m).server.commands
    ensures OneStepOn(s.server.commands[id], Do(s, m).server.commands[id])
    ensures id !in m.picked ==> Do(s, m).server.commands[id] == s.server.commands[id]
  {
    assert id in m.picked ==> id in QueuedFor(s.server, s.processes[m.pid].agent);
  }

  lemma {:induction false} ReportForward(s: Sys, m: Move, id: Id)
    requires m.DeliverReport? && Enabled(s, m) && ReportOk(s, m.msg) && id in s.server.commands
    ensures id in Do(s, m).server.commands
    ensures OneStepOn(s.server.commands[id], Do(s, m).server.commands[id])
  {
    assert [s.reports[m.msg].id][0] == s.reports[m.msg].id;
  }

  lemma {:induction false} QueueForward(s: Sys, m: Move, id: Id)
    requires m.Enqueue? || m.Provision? || m.Deprovision?
    requires Tables(s) && Enabled(s, m) && id in s.server.commands
    ensures id in Do(s, m).server.commands
    ensures Do(s, m).server.commands[id] == s.server.commands[id]
  {
    assert id != s.server.nextCommand;
  }

  lemma {:induction false} StepForward(s: Sys, m: Move, id: Id)
    requires Inv(s) && Enabled(s, m) && id in s.server.commands
    ensures id in Do(s, m).server.commands
    ensures OneStepOn(s.server.commands[id], Do(s, m).server.commands[id])
  {
    hide Tables, Histories, ReportOk, ResponseOk, ProcessOk;
    match m
    case ServeHeartbeat(_, _, _) => HeartbeatForward(s, m, id);
    case DeliverReport(msg) => ReportForward(s, m, id);
    case Enqueue(_, _, _, _) => QueueForward(s, m, id);
    case Provision(_, _, _, _) => QueueForward(s, m, id);
    case Deprovision(_, _) => QueueForward(s, m, id);
    case Forge(_) => ForgeryIsRefused(s, m);
    case _ => assert Do(s, m).server.commands == s.server.commands;
  }

  function Rank(status: CommandStatus): nat {
    match status case Queued => 0 case Dispatched => 1 case Success => 2 case Failure => 2
  }

  /** From any reachable state on, a status never moves backwards and a final one never changes. */
  lemma {:induction false} StatusForward(s: Sys, moves: seq<Move>, id: Id)
    requires Inv(s) && Run(s, moves) && id in s.server.commands
    ensures var t := Final(s, moves);
            && id in t.server.commands
            && t.server.commands[id] == s.server.commands[id].(status := t.server.commands[id].status)
            && Rank(s.server.commands[id].status) <= Rank(t.server.commands[id].status)
            && (s.server.commands[id].status in {Success, Failure} ==>
                  t.server.commands[id].status == s.server.commands[id].status)
    decreases |moves|
  {
    hide Inv, Do, Enabled;
    if moves != [] {
      StepKeepsInv(s, moves[0]);
      StepForward(s, moves[0], id);
      StatusForward(Do(s, moves[0]), moves[1..], id);
    }
  }

  /** A dispatched command that was lost, before or after it ran, stays dispatched and is never sent or
      run again. */
  ghost predicate Lost(s: Sys, id: Id) {
    && id in s.place && s.place[id] == Gone
    && id in s.server.commands && s.server.commands[id].status == Dispatched
  }

  lemma {:induction false} HeartbeatSkipsLost(s: Sys, m: Move, id: Id)
    requires m.ServeHeartbeat? && Enabled(s, m) && Lost(s, id)
    ensures id !in m.picked
  {
    assert forall i :: 0 <= i < |m.picked| ==> m.picked[i] in QueuedFor(s.server, s.processes[m.pid].agent);
  }

  /** Whatever is still on its way is not lost. */
  lemma {:induction false} OthersMove(s: Sys, m: Move, id: Id)
    requires InFlight(s) && Enabled(s, m) && Lost(s, id) && !m.ServeHeartbeat?
    ensures Do(s, m).place.Keys >= {id} && Do(s, m).place[id] == Gone
    ensures Do(s, m).handed == s.handed
    ensures Do(s, m).executed == s.executed || (m.RunCommand? && s.processes[m.pid].queue[0] != id)
  {
    hide AuthRefusal, ReportRefusal, ValidPick, EnqueueRefusal, ProvisionRefusal, HandleCommand;
    match m
    case DeliverReport(msg) => assert ReportOk(s, msg);
    case LoseReport(msg) => assert ReportOk(s, msg);
    case LoseResponse(msg) => assert ResponseOk(s, msg);
    case DeliverResponse(msg) => assert ResponseOk(s, msg);
    case RunCommand(pid, _) => assert ProcessOk(s, pid);
    case Crash(pid) => assert ProcessOk(s, pid);
    case Forge(_) => ForgeryIsRefused(s, m);
    case _ =>
  }

  lemma {:induction false} LostStatus(s: Sys, m: Move, id: Id)
    requires Inv(s) && Enabled(s, m) && Lost(s, id)
    ensures Do(s, m).server.commands.Keys >= {id} && Do(s, m).server.commands[id].status == Dispatched
  {
    hide Tables, Histories, ReportOk, ResponseOk, ProcessOk;
    match m
    case DeliverReport(msg) => ReportIsOfAnother(s, m, id);
    case ServeHeartbeat(_, _, _) => HeartbeatForward(s, m, id); HeartbeatSkipsLost(s, m, id);
    case Enqueue(_, _, _, _) => QueueForward(s, m, id);
    case Provision(_, _, _, _) => QueueForward(s, m, id);
    case Deprovision(_, _) => QueueForward(s, m, id);
    case Forge(_) => ForgeryIsRefused(s, m);
    case _ => assert Do(s, m).server.commands == s.server.commands;
  }

  /** A delivered report is about a command that was in it, not about a lost one. */
  lemma {:induction false} ReportIsOfAnother(s: Sys, m: Move, id: Id)
    requires m.DeliverReport? && Enabled(s, m) && ReportOk(s, m.msg) && Lost(s, id)
    ensures id in Do(s, m).server.commands && Do(s, m).server.commands[id] == s.server.commands[id]
  {
    assert [s.reports[m.msg].id][0] == s.reports[m.msg].id;
  }

  lemma {:induction false} StepKeepsLost(s: Sys, m: Move, id: Id)
    requires Inv(s) && Enabled(s, m) && Lost(s, id)
    ensures var t := Do(s, m);
            && Lost(t, id)
            && (forall i :: |s.executed| <= i < |t.executed| ==> t.executed[i].id != id)
            && (forall i :: |s.handed| <= i < |t.handed| ==> t.handed[i].id != id)
            && s.executed <= t.executed && s.handed <= t.handed
  {
    hide Tables, InFlight, Histories, ValidPick, Marked;
    LostStatus(s, m, id);
    if m.ServeHeartbeat? {
      HeartbeatSkipsLost(s, m, id);
    } else {
      OthersMove(s, m, id);
    }
  }

  lemma {:induction false} LostStaysDispatched(s: Sys, moves: seq<Move>, id: Id)
    requires Inv(s) && Run(s, moves) && Lost(s, id)
    ensures var t := Final(s, moves);
            && Lost(t, id)
            && (forall i :: |s.executed| <= i < |t.executed| ==> t.executed[i].id != id)
            && (forall i :: |s.handed| <= i < |t.handed| ==> t.handed[i].id != id)
            && s.executed <= t.executed && s.handed <= t.handed
    decreases |moves|
  {
    hide Inv, Do, Enabled;
    if moves != [] {
      StepKeepsInv(s, moves[0]);
      StepKeepsLost(s, moves[0], id);
      LostStaysDispatched(Do(s, moves[0]), moves[1..], id);
    }
  }
}
