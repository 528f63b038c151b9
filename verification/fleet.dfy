/** The fleet command protocol: the control plane's handlers (control-api/app/routers/fleet.py) and the
    agent's loop (fleet_agent/agent.py).

    `Server` and the functions on it say what each handler does to the tables; the classes are the
    handlers and the agent loop, proved against them. A handler is one database transaction. */
module Fleet {
  import opened Common

  datatype CommandStatus = Queued | Dispatched | Success | Failure

  datatype AgentStatus = Pending | Online | Revoked

  datatype Outcome = Succeeded | Failed

  type Id = nat
  type Tenant = nat
  type Secret = nat
  type Token = nat

  datatype Command = Command(tenant: Tenant, agent: Id, action: string, service: string, status: CommandStatus)

  datatype Agent = Agent(tenant: Tenant, token: Token, secret: Option<Secret>, status: AgentStatus)

  datatype Server = Server(agents: map<Id, Agent>, commands: map<Id, Command>, nextAgent: Id, nextCommand: Id)

  datatype Reply<+T> = Ok(value: T) | Refused(code: nat)

  const MaxShards := 26
  const MaxPerHeartbeat := 10

  // ------------------------------------------------------------------ handlers on values

  predicate OwnsAgent(s: Server, tenant: Tenant, agent: Id) {
    agent in s.agents && s.agents[agent].tenant == tenant
  }

  function AddCommand(s: Server, tenant: Tenant, agent: Id, action: string, service: string): Server {
    s.(commands := s.commands[s.nextCommand := Command(tenant, agent, action, service, Queued)],
       nextCommand := s.nextCommand + 1)
  }

  predicate ServiceAction(action: string) {
    action == "start" || action == "stop" || action == "restart"
  }

  /** Why the handler refuses to queue a service command, if it does: the action is checked first. */
  function EnqueueRefusal(s: Server, tenant: Tenant, agent: Id, action: string): Option<nat> {
    if !ServiceAction(action) then Some(400)
    else if !OwnsAgent(s, tenant, agent) then Some(404)
    else None
  }

  function ProvisionRefusal(s: Server, tenant: Tenant, agent: Id, shards: int, replicas: Option<int>): Option<nat> {
    if !(1 <= shards <= MaxShards) then Some(400)
    else if replicas.Some? && replicas.value < 1 then Some(400)
    else if !OwnsAgent(s, tenant, agent) then Some(404)
    else None
  }

  /** Why an agent's request is refused, if it is. */
  function AuthRefusal(s: Server, agent: Id, secret: Secret): Option<nat> {
    if agent !in s.agents || s.agents[agent].secret == None then Some(401)
    else if s.agents[agent].status == Revoked then Some(403)
    else if s.agents[agent].secret != Some(secret) then Some(401)
    else None
  }

  function SetOnline(s: Server, agent: Id): Server
    requires agent in s.agents
  {
    s.(agents := s.agents[agent := s.agents[agent].(status := Online)])
  }

  function SetStatus(s: Server, id: Id, status: CommandStatus): Server
    requires id in s.commands
  {
    s.(commands := s.commands[id := s.commands[id].(status := status)])
  }

  function QueuedFor(s: Server, agent: Id): set<Id> {
    set id | id in s.commands && s.commands[id].agent == agent && s.commands[id].status == Queued
  }

  /** The dispatch query has a limit and no ordering: any ten queued commands, or all when fewer. */
  ghost predicate ValidPick(s: Server, agent: Id, picked: seq<Id>) {
    && (forall i :: 0 <= i < |picked| ==> picked[i] in QueuedFor(s, agent))
    && (forall i, j :: 0 <= i < j < |picked| ==> picked[i] != picked[j])
    && |picked| == if |QueuedFor(s, agent)| <= MaxPerHeartbeat then |QueuedFor(s, agent)| else MaxPerHeartbeat
  }

  /** The command table once the picked commands are marked dispatched. */
  function Marked(s: Server, picked: seq<Id>): Server {
    s.(commands := map id | id in s.commands ::
         if id in picked then s.commands[id].(status := Dispatched) else s.commands[id])
  }

  /** Fewer than the limit are picked only when all are. */
  lemma {:induction false} AllPicked(s: Server, agent: Id, picked: seq<Id>)
    requires ValidPick(s, agent, picked) && |picked| < MaxPerHeartbeat
    ensures forall id :: id in QueuedFor(s, agent) ==> id in picked
  {
    var got := set i | 0 <= i < |picked| :: picked[i];
    Spread(picked);
    assert got <= QueuedFor(s, agent);
    if id :| id in QueuedFor(s, agent) && id !in picked {
      Smaller(got, QueuedFor(s, agent), id);
    }
  }

  lemma {:induction false} Spread(picked: seq<Id>)
    requires forall i, j :: 0 <= i < j < |picked| ==> picked[i] != picked[j]
    ensures |set i | 0 <= i < |picked| :: picked[i]| == |picked|
  {
    if picked != [] {
      var n := |picked| - 1;
      Spread(picked[..n]);
      var before := set i | 0 <= i < n :: picked[..n][i];
      assert (set i | 0 <= i < |picked| :: picked[i]) == before + {picked[n]};
    }
  }

  lemma {:induction false} Smaller(a: set<Id>, b: set<Id>, x: Id)
    requires a <= b && x in b && x !in a
    ensures |a| < |b|
  {
    SubsetSize(a, b - {x});
  }

  lemma {:induction false} SubsetSize(a: set<Id>, b: set<Id>)
    requires a <= b
    ensures |a| <= |b|
  {
    if a != {} {
      var x :| x in a;
      SubsetSize(a - {x}, b - {x});
    }
  }

  function StatusFor(outcome: Outcome): CommandStatus {
    if outcome.Succeeded? then Success else Failure
  }

  /** Why a result report is refused, if it is. There is no test of the command's status. */
  function ReportRefusal(s: Server, agent: Id, secret: Secret, id: Id): Option<nat> {
    if AuthRefusal(s, agent, secret).Some? then AuthRefusal(s, agent, secret)
    else if id !in s.commands || s.commands[id].agent != agent then Some(404)
    else None
  }

  function AgentsWithToken(s: Server, token: Token): set<Id> {
    set a | a in s.agents && s.agents[a].token == token
  }

  // ------------------------------------------------------------------ the control plane

  class ControlPlane {
    var agents: map<Id, Agent>
    var commands: map<Id, Command>
    var nextAgent: Id
    var nextCommand: Id

    function View(): Server
      reads this
    {
      Server(agents, commands, nextAgent, nextCommand)
    }

    constructor ()
      ensures View() == Server(map[], map[], 0, 0)
    {
      agents, commands, nextAgent, nextCommand := map[], map[], 0, 0;
    }

    method CreateAgent(tenant: Tenant, token: Token) returns (agent: Id)
      modifies this
      ensures agent == old(nextAgent)
      ensures View() == old(View()).(agents := old(agents)[agent := Agent(tenant, token, None, Pending)],
                                     nextAgent := agent + 1)
    {
      agent := nextAgent;
      agents := agents[agent := Agent(tenant, token, None, Pending)];
      nextAgent := nextAgent + 1;
    }

    method EnqueueCommand(tenant: Tenant, agent: Id, action: string, service: string) returns (r: Reply<Id>)
      modifies this
      ensures match EnqueueRefusal(old(View()), tenant, agent, action)
              case Some(code) => r == Refused(code) && View() == old(View())
              case None => r == Ok(old(nextCommand)) && View() == AddCommand(old(View()), tenant, agent, action, service)
      ensures r.Ok? <==> action in {"start", "stop", "restart"} && agent in old(agents) && old(agents)[agent].tenant == tenant
      ensures r == Refused(400) <==> action !in {"start", "stop", "restart"}
      ensures r.Refused? ==> r.code in {400, 404}
      ensures agents == old(agents)
      ensures commands == if r.Ok? then old(commands)[r.value := Command(tenant, agent, action, service, Queued)] else old(commands)
    {
      if !ServiceAction(action) {
        return Refused(400);
      }
      if agent !in agents || agents[agent].tenant != tenant {
        return Refused(404);
      }
      r := Ok(nextCommand);
      commands := commands[nextCommand := Command(tenant, agent, action, service, Queued)];
      nextCommand := nextCommand + 1;
    }

    method Provision(tenant: Tenant, agent: Id, shards: int, replicas: Option<int>) returns (r: Reply<Id>)
      modifies this
      ensures match ProvisionRefusal(old(View()), tenant, agent, shards, replicas)
              case Some(code) => r == Refused(code) && View() == old(View())
              case None =>
                && r == Ok(old(nextCommand))
                && View() == AddCommand(old(View()), tenant, agent, "provision", "data-plane")
      ensures r.Ok? <==> && 1 <= shards <= 26 && (replicas.Some? ==> replicas.value >= 1)
                         && agent in old(agents) && old(agents)[agent].tenant == tenant
      ensures r == Refused(400) <==> !(1 <= shards <= 26) || (replicas.Some? && replicas.value < 1)
      ensures r.Refused? ==> r.code in {400, 404}
      ensures agents == old(agents)
      ensures commands == if r.Ok? then old(commands)[r.value := Command(tenant, agent, "provision", "data-plane", Queued)]
                          else old(commands)
    {
      if !(1 <= shards <= MaxShards) {
        return Refused(400);
      }
      if replicas.Some? && replicas.value < 1 {
        return Refused(400);
      }
      if agent !in agents || agents[agent].tenant != tenant {
        return Refused(404);
      }
      r := Ok(nextCommand);
      commands := commands[nextCommand := Command(tenant, agent, "provision", "data-plane", Queued)];
      nextCommand := nextCommand + 1;
    }

    method Deprovision(tenant: Tenant, agent: Id) returns (r: Reply<Id>)
      modifies this
      ensures if OwnsAgent(old(View()), tenant, agent)
              then r == Ok(old(nextCommand))
                && View() == AddCommand(old(View()), tenant, agent, "deprovision", "data-plane")
              else r == Refused(404) && View() == old(View())
      ensures r.Ok? <==> agent in old(agents) && old(agents)[agent].tenant == tenant
      ensures agents == old(agents)
      ensures commands == if r.Ok? then old(commands)[r.value := Command(tenant, agent, "deprovision", "data-plane", Queued)]
                          else old(commands)
    {
      if agent !in agents || agents[agent].tenant != tenant {
        return Refused(404);
      }
      r := Ok(nextCommand);
      commands := commands[nextCommand := Command(tenant, agent, "deprovision", "data-plane", Queued)];
      nextCommand := nextCommand + 1;
    }

    /** Enroll by one-time token: the first agent with the token, unless it has enrolled before. */
    method Enroll(token: Token, newSecret: Secret) returns (r: Reply<Id>)
      modifies this
      ensures r.Ok? ==>
                && r.value in AgentsWithToken(old(View()), token) && old(agents)[r.value].secret == None
                && View() == old(View()).(agents := old(agents)[r.value :=
                               old(agents)[r.value].(secret := Some(newSecret), status := Online)])
      ensures r.Refused? ==> View() == old(View())
      ensures r == Refused(404) <==> AgentsWithToken(old(View()), token) == {}
      ensures r.Ok? ==> r.value in old(agents) && old(agents)[r.value].token == token
      ensures r == Refused(404) <==> forall a :: a in old(agents) ==> old(agents)[a].token != token
      ensures r.Refused? && r.code != 404 ==>
                && r.code == 409
                && exists a :: a in AgentsWithToken(old(View()), token) && old(agents)[a].secret.Some?
    {
      var found := AgentsWithToken(View(), token);
      assert forall a :: a in agents && agents[a].token == token ==> a in found;
      if found == {} {
        return Refused(404);
      }
      var agent :| agent in found;
      if agents[agent].secret.Some? {
        return Refused(409);
      }
      agents := agents[agent := agents[agent].(secret := Some(newSecret), status := Online)];
      r := Ok(agent);
    }

    /** Hand out queued commands and mark them dispatched, in one transaction. The agent is let in exactly
        with the secret it enrolled with and while it is not revoked; it gets commands of its own that were
        queued, each once, and fewer than ten only when none is left. */
    method Heartbeat(agent: Id, secret: Secret) returns (r: Reply<seq<Id>>)
      modifies this
      ensures match AuthRefusal(old(View()), agent, secret)
              case Some(code) => r == Refused(code) && View() == old(View())
              case None =>
                && r.Ok? && ValidPick(old(View()), agent, r.value)
                && View() == Marked(SetOnline(old(View()), agent), r.value)
      ensures r.Ok? <==> && agent in old(agents) && old(agents)[agent].secret == Some(secret)
                         && old(agents)[agent].status != Revoked
      ensures r == Refused(403) <==> && agent in old(agents) && old(agents)[agent].secret.Some?
                                     && old(agents)[agent].status == Revoked
      ensures r.Refused? ==> r.code in {401, 403} && agents == old(agents) && commands == old(commands)
      ensures r.Ok? ==> agents == old(agents)[agent := old(agents)[agent].(status := Online)]
      ensures r.Ok? ==> |r.value| <= 10 && forall i, j :: 0 <= i < j < |r.value| ==> r.value[i] != r.value[j]
      ensures r.Ok? ==> forall id :: id in r.value ==>
                id in old(commands) && old(commands)[id].agent == agent && old(commands)[id].status == Queued
      ensures r.Ok? && |r.value| < 10 ==>
                forall id :: id in old(commands) && old(commands)[id].agent == agent && old(commands)[id].status == Queued
                  ==> id in r.value
      ensures commands.Keys == old(commands).Keys
      ensures r.Ok? ==> forall id :: id in commands ==>
                commands[id] == if id in r.value then old(commands)[id].(status := Dispatched) else old(commands)[id]
    {
      var refusal := AuthRefusal(View(), agent, secret);
      if refusal.Some? {
        return Refused(refusal.value);
      }
      agents := agents[agent := agents[agent].(status := Online)];
      var queued := PullQueued(agent);
      MarkDispatched(queued);
      assert QueuedFor(old(View()), agent) == QueuedFor(SetOnline(old(View()), agent), agent);
      if |queued| < MaxPerHeartbeat {
        AllPicked(old(View()), agent, queued);
      }
      r := Ok(queued);
    }

    /** The query: at most ten queued commands of the agent, in no particular order. */
    method PullQueued(agent: Id) returns (queued: seq<Id>)
      ensures ValidPick(View(), agent, queued)
    {
      var left := QueuedFor(View(), agent);
      queued := [];
      while left != {} && |queued| < MaxPerHeartbeat
        invariant left <= QueuedFor(View(), agent)
        invariant forall i :: 0 <= i < |queued| ==> queued[i] in QueuedFor(View(), agent) - left
        invariant forall i, j :: 0 <= i < j < |queued| ==> queued[i] != queued[j]
        invariant |queued| + |left| == |QueuedFor(View(), agent)| && |queued| <= MaxPerHeartbeat
        decreases left
      {
        var id :| id in left;
        queued, left := queued + [id], left - {id};
      }
    }

    method MarkDispatched(queued: seq<Id>)
      requires forall i :: 0 <= i < |queued| ==> queued[i] in commands
      modifies this`commands
      ensures View() == Marked(old(View()), queued)
    {
      ghost var before := View();
      for i := 0 to |queued|
        invariant View() == Marked(before, queued[..i])
      {
        commands := commands[queued[i] := commands[queued[i]].(status := Dispatched)];
        assert queued[..i + 1] == queued[..i] + [queued[i]];
      }
      assert queued[..|queued|] == queued;
    }

    /** Write the reported outcome, whatever the command's status is, for an agent that is let in and a
        command of its own. */
    method ReportResult(agent: Id, secret: Secret, id: Id, outcome: Outcome) returns (r: Reply<()>)
      modifies this
      ensures match ReportRefusal(old(View()), agent, secret, id)
              case Some(code) => r == Refused(code) && View() == old(View())
              case None => r == Ok(()) && View() == SetStatus(old(View()), id, StatusFor(outcome))
      ensures r.Ok? <==> && agent in old(agents) && old(agents)[agent].secret == Some(secret)
                         && old(agents)[agent].status != Revoked
                         && id in old(commands) && old(commands)[id].agent == agent
      ensures r == Refused(403) <==> && agent in old(agents) && old(agents)[agent].secret.Some?
                                     && old(agents)[agent].status == Revoked
      ensures r == Refused(404) <==> && agent in old(agents) && old(agents)[agent].secret == Some(secret)
                                     && old(agents)[agent].status != Revoked
                                     && !(id in old(commands) && old(commands)[id].agent == agent)
      ensures r.Refused? ==> r.code in {401, 403, 404}
      ensures agents == old(agents)
      ensures commands == if r.Refused? then old(commands)
                          else old(commands)[id := old(commands)[id].(status := if outcome == Succeeded then Success else Failure)]
    {
      var refusal := AuthRefusal(View(), agent, secret);
      if refusal.Some? {
        return Refused(refusal.value);
      }
      if id !in commands || commands[id].agent != agent {
        return Refused(404);
      }
      commands := commands[id := commands[id].(status := StatusFor(outcome))];
      r := Ok(());
    }
  }

  // ------------------------------------------------------------------ the agent

  /** What a local operation may answer, including by raising. */
  datatype LocalResult = Done(ok: bool) | Threw

  /** agent.py, handle_command: an unknown action fails, an exception is a failure. */
  function HandleCommand(action: string, result: LocalResult): Outcome {
    if action == "provision" || action == "deprovision" || ServiceAction(action)
    then if result == Done(true) then Succeeded else Failed
    else Failed
  }

  datatype Work = Work(id: Id, action: string)

  datatype Ran = Ran(id: Id, outcome: Outcome)

  /** What handling the commands with these results leaves behind: each command once, in order. */
  function RanAll(works: seq<Work>, results: seq<LocalResult>): (ran: seq<Ran>)
    requires |results| == |works|
    ensures |ran| == |works|
  {
    seq(|works|, i requires 0 <= i < |works| => Ran(works[i].id, HandleCommand(works[i].action, results[i])))
  }

  function RanFor(r: Reply<seq<Work>>, results: seq<LocalResult>): seq<Ran>
    requires |results| == if r.Ok? then |r.value| else 0
  {
    if r.Ok? then RanAll(r.value, results) else []
  }

  lemma {:induction false} RanAllSnoc(works: seq<Work>, i: nat, results: seq<LocalResult>, result: LocalResult)
    requires i < |works| && |results| == i
    ensures RanAll(works[..i + 1], results + [result])
         == RanAll(works[..i], results) + [Ran(works[i].id, HandleCommand(works[i].action, result))]
  {
  }

  /** One cycle of an agent: the answer to its heartbeat and the results of the commands in it. */
  datatype Cycle = Cycle(r: Reply<seq<Work>>, results: seq<LocalResult>) {
    predicate Complete() {
      |results| == if r.Ok? then |r.value| else 0
    }
  }

  function RanInAll(cycles: seq<Cycle>): seq<Ran>
    requires forall i :: 0 <= i < |cycles| ==> cycles[i].Complete()
  {
    if cycles == [] then []
    else
      var last := cycles[|cycles| - 1];
      assert last.Complete();
      RanInAll(cycles[..|cycles| - 1]) + RanFor(last.r, last.results)
  }

  lemma {:induction false} NothingRan()
    ensures RanInAll([]) == []
  {
  }

  lemma {:induction false} RanInAllSnoc(cycles: seq<Cycle>, cycle: Cycle)
    requires cycle.Complete() && forall i :: 0 <= i < |cycles| ==> cycles[i].Complete()
    ensures RanInAll(cycles + [cycle]) == RanInAll(cycles) + RanFor(cycle.r, cycle.results)
  {
    hide RanFor;
    assert (cycles + [cycle])[..|cycles|] == cycles;
  }

  /** The environment of one agent: the control plane's answers, the local operations, and a log of
      what was executed and what was reported. */
  class AgentWorld {
    ghost var executed: seq<Ran>
    ghost var reported: seq<Ran>

    constructor ()
      ensures executed == [] && reported == []
    {
      executed, reported := [], [];
    }

    method Heartbeat() returns (r: Reply<seq<Work>>) {
      r := *;
    }

    method Operate(w: Work) returns (result: LocalResult)
      modifies this`executed
      ensures executed == old(executed) + [Ran(w.id, HandleCommand(w.action, result))]
    {
      result := *;
      executed := executed + [Ran(w.id, HandleCommand(w.action, result))];
    }

    method ReportResult(ran: Ran) returns (delivered: bool)
      modifies this`reported
      ensures reported == old(reported) + [ran]
    {
      delivered := *;
      reported := reported + [ran];
    }
  }

  class FleetAgent {
    const world: AgentWorld

    constructor (world: AgentWorld)
      ensures this.world == world
    {
      this.world := world;
    }

    /** One cycle: run every command of the heartbeat once, in order, and report each outcome once,
        going on when a report cannot be delivered. */
    method Tick() returns (r: Reply<seq<Work>>, ghost results: seq<LocalResult>)
      modifies world
      ensures |results| == if r.Ok? then |r.value| else 0
      ensures world.executed == old(world.executed) + RanFor(r, results)
      ensures world.reported == old(world.reported) + RanFor(r, results)
      ensures r.Ok? ==> |world.reported| == |old(world.reported)| + |r.value|
      ensures r.Ok? ==> forall i :: 0 <= i < |r.value| ==>
                var report := world.reported[|old(world.reported)| + i];
                && report.id == r.value[i].id
                && (report.outcome == Succeeded
                    <==> results[i] == Done(true)
                         && r.value[i].action in {"start", "stop", "restart", "provision", "deprovision"})
    {
      results := [];
      r := world.Heartbeat();
      if r.Ok? {
        for i := 0 to |r.value|
          invariant |results| == i
          invariant world.executed == old(world.executed) + RanAll(r.value[..i], results)
          invariant world.reported == old(world.reported) + RanAll(r.value[..i], results)
        {
          var w := r.value[i];
          var result := world.Operate(w);
          var outcome := HandleCommand(w.action, result);
          var _ := world.ReportResult(Ran(w.id, outcome));
          RanAllSnoc(r.value, i, results, result);
          results := results + [result];
        }
        assert r.value[..|r.value|] == r.value;
      }
    }

    /** Cycle after cycle, whatever a cycle meets: a heartbeat that fails runs nothing and the next cycle
        is made all the same; everything run is reported once, in the same order, with its outcome. */
    method Run(maxCycles: nat) returns (ghost cycles: seq<Cycle>)
      modifies world
      ensures |cycles| == maxCycles && forall i :: 0 <= i < |cycles| ==> cycles[i].Complete()
      ensures world.executed == old(world.executed) + RanInAll(cycles)
      ensures world.reported == old(world.reported) + RanInAll(cycles)
    {
      hide RanFor, RanInAll;
      cycles := [];
      NothingRan();
      for i := 0 to maxCycles
        invariant |cycles| == i && forall k :: 0 <= k < |cycles| ==> cycles[k].Complete()
        invariant world.executed == old(world.executed) + RanInAll(cycles)
        invariant world.reported == old(world.reported) + RanInAll(cycles)
      {
        var r, results := Tick();
        var cycle := Cycle(r, results);
        RanInAllSnoc(cycles, cycle);
        cycles := cycles + [cycle];
      }
    }
  }
}
