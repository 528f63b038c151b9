/** The agent's loop inside the protocol: a cycle that receives a response is the delivery of that
    response and one execution for each command in it. */
module FleetTick {
  import opened Common
  import opened Fleet
  import opened FleetProtocol

  function QueueMoves(pid: Pid, results: seq<LocalResult>): seq<Move> {
    seq(|results|, i requires 0 <= i < |results| => RunCommand(pid, results[i]))
  }

  /** The commands of a response as the agent receives them. */
  function WorksOf(s: Server, ids: seq<Id>): (works: seq<Work>)
    requires forall id :: id in ids ==> id in s.commands
    ensures |works| == |ids|
  {
    seq(|ids|, i requires 0 <= i < |ids| => (assert ids[i] in ids; Work(ids[i], s.commands[ids[i]].action)))
  }

  function Executions(agent: Id, ran: seq<Ran>): (e: seq<Execution>)
    ensures |e| == |ran|
  {
    seq(|ran|, i requires 0 <= i < |ran| => Execution(agent, ran[i].id, ran[i].outcome))
  }

  /** The reports put on the network, numbered from `from`. */
  ghost predicate Reported(s: Sys, from: Msg, agent: Id, secret: Secret, ran: seq<Ran>) {
    && s.nextMsg == from + |ran|
    && forall m :: from <= m < s.nextMsg ==>
         && m in s.reports
         && s.reports[m] == Report(agent, secret, ran[m - from].id, ran[m - from].outcome)
  }

  /** Running the whole queue of a process. */
  lemma {:induction false} QueueIsRun(s: Sys, pid: Pid, results: seq<LocalResult>)
    requires pid in s.processes && |results| == |s.processes[pid].queue|
    requires forall id :: id in s.processes[pid].queue ==> id in s.server.commands
    ensures Run(s, QueueMoves(pid, results))
    ensures var p := s.processes[pid];
            var ran := RanAll(WorksOf(s.server, p.queue), results);
            var t := Final(s, QueueMoves(pid, results));
            && t.server == s.server && t.executed == s.executed + Executions(p.agent, ran)
            && t.processes == s.processes[pid := p.(queue := [])]
            && Reported(t, s.nextMsg, p.agent, p.secret, ran)
            && forall m :: m in s.reports && m < s.nextMsg ==> m in t.reports && t.reports[m] == s.reports[m]
    decreases |results|
  {
    hide HandleCommand, RanAll, WorksOf, Executions, Reported;
    var p, moves := s.processes[pid], QueueMoves(pid, results);
    if results == [] {
      QueueIsEmpty(s, pid);
    } else {
      RanFront(s.server, p.queue, results);
      var s1 := FirstRun(s, pid, results[0]);
      assert moves[1..] == QueueMoves(pid, results[1..]);
      QueueIsRun(s1, pid, results[1..]);
      hide Do, Enabled;
      var first := Ran(p.queue[0], HandleCommand(s.server.commands[p.queue[0]].action, results[0]));
      var rest := RanAll(WorksOf(s.server, p.queue[1..]), results[1..]);
      var t := Final(s1, moves[1..]);
      ExecutionsFront(s.executed, p.agent, first, rest);
      ReportsFront(t, s.nextMsg, p.agent, p.secret, first, rest);
    }
  }

  lemma {:induction false} QueueIsEmpty(s: Sys, pid: Pid)
    requires pid in s.processes && s.processes[pid].queue == []
    ensures var p := s.processes[pid];
            var ran := RanAll(WorksOf(s.server, []), []);
            && s.executed + Executions(p.agent, ran) == s.executed
            && s.processes[pid := p.(queue := [])] == s.processes
            && Reported(s, s.nextMsg, p.agent, p.secret, ran)
  {
  }

  lemma {:induction false} FirstRun(s: Sys, pid: Pid, result: LocalResult) returns (t: Sys)
    requires pid in s.processes && s.processes[pid].queue != []
    requires s.processes[pid].queue[0] in s.server.commands
    ensures Enabled(s, RunCommand(pid, result)) && t == Do(s, RunCommand(pid, result))
    ensures var p := s.processes[pid];
            var ran := Ran(p.queue[0], HandleCommand(s.server.commands[p.queue[0]].action, result));
            && t.server == s.server && t.nextMsg == s.nextMsg + 1
            && t.processes == s.processes[pid := p.(queue := p.queue[1..])]
            && t.executed == s.executed + [Execution(p.agent, ran.id, ran.outcome)]
            && t.reports == s.reports[s.nextMsg := Report(p.agent, p.secret, ran.id, ran.outcome)]
  {
    hide HandleCommand;
    t := Do(s, RunCommand(pid, result));
  }

  lemma {:induction false} ExecutionsFront(before: seq<Execution>, agent: Id, first: Ran, rest: seq<Ran>)
    ensures before + Executions(agent, [first] + rest)
         == (before + [Execution(agent, first.id, first.outcome)]) + Executions(agent, rest)
  {
    assert Executions(agent, [first] + rest) == [Execution(agent, first.id, first.outcome)] + Executions(agent, rest);
  }

  lemma {:induction false} RanFront(s: Server, ids: seq<Id>, results: seq<LocalResult>)
    requires |results| == |ids| > 0 && forall id :: id in ids ==> id in s.commands
    ensures (forall id :: id in ids[1..] ==> id in ids) && ids[0] in ids
    ensures RanAll(WorksOf(s, ids), results)
         == [Ran(ids[0], HandleCommand(s.commands[ids[0]].action, results[0]))] + RanAll(WorksOf(s, ids[1..]), results[1..])
  {
    hide HandleCommand;
  }

  lemma {:induction false} ReportsFront(t: Sys, from: Msg, agent: Id, secret: Secret, first: Ran, rest: seq<Ran>)
    requires from in t.reports && t.reports[from] == Report(agent, secret, first.id, first.outcome)
    requires Reported(t, from + 1, agent, secret, rest)
    ensures Reported(t, from, agent, secret, [first] + rest)
  {
    var ran := [first] + rest;
    forall m | from <= m < t.nextMsg
      ensures m in t.reports
      ensures t.reports[m] == Report(agent, secret, ran[m - from].id, ran[m - from].outcome)
    {
      if m > from {
        assert ran[m - from] == rest[m - (from + 1)];
      }
    }
  }

  /** A cycle of the agent, as `FleetAgent.Tick` makes it, is a run of the protocol: the response is
      delivered, every command in it is executed once with the outcome the agent computes, in order, and
      one report for each is put on the network. */
  lemma {:induction false} TickIsRun(s: Sys, msg: Msg, results: seq<LocalResult>) returns (moves: seq<Move>)
    requires Inv(s) && Enabled(s, DeliverResponse(msg)) && |results| == |s.responses[msg].commands|
    ensures moves == [DeliverResponse(msg)] + QueueMoves(s.responses[msg].pid, results) && Run(s, moves)
    ensures forall id :: id in s.responses[msg].commands ==> id in s.server.commands
    ensures var (pid, ids) := (s.responses[msg].pid, s.responses[msg].commands);
            var p := s.processes[pid];
            var ran := RanFor(Ok(WorksOf(s.server, ids)), results);
            var t := Final(s, moves);
            && t.server == s.server && t.executed == s.executed + Executions(p.agent, ran)
            && t.processes == s.processes[pid := p.(awaiting := None, queue := [])]
            && Reported(t, s.nextMsg, p.agent, p.secret, ran)
  {
    hide HandleCommand, Placed, Tables, Histories;
    var (pid, ids) := (s.responses[msg].pid, s.responses[msg].commands);
    HeldInFlight(s);
    assert ResponseOk(s, msg);
    assert forall id :: id in ids ==> id in s.server.commands;
    moves := [DeliverResponse(msg)] + QueueMoves(pid, results);
    assert moves[1..] == QueueMoves(pid, results);
    hide InFlight, ResponseOk, ProcessOk, ReportOk;
    QueueIsRun(Do(s, DeliverResponse(msg)), pid, results);
  }
}
