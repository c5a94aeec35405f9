/**
 The center's manager as it runs: module-level dictionaries that its functions update in
 place, with the loops they use.  Every method is proved equal to the table function of
 `AgentTables` that the protocol theorems are about.
 */
module AgentManager {
  import opened Common
  import opened OrderedDict
  import opened AgentTables

  class Manager {
    var connections: map<Url, Sock>
    var collects: map<Rid, Future<Reply>>
    var collectOwners: map<Rid, Sock>
    var tasks: map<Rid, Future<Reply>>
    var taskOwners: map<Rid, Sock>
    var callbacks: map<Rid, Url>
    var terminals: map<Rid, Future<Reply>>
    var probes: map<Rid, Probe>
    var controls: map<Rid, Control>
    var retained: Dict<Rid, Retained>

    function View(): Tables
      reads this
    {
      Tables(connections, collects, collectOwners, tasks, taskOwners, callbacks, terminals, probes, controls, retained)
    }

    constructor ()
      ensures View() == Tables(map[], map[], map[], map[], map[], map[], map[], map[], map[], [])
    {
      connections, collects, collectOwners, tasks, taskOwners := map[], map[], map[], map[], map[];
      callbacks, terminals, probes, controls, retained := map[], map[], map[], map[], [];
    }

    method FailCollectWaiters(ws: Sock)
      modifies this`collects
      ensures collects == FailCollects(old(collects), collectOwners, ws)
    {
      var todo := collectOwners.Keys;
      while todo != {}
        invariant collects.Keys == old(collects).Keys && todo <= collectOwners.Keys
        invariant forall rid :: rid in collects ==>
                    collects[rid] == if rid in todo then old(collects)[rid] else FailCollects(old(collects), collectOwners, ws)[rid]
        decreases |todo|
      {
        var rid :| rid in todo;
        todo := todo - {rid};
        if collectOwners[rid] == ws && rid in collects && collects[rid].Pending? {
          collects := collects[rid := Failed(Disconnected)];
        }
      }
    }

    method FailProbeWaiters(ws: Sock)
      modifies this`probes
      ensures probes == FailProbes(old(probes), ws)
    {
      var todo := probes.Keys;
      while todo != {}
        invariant probes.Keys == old(probes).Keys && todo <= probes.Keys
        invariant forall rid :: rid in probes ==>
                    probes[rid] == if rid in todo then old(probes)[rid] else FailProbes(old(probes), ws)[rid]
        decreases |todo|
      {
        var rid :| rid in todo;
        todo := todo - {rid};
        if probes[rid].owner == ws && probes[rid].future.Pending? {
          probes := probes[rid := probes[rid].(future := Failed(Disconnected))];
        }
      }
    }

    method FailControlWaiters(ws: Sock)
      modifies this`controls
      ensures controls == FailControls(old(controls), ws)
    {
      var todo := controls.Keys;
      while todo != {}
        invariant controls.Keys == old(controls).Keys && todo <= controls.Keys
        invariant forall rid :: rid in controls ==>
                    controls[rid] == if rid in todo then old(controls)[rid] else FailControls(old(controls), ws)[rid]
        decreases |todo|
      {
        var rid :| rid in todo;
        todo := todo - {rid};
        if controls[rid].owner == ws && controls[rid].future.Pending? {
          controls := controls[rid := controls[rid].(future := Failed(Disconnected))];
        }
      }
    }

    method FailTaskWaiter(rid: Rid)
      modifies this`terminals, this`tasks, this`callbacks
      ensures terminals == if rid in old(terminals) then old(terminals)[rid := Settle(old(terminals)[rid], Failed(Disconnected))]
                           else old(terminals)
      ensures tasks == if rid in old(tasks) then old(tasks)[rid := Settle(old(tasks)[rid], Settled(DisconnectReply(rid)))]
                       else old(tasks)
      ensures callbacks == Pop(old(callbacks), rid)
    {
      if rid in terminals && terminals[rid].Pending? {
        terminals := terminals[rid := Failed(Disconnected)];
      }
      if rid in tasks && tasks[rid].Pending? {
        tasks := tasks[rid := Settled(DisconnectReply(rid))];
      }
      callbacks := Pop(callbacks, rid);
    }

    /** The loop over the dead requests of one agent. */
    method FailTaskWaiters(url: Url)
      modifies this`terminals, this`tasks, this`callbacks
      ensures terminals == FailTerminals(old(terminals), old(callbacks), url)
      ensures tasks == FailTasks(old(tasks), old(callbacks), url)
      ensures callbacks == DropCallbacks(old(callbacks), url)
    {
      var dead: set<Rid> := set rid: Rid | rid in callbacks && callbacks[rid] == url;
      while dead != {}
        invariant FailTerminals(terminals, callbacks, url) == FailTerminals(old(terminals), old(callbacks), url)
        invariant FailTasks(tasks, callbacks, url) == FailTasks(old(tasks), old(callbacks), url)
        invariant DropCallbacks(callbacks, url) == DropCallbacks(old(callbacks), url)
        invariant forall rid :: rid in dead <==> CallsBack(callbacks, rid, url)
        decreases |dead|
      {
        var rid :| rid in dead;
        dead := dead - {rid};
        FailTaskWaiter(rid);
      }
      forall rid | rid in callbacks ensures callbacks[rid] != url {
        assert rid !in dead;
        assert !CallsBack(callbacks, rid, url);
      }
    }

    method UnregisterConnection(url: Url, source: Option<Sock>) returns (done: bool)
      modifies this
      ensures View() == Unregister(old(View()), url, source)
      ensures done == Unregisters(old(View()), url, source)
    {
      if url !in connections || (source.Some? && connections[url] != source.value) {
        return false;
      }
      var current := connections[url];
      FailCollectWaiters(current);
      FailProbeWaiters(current);
      FailControlWaiters(current);
      connections := Pop(connections, url);
      FailTaskWaiters(url);
      return true;
    }

    method RegisterConnection(url: Url, ws: Sock)
      modifies this
      ensures View() == Register(old(View()), url, ws)
    {
      if url in connections && connections[url] != ws {
        var _ := UnregisterConnection(url, Some(connections[url]));
      }
      connections := connections[url := ws];
    }

    /** Expired entries go first, wherever they are; then the oldest, down to the limit. */
    method PruneRetained(now: real)
      modifies this`retained
      ensures retained == Prune(old(retained), now)
    {
      var items, i := retained, 0;
      retained := [];
      while i < |items|
        invariant 0 <= i <= |items| && retained == Keep(items[..i], Unexpired(now))
      {
        assert items[..i + 1][..i] == items[..i];
        if items[i].val.expiresAt > now {
          retained := retained + [items[i]];
        }
        i := i + 1;
      }
      assert items[..i] == items;
      while |retained| > RETAINED_LIMIT
        invariant Newest(retained, RETAINED_LIMIT) == Prune(items, now)
      {
        retained := retained[1..];
      }
    }

    /** Evidence is recorded whether or not anybody still waits for the task. */
    method RecordEvidence(rid: Rid, reply: Reply, ws: Sock, now: real)
      modifies this`retained
      ensures retained == EvidenceAfter(old(retained), connections, rid, reply, ws, now)
    {
      PruneRetained(now);
      var entry := Find(retained, rid);
      if entry.Some? && entry.value.owner == Some(ws) && Get(connections, entry.value.url) == Some(ws)
         && Confirmed(reply, rid) && entry.value.proof.None? {
        retained := Replace(retained, rid, entry.value.(proof := Some(CleanupProof(reply, rid)), owner := None));
      }
    }

    method ResolveAgentResult(rid: Rid, reply: Reply, ws: Sock, now: real)
      modifies this`retained, this`terminals, this`tasks
      ensures View() == ResolveResult(old(View()), rid, reply, ws, now)
    {
      RecordEvidence(rid, reply, ws, now);
      if Get(taskOwners, rid) != Some(ws) {
        return;
      }
      if rid in terminals && Confirmed(reply, rid) && terminals[rid].Pending? {
        terminals := terminals[rid := Settled(reply)];
      }
      if rid in tasks && tasks[rid].Pending? {
        tasks := tasks[rid := Settled(reply)];
      }
    }

    method ResolveCollectResponse(rid: Rid, reply: Reply, ws: Sock)
      modifies this`collects
      ensures View() == ResolveResponse(old(View()), rid, reply, ws)
    {
      if Get(collectOwners, rid) != Some(ws) || rid !in collects || !collects[rid].Pending? {
        return;
      }
      collects := collects[rid := Settled(reply)];
    }

    method ResolveTaskStatus(rid: Rid, about: Rid, result: StatusResult, ws: Sock)
      modifies this`probes
      ensures View() == ResolveStatus(old(View()), rid, about, result, ws)
    {
      if rid !in probes { return; }
      var probe := probes[rid];
      if !probe.future.Pending? || ws != probe.owner || Get(connections, probe.url) != Some(ws) || about != probe.taskId {
        return;
      }
      var answer := Interpret(probe.taskId, result);
      if answer.Some? {
        probes := probes[rid := probe.(future := Settled(answer.value))];
      }
    }
  }
}
