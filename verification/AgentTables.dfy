/**
 The center's tables for the reverse channel (backend/ws_agent_manager.py): who is connected,
 who waits for what, and which cleanup evidence is retained.  Sockets are opaque identities,
 futures are single-assignment cells, and each function below is one stretch of code that
 runs without an `await`.
 */
module AgentTables {
  import opened Common
  import opened OrderedDict

  // Agent urls, sockets and request ids are only ever compared: identities.
  type Url = nat
  type Sock = nat
  type Rid = nat

  const RETAINED_LIMIT: nat := 1024
  const RETAINED_SECONDS: real := 3600.0

  datatype Kind = Done | Error | OtherKind

  datatype ErrorType = CancelledError | AgentDisconnected | OtherError | NoErrorType

  /** A terminal as it arrives; `cleanupComplete` says whether the field is literally `True`. */
  datatype Reply =
    | NotADict
    | Reply(kind: Kind, taskId: Option<Rid>, cleanupComplete: bool, errorType: ErrorType, body: nat)

  datatype Failure = Disconnected | CallbackFailed

  /** A future: pending, or settled once and for all. */
  datatype Future<T> = Pending | Settled(value: T) | Failed(why: Failure) | Cancelled

  /** The bounded cleanup evidence the center keeps; never native output. */
  datatype Proof = Proof(taskId: Rid, kind: Kind, cancelled: bool)

  datatype Retained = Retained(url: Url, owner: Option<Sock>, expiresAt: real, proof: Option<Proof>)

  datatype ProbeAnswer = Evidence(proof: Proof) | RunningAnswer | UnknownAnswer

  datatype Probe = Probe(url: Url, taskId: Rid, owner: Sock, future: Future<ProbeAnswer>)

  datatype Control = Control(url: Url, owner: Sock, future: Future<nat>)

  datatype Tables = Tables(
    connections: map<Url, Sock>,
    collects: map<Rid, Future<Reply>>,
    collectOwners: map<Rid, Sock>,
    tasks: map<Rid, Future<Reply>>,
    taskOwners: map<Rid, Sock>,
    callbacks: map<Rid, Url>,
    terminals: map<Rid, Future<Reply>>,
    probes: map<Rid, Probe>,
    controls: map<Rid, Control>,
    retained: Dict<Rid, Retained>)

  predicate Confirmed(reply: Reply, rid: Rid) {
    && reply.Reply?
    && reply.taskId == Some(rid)
    && (reply.kind.Done? || reply.kind.Error?)
    && reply.cleanupComplete
  }

  function CleanupProof(reply: Reply, rid: Rid): Proof
    requires reply.Reply?
  {
    Proof(rid, reply.kind, reply.errorType == CancelledError)
  }

  /** The terminal that a disconnect puts in place of the missing one; it confirms nothing. */
  function DisconnectReply(rid: Rid): Reply {
    Reply(Error, Some(rid), false, AgentDisconnected, 0)
  }

  // ----- settling futures --------------------------------------------------------------

  function Settle<T>(f: Future<T>, outcome: Future<T>): (r: Future<T>)
    requires !outcome.Pending?
  {
    if f.Pending? then outcome else f
  }

  // ----- connections -------------------------------------------------------------------

  predicate Current(t: Tables, url: Url, ws: Sock) {
    url in t.connections && t.connections[url] == ws
  }

  function FailCollects(collects: map<Rid, Future<Reply>>, owners: map<Rid, Sock>, ws: Sock): map<Rid, Future<Reply>> {
    map rid | rid in collects ::
      if Get(owners, rid) == Some(ws) then Settle(collects[rid], Failed(Disconnected)) else collects[rid]
  }

  function FailProbe(p: Probe, ws: Sock): Probe {
    if p.owner == ws then p.(future := Settle(p.future, Failed(Disconnected))) else p
  }

  function FailProbes(probes: map<Rid, Probe>, ws: Sock): map<Rid, Probe> {
    map rid | rid in probes :: FailProbe(probes[rid], ws)
  }

  function FailControl(c: Control, ws: Sock): Control {
    if c.owner == ws then c.(future := Settle(c.future, Failed(Disconnected))) else c
  }

  function FailControls(controls: map<Rid, Control>, ws: Sock): map<Rid, Control> {
    map rid | rid in controls :: FailControl(controls[rid], ws)
  }

  predicate CallsBack(callbacks: map<Rid, Url>, rid: Rid, url: Url) {
    rid in callbacks && callbacks[rid] == url
  }

  function FailTerminals(terminals: map<Rid, Future<Reply>>, callbacks: map<Rid, Url>, url: Url): map<Rid, Future<Reply>> {
    map rid | rid in terminals ::
      if CallsBack(callbacks, rid, url) then Settle(terminals[rid], Failed(Disconnected)) else terminals[rid]
  }

  function FailTasks(tasks: map<Rid, Future<Reply>>, callbacks: map<Rid, Url>, url: Url): map<Rid, Future<Reply>> {
    map rid | rid in tasks ::
      if CallsBack(callbacks, rid, url) then Settle(tasks[rid], Settled(DisconnectReply(rid))) else tasks[rid]
  }

  function DropCallbacks(callbacks: map<Rid, Url>, url: Url): map<Rid, Url> {
    map rid | rid in callbacks && callbacks[rid] != url :: callbacks[rid]
  }

  /** Whether `unregister_connection(url, source)` finds the connection it is meant for. */
  predicate Unregisters(t: Tables, url: Url, source: Option<Sock>) {
    url in t.connections && (source.Some? ==> t.connections[url] == source.value)
  }

  function Unregister(t: Tables, url: Url, source: Option<Sock>): Tables {
    if !Unregisters(t, url, source) then t
    else
      var ws := t.connections[url];
      t.(collects := FailCollects(t.collects, t.collectOwners, ws),
         probes := FailProbes(t.probes, ws), controls := FailControls(t.controls, ws),
         connections := Pop(t.connections, url),
         terminals := FailTerminals(t.terminals, t.callbacks, url),
         tasks := FailTasks(t.tasks, t.callbacks, url), callbacks := DropCallbacks(t.callbacks, url))
  }

  function Register(t: Tables, url: Url, ws: Sock): Tables {
    var cleared := if url in t.connections && t.connections[url] != ws
                   then Unregister(t, url, Some(t.connections[url])) else t;
    cleared.(connections := cleared.connections[url := ws])
  }

  // ----- retained evidence ---------------------------------------------------------------

  function Unexpired(now: real): Entry<Rid, Retained> -> bool {
    (e: Entry<Rid, Retained>) => e.val.expiresAt > now
  }

  function Prune(d: Dict<Rid, Retained>, now: real): Dict<Rid, Retained> {
    Newest(Keep(d, Unexpired(now)), RETAINED_LIMIT)
  }

  function Retain(t: Tables, rid: Rid, url: Url, ws: Sock, now: real): Tables {
    t.(retained := Prune(t.retained + [Entry(rid, Retained(url, Some(ws), now + RETAINED_SECONDS, None))], now))
  }

  /** The evidence a caller can read: only under the key of the agent the task was sent to. */
  function ReadProof(t: Tables, key: Url -> string, agentKey: string, rid: Rid): Option<Proof> {
    var entry := Find(t.retained, rid);
    if entry.None? || key(entry.value.url) != agentKey then None else entry.value.proof
  }

  // ----- frames from the edge ----------------------------------------------------------------

  /** Whether an `agent_result` is entitled to become the retained evidence of its dispatch. */
  predicate ProvesCleanup(entry: Retained, connections: map<Url, Sock>, rid: Rid, reply: Reply, ws: Sock) {
    && entry.owner == Some(ws)
    && Get(connections, entry.url) == Some(ws)
    && Confirmed(reply, rid)
    && entry.proof.None?
  }

  /** The first half of `resolve_agent_result`: prune, then record evidence. */
  function EvidenceAfter(d: Dict<Rid, Retained>, connections: map<Url, Sock>, rid: Rid, reply: Reply, ws: Sock, now: real)
    : Dict<Rid, Retained>
  {
    var pruned := Prune(d, now);
    var entry := Find(pruned, rid);
    if entry.Some? && ProvesCleanup(entry.value, connections, rid, reply, ws)
    then Replace(pruned, rid, entry.value.(proof := Some(CleanupProof(reply, rid)), owner := None))
    else pruned
  }

  /** The second half: settle the waiters of the task, if this socket owns it. */
  function SettleTask(t: Tables, rid: Rid, reply: Reply, ws: Sock): Tables {
    if Get(t.taskOwners, rid) != Some(ws) then t
    else
      var terminals := if rid in t.terminals && Confirmed(reply, rid)
                       then t.terminals[rid := Settle(t.terminals[rid], Settled(reply))] else t.terminals;
      var tasks := if rid in t.tasks then t.tasks[rid := Settle(t.tasks[rid], Settled(reply))] else t.tasks;
      t.(terminals := terminals, tasks := tasks)
  }

  function ResolveResult(t: Tables, rid: Rid, reply: Reply, ws: Sock, now: real): Tables {
    SettleTask(t.(retained := EvidenceAfter(t.retained, t.connections, rid, reply, ws, now)), rid, reply, ws)
  }

  /** The ownership test of `resolve_agent_event`. */
  predicate AcceptsEvent(t: Tables, rid: Rid, ws: Sock) {
    rid in t.callbacks && Current(t, t.callbacks[rid], ws)
  }

  /** A callback that raised, or an acknowledgement that could not be sent, fails the task's waiter. */
  function FailEvent(t: Tables, rid: Rid): Tables {
    if rid in t.tasks then t.(tasks := t.tasks[rid := Settle(t.tasks[rid], Failed(CallbackFailed))]) else t
  }

  function ResolveResponse(t: Tables, rid: Rid, reply: Reply, ws: Sock): Tables {
    if Get(t.collectOwners, rid) == Some(ws) && rid in t.collects
    then t.(collects := t.collects[rid := Settle(t.collects[rid], Settled(reply))]) else t
  }

  datatype StatusResult = Terminal(reply: Reply) | StatusIs(running: bool) | Garbage

  /** What a status frame says about the task, if anything. */
  function Interpret(taskId: Rid, result: StatusResult): Option<ProbeAnswer> {
    match result
    case Terminal(reply) =>
      if Confirmed(reply, taskId) then Some(Evidence(CleanupProof(reply, taskId)))
      else if reply.Reply? && reply.taskId == Some(taskId) && (reply.kind.Done? || reply.kind.Error?)
      then Some(UnknownAnswer) else None
    case StatusIs(running) => Some(if running then RunningAnswer else UnknownAnswer)
    case Garbage => None
  }

  function ResolveStatus(t: Tables, rid: Rid, taskId: Rid, result: StatusResult, ws: Sock): Tables {
    if rid !in t.probes then t
    else
      var probe := t.probes[rid];
      if !probe.future.Pending? || ws != probe.owner || !Current(t, probe.url, ws) || taskId != probe.taskId then t
      else
        var answer := Interpret(probe.taskId, result);
        if answer.None? then t
        else t.(probes := t.probes[rid := probe.(future := Settled(answer.value))])
  }

  // ----- waiters come and go -------------------------------------------------------------------

  /** The first segment of `send_agent_task`, once the connection has been looked up. */
  function AddTask(t: Tables, rid: Rid, url: Url, ws: Sock, strict: bool): Tables {
    t.(tasks := t.tasks[rid := Pending], taskOwners := t.taskOwners[rid := ws], callbacks := t.callbacks[rid := url],
       terminals := if strict then t.terminals[rid := Pending] else t.terminals)
  }

  /** Its `finally` block. */
  function DropTask(t: Tables, rid: Rid): Tables {
    t.(tasks := Pop(t.tasks, rid), taskOwners := Pop(t.taskOwners, rid),
       callbacks := Pop(t.callbacks, rid), terminals := Pop(t.terminals, rid))
  }

  // ----- the invariant ---------------------------------------------------------------------------

  /** A task that still has its callback is owned by the socket connected for its agent. */
  ghost predicate OwnersAreCurrent(t: Tables) {
    forall rid :: rid in t.callbacks ==>
      rid in t.taskOwners && Current(t, t.callbacks[rid], t.taskOwners[rid])
  }

  /** A task that has lost its callback has nobody left waiting on a pending future. */
  ghost predicate OrphansAreSettled(t: Tables) {
    forall rid :: rid in t.tasks && rid !in t.callbacks ==>
      !t.tasks[rid].Pending? && (rid in t.terminals ==> !t.terminals[rid].Pending?)
  }

  ghost predicate Keyed(t: Tables) {
    && t.taskOwners.Keys == t.tasks.Keys
    && t.callbacks.Keys <= t.tasks.Keys
    && t.terminals.Keys <= t.tasks.Keys
    && t.collectOwners.Keys == t.collects.Keys
  }

  ghost predicate Coherent(t: Tables) {
    Keyed(t) && OwnersAreCurrent(t) && OrphansAreSettled(t)
  }

  lemma UnregisterCoherent(t: Tables, url: Url, source: Option<Sock>)
    requires Coherent(t)
    ensures Coherent(Unregister(t, url, source))
  {
    if Unregisters(t, url, source) {
      var u := Unregister(t, url, source);
      forall rid | rid in u.tasks && rid !in u.callbacks
        ensures !u.tasks[rid].Pending? && (rid in u.terminals ==> !u.terminals[rid].Pending?)
      {
        assert rid in t.callbacks ==> CallsBack(t.callbacks, rid, url);
      }
    }
  }

  lemma ConnectCoherent(t: Tables, url: Url, ws: Sock)
    requires Coherent(t)
    requires url in t.connections ==> t.connections[url] == ws
    ensures Coherent(t.(connections := t.connections[url := ws]))
  {
    var r := t.(connections := t.connections[url := ws]);
    forall rid | rid in r.callbacks ensures Current(r, r.callbacks[rid], r.taskOwners[rid]) {
      assert Current(t, t.callbacks[rid], t.taskOwners[rid]);
    }
  }

  lemma RegisterCoherent(t: Tables, url: Url, ws: Sock)
    requires Coherent(t)
    ensures Coherent(Register(t, url, ws))
  {
    if url in t.connections && t.connections[url] != ws {
      UnregisterCoherent(t, url, Some(t.connections[url]));
      ConnectCoherent(Unregister(t, url, Some(t.connections[url])), url, ws);
    } else {
      ConnectCoherent(t, url, ws);
    }
  }

  /** Retained evidence plays no part in who owns or awaits what. */
  lemma RetainedIrrelevant(t: Tables, d: Dict<Rid, Retained>)
    requires Coherent(t)
    ensures Coherent(t.(retained := d))
  {
  }

  lemma SettleTaskCoherent(t: Tables, rid: Rid, reply: Reply, ws: Sock)
    requires Coherent(t)
    ensures Coherent(SettleTask(t, rid, reply, ws))
  {
  }

  lemma AddTaskCoherent(t: Tables, rid: Rid, url: Url, ws: Sock, strict: bool)
    requires Coherent(t) && rid !in t.tasks && Current(t, url, ws)
    ensures Coherent(AddTask(t, rid, url, ws, strict))
  {
  }

  lemma DropTaskCoherent(t: Tables, rid: Rid)
    requires Coherent(t)
    ensures Coherent(DropTask(t, rid))
  {
  }

  lemma FailEventCoherent(t: Tables, rid: Rid)
    requires Coherent(t)
    ensures Coherent(FailEvent(t, rid))
  {
  }

  /** The two ways the center decides who may speak for a task give the same answer. */
  lemma OwnershipTestsAgree(t: Tables, rid: Rid, ws: Sock)
    requires Coherent(t) && rid in t.callbacks
    ensures AcceptsEvent(t, rid, ws) <==> Get(t.taskOwners, rid) == Some(ws)
  {
  }

  /** Request `rid` does not wait for anything from socket `ws`. */
  predicate Released(t: Tables, ws: Sock, rid: Rid) {
    && (rid in t.collects && Get(t.collectOwners, rid) == Some(ws) ==> !t.collects[rid].Pending?)
    && (rid in t.tasks && Get(t.taskOwners, rid) == Some(ws) ==> !t.tasks[rid].Pending?)
    && (rid in t.terminals && Get(t.taskOwners, rid) == Some(ws) ==> !t.terminals[rid].Pending?)
    && (rid in t.probes && t.probes[rid].owner == ws ==> !t.probes[rid].future.Pending?)
    && (rid in t.controls && t.controls[rid].owner == ws ==> !t.controls[rid].future.Pending?)
  }

  /** The socket connected for `url` is also connected for another agent, and owes that agent's task `rid` an answer. */
  predicate HeldElsewhere(t: Tables, url: Url, rid: Rid)
    requires url in t.connections
  {
    && rid in t.callbacks && t.callbacks[rid] != url
    && Get(t.taskOwners, rid) == Some(t.connections[url])
    && ((rid in t.tasks && t.tasks[rid].Pending?) || (rid in t.terminals && t.terminals[rid].Pending?))
  }

  /**
   After a successful unregistration nobody waits any longer on the transport that went away,
   except for tasks that were sent over it in the name of another agent.
   */
  lemma NoWaiterSurvivesDisconnect(t: Tables, url: Url, source: Option<Sock>, rid: Rid)
    requires Coherent(t) && Unregisters(t, url, source)
    ensures Released(Unregister(t, url, source), t.connections[url], rid) <==> !HeldElsewhere(t, url, rid)
  {
    DisconnectSettles(t, url, source, rid);
  }

  /** The waiters of the socket in every table but those of tasks; and the tasks of the agent. */
  lemma DisconnectSettles(t: Tables, url: Url, source: Option<Sock>, rid: Rid)
    requires Unregisters(t, url, source)
    ensures var u, ws := Unregister(t, url, source), t.connections[url];
            && (rid in u.collects && Get(u.collectOwners, rid) == Some(ws) ==> !u.collects[rid].Pending?)
            && (rid in u.probes && u.probes[rid].owner == ws ==> !u.probes[rid].future.Pending?)
            && (rid in u.controls && u.controls[rid].owner == ws ==> !u.controls[rid].future.Pending?)
            && (CallsBack(t.callbacks, rid, url) && rid in u.tasks ==> !u.tasks[rid].Pending?)
            && (CallsBack(t.callbacks, rid, url) && rid in u.terminals ==> !u.terminals[rid].Pending?)
            && (!CallsBack(t.callbacks, rid, url) ==> Get(u.tasks, rid) == Get(t.tasks, rid))
            && (!CallsBack(t.callbacks, rid, url) ==> Get(u.terminals, rid) == Get(t.terminals, rid))
  {
  }

  /** A socket that is connected for one agent only owes nobody else. */
  lemma OneAgentHoldsNothingElsewhere(t: Tables, url: Url, rid: Rid)
    requires Coherent(t) && url in t.connections
    requires forall u :: u in t.connections && t.connections[u] == t.connections[url] ==> u == url
    ensures !HeldElsewhere(t, url, rid)
  {
    if rid in t.callbacks {
      assert Current(t, t.callbacks[rid], t.taskOwners[rid]);
    }
  }

  // ----- futures are settled once ------------------------------------------------------------

  /** A future that is settled in the one table and still there in the other has the same outcome. */
  ghost predicate FuturesKept<T(!new)>(m: map<Rid, Future<T>>, n: map<Rid, Future<T>>) {
    forall rid :: rid in m && rid in n && !m[rid].Pending? ==> n[rid] == m[rid]
  }

  ghost predicate ProbesKept(m: map<Rid, Probe>, n: map<Rid, Probe>) {
    forall rid :: rid in m && rid in n && !m[rid].future.Pending? ==> n[rid] == m[rid]
  }

  ghost predicate ControlsKept(m: map<Rid, Control>, n: map<Rid, Control>) {
    forall rid :: rid in m && rid in n && !m[rid].future.Pending? ==> n[rid] == m[rid]
  }

  ghost predicate OutcomesKept(t: Tables, u: Tables) {
    && FuturesKept(t.collects, u.collects)
    && FuturesKept(t.tasks, u.tasks)
    && FuturesKept(t.terminals, u.terminals)
    && ProbesKept(t.probes, u.probes)
    && ControlsKept(t.controls, u.controls)
  }

  lemma UnregisterKeepsOutcomes(t: Tables, url: Url, source: Option<Sock>)
    ensures OutcomesKept(t, Unregister(t, url, source))
  {
  }

  lemma RegisterKeepsOutcomes(t: Tables, url: Url, ws: Sock)
    ensures OutcomesKept(t, Register(t, url, ws))
  {
    if url in t.connections && t.connections[url] != ws {
      UnregisterKeepsOutcomes(t, url, Some(t.connections[url]));
    }
  }

  lemma SettleTaskKeepsOutcomes(t: Tables, rid: Rid, reply: Reply, ws: Sock)
    ensures OutcomesKept(t, SettleTask(t, rid, reply, ws))
  {
  }

  lemma ResultKeepsOutcomes(t: Tables, rid: Rid, reply: Reply, ws: Sock, now: real)
    ensures OutcomesKept(t, ResolveResult(t, rid, reply, ws, now))
  {
    var u := t.(retained := EvidenceAfter(t.retained, t.connections, rid, reply, ws, now));
    SettleTaskKeepsOutcomes(u, rid, reply, ws);
    OutcomesIgnoreEvidence(t, u.retained, SettleTask(u, rid, reply, ws));
  }

  lemma OutcomesIgnoreEvidence(t: Tables, d: Dict<Rid, Retained>, u: Tables)
    requires OutcomesKept(t.(retained := d), u)
    ensures OutcomesKept(t, u)
  {
  }

  lemma ResponseKeepsOutcomes(t: Tables, rid: Rid, reply: Reply, ws: Sock)
    ensures OutcomesKept(t, ResolveResponse(t, rid, reply, ws))
  {
  }

  lemma StatusKeepsOutcomes(t: Tables, rid: Rid, taskId: Rid, result: StatusResult, ws: Sock)
    ensures OutcomesKept(t, ResolveStatus(t, rid, taskId, result, ws))
  {
  }

  lemma EventKeepsOutcomes(t: Tables, rid: Rid)
    ensures OutcomesKept(t, FailEvent(t, rid))
  {
  }

  // ----- what frames and disconnects do ------------------------------------------------------------

  /**
   A disconnect fails exactly the pending waiters of its socket, and of its agent's tasks, and
   leaves every other one as it is; a disconnect that names another socket than the current one,
   or an agent that is not connected, changes nothing.
   */
  lemma DisconnectFailsItsOwn(t: Tables, url: Url, source: Option<Sock>, rid: Rid)
    ensures var u := Unregister(t, url, source);
            if url !in t.connections || (source.Some? && source.value != t.connections[url]) then u == t
            else
              var ws := t.connections[url];
              && url !in u.connections && (forall v :: v != url ==> Get(u.connections, v) == Get(t.connections, v))
              && Get(u.collects, rid) == (if rid in t.collects && t.collects[rid].Pending? && Get(t.collectOwners, rid) == Some(ws)
                                          then Some(Failed(Disconnected)) else Get(t.collects, rid))
              && Get(u.probes, rid) == (if rid in t.probes && t.probes[rid].future.Pending? && t.probes[rid].owner == ws
                                        then Some(t.probes[rid].(future := Failed(Disconnected))) else Get(t.probes, rid))
              && Get(u.controls, rid) == (if rid in t.controls && t.controls[rid].future.Pending? && t.controls[rid].owner == ws
                                          then Some(t.controls[rid].(future := Failed(Disconnected))) else Get(t.controls, rid))
              && Get(u.terminals, rid) == (if rid in t.terminals && t.terminals[rid].Pending? && Get(t.callbacks, rid) == Some(url)
                                           then Some(Failed(Disconnected)) else Get(t.terminals, rid))
              && Get(u.tasks, rid) == (if rid in t.tasks && t.tasks[rid].Pending? && Get(t.callbacks, rid) == Some(url)
                                       then Some(Settled(Reply(Error, Some(rid), false, AgentDisconnected, 0))) else Get(t.tasks, rid))
              && Get(u.callbacks, rid) == (if Get(t.callbacks, rid) == Some(url) then None else Get(t.callbacks, rid))
  {
  }

  /** A connection replaces the agent's old one, whose waiters it fails, and is current from then on. */
  lemma ConnectReplaces(t: Tables, url: Url, ws: Sock)
    ensures Get(Register(t, url, ws).connections, url) == Some(ws)
    ensures forall v :: v != url ==> Get(Register(t, url, ws).connections, v) == Get(t.connections, v)
    ensures var cleared := if url in t.connections && t.connections[url] != ws then Unregister(t, url, None) else t;
            Register(t, url, ws).(connections := cleared.connections) == cleared
  {
    assert url in t.connections ==> Unregister(t, url, Some(t.connections[url])) == Unregister(t, url, None);
  }

  /** A collect waiter takes the first response of the socket that owns it, and no other. */
  lemma OwnerAnswersCollect(t: Tables, rid: Rid, reply: Reply, ws: Sock, other: Rid)
    ensures Get(ResolveResponse(t, rid, reply, ws).collects, other)
            == if other == rid && rid in t.collects && t.collects[rid].Pending? && Get(t.collectOwners, rid) == Some(ws)
               then Some(Settled(reply)) else Get(t.collects, other)
  {
  }

  /**
   A status frame answers a pending probe of its own, still current socket that asked about the
   very task: with evidence where the terminal confirms the cleanup, with `running` where it says
   so, with `unknown` where it says so or reports an unconfirmed end of the task.  Any other frame
   is dropped.
   */
  lemma ProbeIsAnswered(t: Tables, rid: Rid, about: Rid, result: StatusResult, ws: Sock)
    ensures var u := ResolveStatus(t, rid, about, result, ws);
            if rid in t.probes && t.probes[rid].future.Pending? && t.probes[rid].owner == ws
               && Get(t.connections, t.probes[rid].url) == Some(ws) && t.probes[rid].taskId == about
            then
              var answer :=
                if result == StatusIs(true) then Some(RunningAnswer)
                else if result == StatusIs(false) then Some(UnknownAnswer)
                else if result.Terminal? && result.reply.Reply? && result.reply.taskId == Some(about) && result.reply.kind in {Done, Error}
                then Some(if result.reply.cleanupComplete
                          then Evidence(Proof(about, result.reply.kind, result.reply.errorType.CancelledError?)) else UnknownAnswer)
                else None;
              u == if answer.Some? then t.(probes := t.probes[rid := t.probes[rid].(future := Settled(answer.value))]) else t
            else u == t
  {
  }

  /**
   An `agent_result` becomes evidence exactly where the entry of its dispatch is retained, without
   a proof yet, for the socket it came on, which is still current, and the terminal confirms the
   cleanup; the proof says which task it was, how it ended and whether it was cancelled.
   */
  lemma EvidenceIsRecordedIff(d: Dict<Rid, Retained>, connections: map<Url, Sock>, rid: Rid, reply: Reply, ws: Sock, now: real)
    ensures var pruned := Prune(d, now);
            var entry := Find(pruned, rid);
            EvidenceAfter(d, connections, rid, reply, ws, now)
            == if && entry.Some? && entry.value.owner == Some(ws) && entry.value.proof.None?
                  && Get(connections, entry.value.url) == Some(ws)
                  && reply.Reply? && reply.taskId == Some(rid) && reply.kind in {Done, Error} && reply.cleanupComplete
               then Replace(pruned, rid, Retained(entry.value.url, None, entry.value.expiresAt,
                                                  Some(Proof(rid, reply.kind, reply.errorType.CancelledError?))))
               else pruned
  {
  }

  /** Evidence is read by the key of the agent the task was dispatched to, and only then. */
  lemma EvidenceIsReadIff(t: Tables, key: Url -> string, agentKey: string, rid: Rid)
    ensures ReadProof(t, key, agentKey, rid)
            == if Find(t.retained, rid).Some? && key(Find(t.retained, rid).value.url) == agentKey
               then Find(t.retained, rid).value.proof else None
  {
  }

  // ----- retained evidence ---------------------------------------------------------------------

  lemma PruneMembers(d: Dict<Rid, Retained>, now: real, e: Entry<Rid, Retained>)
    requires e in Prune(d, now)
    ensures e in d && e.val.expiresAt > now
  {
    KeepMembers(d, Unexpired(now));
    assert e in Keep(d, Unexpired(now));
  }

  /** A new dispatch survives the pruning that follows it, as the newest entry. */
  lemma RetainedIsNewest(t: Tables, rid: Rid, url: Url, ws: Sock, now: real)
    ensures var d := Retain(t, rid, url, ws, now).retained;
            d != [] && d[|d| - 1] == Entry(rid, Retained(url, Some(ws), now + RETAINED_SECONDS, None))
  {
    var e := Entry(rid, Retained(url, Some(ws), now + RETAINED_SECONDS, None));
    KeepAppend(t.retained, [e], Unexpired(now));
    assert [e][..0] == [] && Unexpired(now)(e);
  }

  lemma PruneUnique(d: Dict<Rid, Retained>, now: real)
    requires Unique(d)
    ensures Unique(Prune(d, now))
  {
    KeepUnique(d, Unexpired(now));
  }

  /** Pruning keeps exactly the newest 1024 unexpired entries. */
  lemma PruneKeepsNewestUnexpired(d: Dict<Rid, Retained>, now: real, i: nat)
    requires Unique(d) && i < |d|
    ensures d[i] in Prune(d, now) <==>
            d[i].val.expiresAt > now && |Keep(d[i + 1..], Unexpired(now))| < RETAINED_LIMIT
    ensures |Prune(d, now)| <= RETAINED_LIMIT
  {
    NewestSurvivors(d, Unexpired(now), RETAINED_LIMIT, i);
  }

  lemma ReplaceUnique(d: Dict<Rid, Retained>, rid: Rid, v: Retained)
    requires Unique(d)
    ensures Unique(Replace(d, rid, v))
    ensures forall e :: e in Replace(d, rid, v) ==> (e in d && e.key != rid) || e == Entry(rid, v)
  {
    forall e | e in Replace(d, rid, v) ensures (e in d && e.key != rid) || e == Entry(rid, v) {
      var i :| 0 <= i < |d| && Replace(d, rid, v)[i] == e;
    }
  }

  /**
   What one `agent_result` can do to the evidence: every entry it leaves was there before,
   unchanged, or is the entry of its own request gaining its first proof from a confirmed
   terminal that came on the dispatching socket while that socket was current.
   */
  lemma EvidenceWrittenOnce(d: Dict<Rid, Retained>, connections: map<Url, Sock>, rid: Rid, reply: Reply, ws: Sock,
                            now: real, after: Entry<Rid, Retained>)
    requires Unique(d)
    requires after in EvidenceAfter(d, connections, rid, reply, ws, now)
    ensures Unique(EvidenceAfter(d, connections, rid, reply, ws, now))
    ensures after in d || (
              && after.key == rid
              && Confirmed(reply, rid)
              && after.val.proof == Some(CleanupProof(reply, rid))
              && after.val.owner.None?
              && Get(connections, after.val.url) == Some(ws)
              && Entry(rid, after.val.(proof := None, owner := Some(ws))) in d)
  {
    var pruned := Prune(d, now);
    PruneUnique(d, now);
    var entry := Find(pruned, rid);
    if entry.Some? && ProvesCleanup(entry.value, connections, rid, reply, ws) {
      ReplaceUnique(pruned, rid, entry.value.(proof := Some(CleanupProof(reply, rid)), owner := None));
      PruneMembers(d, now, Entry(rid, entry.value));
      if after.key != rid {
        PruneMembers(d, now, after);
      } else {
        assert after.val.(proof := None, owner := Some(ws)) == entry.value;
      }
    } else {
      PruneMembers(d, now, after);
    }
  }

  /** Evidence is only handed out under the key of the agent the task was dispatched to. */
  lemma EvidenceStaysWithItsAgent(t: Tables, key: Url -> string, agentKey: string, rid: Rid)
    requires ReadProof(t, key, agentKey, rid).Some?
    ensures exists r: Retained :: Entry(rid, r) in t.retained && key(r.url) == agentKey
                                  && r.proof == ReadProof(t, key, agentKey, rid)
  {
    var r := Find(t.retained, rid).value;
    assert Entry(rid, r) in t.retained;
  }
}
