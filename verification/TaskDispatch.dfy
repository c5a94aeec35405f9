/**
 `send_agent_task` and the calls that share its tables, as a transition system
 (backend/ws_agent_manager.py).  Code between two `await`s is one step; a step that is not
 possible in a state leaves it unchanged, so every sequence of labels is a run and the
 theorems quantify over all of them.
 */
module TaskDispatch {
  import opened Common
  import opened OrderedDict
  import opened AgentTables

  datatype Reason = ByTimeout | ByCancel | ByError

  /** Where a call stands: the `await` it is suspended at, or how it ended. */
  datatype Phase =
    | Observing
    | Sending
    | Waiting
    | Cleaning(reason: Reason, cancelSent: bool)
    | Cancelling
    | Returned(reply: Reply)
    | Raised

  datatype Call = Call(url: Url, ws: Sock, strict: bool, phase: Phase)

  /** `delivered` logs every result frame with the socket it came on, `writes` every recorded proof. */
  datatype State = State(
    t: Tables,
    calls: map<Rid, Call>,
    delivered: set<(Rid, Sock, Reply)>,
    writes: map<Rid, nat>)

  /** What can happen to one call. */
  datatype CallEvent =
    | Observed(now: real)
    | Sent
    | SendFailed
    | Interrupted(reason: Reason)
    | Wake
    | CleanupStarts
    | CleanupFails

  /** The other request families that share the tables: one-shot collects, status probes, terminal control. */
  datatype CollectEvent = CollectBegins(url: Url) | CollectEnds | ResponseFrame(reply: Reply, ws: Sock)

  datatype ProbeEvent = ProbeBegins(url: Url, taskId: Rid) | ProbeEnds | StatusFrame(about: Rid, result: StatusResult, ws: Sock)

  datatype ControlEvent = ControlBegins(url: Url) | ControlEnds | ControlAnswered(answer: nat, ws: Sock)

  datatype Label =
    | Connect(url: Url, ws: Sock)
    | Disconnect(url: Url, source: Option<Sock>)
    | Begin(rid: Rid, url: Url, strict: bool, observed: bool, now: real)
    | OfCall(rid: Rid, event: CallEvent)
    | ResultFrame(rid: Rid, reply: Reply, ws: Sock, now: real)
    | EventFails(rid: Rid)
    | OfCollect(rid: Rid, collect: CollectEvent)
    | OfProbe(rid: Rid, probe: ProbeEvent)
    | OfControl(rid: Rid, control: ControlEvent)
    | PruneAt(now: real)
    | Forget(rid: Rid)

  const START: State :=
    State(Tables(map[], map[], map[], map[], map[], map[], map[], map[], map[], []), map[], {}, map[])

  // ----- the calls -----------------------------------------------------------------------

  predicate Live(p: Phase) {
    !p.Returned? && !p.Raised?
  }

  predicate At(s: State, rid: Rid, p: Phase) {
    rid in s.calls && s.calls[rid].phase == p
  }

  function Move(s: State, rid: Rid, p: Phase): State
    requires rid in s.calls
  {
    s.(calls := s.calls[rid := s.calls[rid].(phase := p)])
  }

  /** The call ends: its `finally` block clears the tables. */
  function End(s: State, rid: Rid, p: Phase): State
    requires rid in s.calls
  {
    Move(s.(t := DropTask(s.t, rid)), rid, p)
  }

  /** A strict call retains the dispatch before the frame goes out. */
  function StartSending(s: State, rid: Rid, now: real): State
    requires rid in s.calls
  {
    var call := s.calls[rid];
    Move(if call.strict then s.(t := Retain(s.t, rid, call.url, call.ws, now)) else s, rid, Sending)
  }

  /** The synchronous start of a call: its waiter, its owner and its callback. */
  function Begun(s: State, rid: Rid, url: Url, strict: bool): State
    requires url in s.t.connections
  {
    var ws := s.t.connections[url];
    s.(t := AddTask(s.t, rid, url, ws, strict), calls := s.calls[rid := Call(url, ws, strict, Observing)])
  }

  function BeginCall(s: State, rid: Rid, url: Url, strict: bool, observed: bool, now: real): State {
    if rid in s.calls || url !in s.t.connections then s
    else
      var begun := Begun(s, rid, url, strict);
      if strict && observed then begun else StartSending(begun, rid, now)
  }

  /** `wait_for` cancels the future it waited on. */
  function CancelWaiter(t: Tables, rid: Rid): Tables {
    if rid in t.tasks then t.(tasks := t.tasks[rid := Settle(t.tasks[rid], Cancelled)]) else t
  }

  /** What a call resumes to. */
  datatype Effect = Stay | Dispatch(now: real) | Advance(p: Phase) | AbandonWaiter(p: Phase) | Finish(p: Phase)

  /** A failure or an interruption sends a strict call into confirmed cancellation. */
  function Aborted(strict: bool, reason: Reason): Phase {
    if strict then Cleaning(reason, false) else Cancelling
  }

  /** What a call does with the terminal its confirmed cancellation obtained. */
  function AfterCleanup(reason: Reason, outcome: Future<Reply>): Phase {
    if !outcome.Settled? || !outcome.value.Reply? then Raised
    else
      var reply := outcome.value;
      match reason
      case ByTimeout => if reply.kind.Done? then Returned(reply) else Raised
      case ByCancel => if reply.errorType != CancelledError || !reply.kind.Error? then Returned(reply) else Raised
      case ByError => Raised
  }

  function OnInterrupt(call: Call, reason: Reason): Effect {
    match call.phase
    case Observing => Finish(Raised)
    case Sending => Advance(Aborted(call.strict, reason))
    case Waiting => if call.strict then Advance(Aborted(true, reason)) else AbandonWaiter(Cancelling)
    case Cancelling => Finish(Raised)
    case _ => Stay                                  // repeated cancellation is absorbed
  }

  function OnSendFailure(call: Call): Effect {
    match call.phase
    case Observing => Finish(Raised)
    case Sending => Advance(Aborted(call.strict, ByError))
    case Cancelling => Finish(Raised)
    case _ => Stay
  }

  function OnWake(call: Call, rid: Rid, task: Future<Reply>, terminal: Future<Reply>): Effect {
    match call.phase
    case Waiting =>
      if task.Pending? then Stay
      else if task.Settled? && (call.strict ==> Confirmed(task.value, rid)) then Finish(Returned(task.value))
      else Advance(Aborted(call.strict, ByError))
    case Cleaning(reason, cancelSent) =>
      if cancelSent && !terminal.Pending? then Finish(AfterCleanup(reason, terminal)) else Stay
    case _ => Stay
  }

  /** The first segment of the shielded cleanup task. */
  function OnCleanupStart(call: Call, terminal: Future<Reply>, current: bool): Effect {
    if !call.phase.Cleaning? || call.phase.cancelSent then Stay
    else if !terminal.Pending? then Finish(AfterCleanup(call.phase.reason, terminal))
    else if !current then Finish(Raised)
    else Advance(Cleaning(call.phase.reason, true))
  }

  function Decide(call: Call, rid: Rid, task: Future<Reply>, terminal: Future<Reply>, current: bool, e: CallEvent): Effect {
    match e
    case Observed(now) => if call.phase.Observing? then Dispatch(now) else Stay
    case Sent => if call.phase.Sending? then Advance(Waiting) else if call.phase.Cancelling? then Finish(Raised) else Stay
    case SendFailed => OnSendFailure(call)
    case Interrupted(reason) => OnInterrupt(call, reason)
    case Wake => OnWake(call, rid, task, terminal)
    case CleanupStarts => OnCleanupStart(call, terminal, current)
    case CleanupFails => if call.phase.Cleaning? then Finish(Raised) else Stay
  }

  function Apply(s: State, rid: Rid, effect: Effect): State
    requires rid in s.calls
  {
    match effect
    case Stay => s
    case Dispatch(now) => StartSending(s, rid, now)
    case Advance(p) => Move(s, rid, p)
    case AbandonWaiter(p) => Move(s.(t := CancelWaiter(s.t, rid)), rid, p)
    case Finish(p) => End(s, rid, p)
  }

  function FutureOf(futures: map<Rid, Future<Reply>>, rid: Rid): Future<Reply> {
    if rid in futures then futures[rid] else Pending
  }

  function EffectOf(s: State, rid: Rid, e: CallEvent): Effect
    requires rid in s.calls
  {
    var call := s.calls[rid];
    Decide(call, rid, FutureOf(s.t.tasks, rid), FutureOf(s.t.terminals, rid), Current(s.t, call.url, call.ws), e)
  }

  // ----- the tables ----------------------------------------------------------------------

  predicate RecordsProof(t: Tables, rid: Rid, reply: Reply, ws: Sock, now: real) {
    var entry := Find(Prune(t.retained, now), rid);
    entry.Some? && ProvesCleanup(entry.value, t.connections, rid, reply, ws)
  }

  function ReceiveResult(s: State, rid: Rid, reply: Reply, ws: Sock, now: real): State {
    State(ResolveResult(s.t, rid, reply, ws, now), s.calls, s.delivered + {(rid, ws, reply)},
          if RecordsProof(s.t, rid, reply, ws, now) then s.writes[rid := Count(s.writes, rid) + 1] else s.writes)
  }

  function Count(writes: map<Rid, nat>, rid: Rid): nat {
    if rid in writes then writes[rid] else 0
  }

  function CollectStep(t: Tables, rid: Rid, e: CollectEvent): Tables {
    match e
    case CollectBegins(url) =>
      if rid in t.collects || rid in t.tasks || url !in t.connections then t
      else t.(collects := t.collects[rid := Pending], collectOwners := t.collectOwners[rid := t.connections[url]])
    case CollectEnds => t.(collects := Pop(t.collects, rid), collectOwners := Pop(t.collectOwners, rid))
    case ResponseFrame(reply, ws) => ResolveResponse(t, rid, reply, ws)
  }

  function ProbeStep(t: Tables, rid: Rid, e: ProbeEvent): Tables {
    match e
    case ProbeBegins(url, taskId) =>
      if rid in t.probes || url !in t.connections then t
      else t.(probes := t.probes[rid := Probe(url, taskId, t.connections[url], Pending)])
    case ProbeEnds => t.(probes := Pop(t.probes, rid))
    case StatusFrame(about, result, ws) => ResolveStatus(t, rid, about, result, ws)
  }

  function ControlStep(t: Tables, rid: Rid, e: ControlEvent): Tables {
    match e
    case ControlBegins(url) =>
      if rid in t.controls || url !in t.connections then t
      else t.(controls := t.controls[rid := Control(url, t.connections[url], Pending)])
    case ControlEnds => t.(controls := Pop(t.controls, rid))
    case ControlAnswered(answer, ws) =>
      if rid in t.controls && t.controls[rid].owner == ws
      then t.(controls := t.controls[rid := t.controls[rid].(future := Settle(t.controls[rid].future, Settled(answer)))])
      else t
  }

  function Step(s: State, l: Label): State {
    match l
    case Connect(url, ws) => s.(t := Register(s.t, url, ws))
    case Disconnect(url, source) => s.(t := Unregister(s.t, url, source))
    case Begin(rid, url, strict, observed, now) => BeginCall(s, rid, url, strict, observed, now)
    case OfCall(rid, event) => if rid in s.calls then Apply(s, rid, EffectOf(s, rid, event)) else s
    case ResultFrame(rid, reply, ws, now) => ReceiveResult(s, rid, reply, ws, now)
    case EventFails(rid) => s.(t := FailEvent(s.t, rid))
    case OfCollect(rid, e) => s.(t := CollectStep(s.t, rid, e))
    case OfProbe(rid, e) => s.(t := ProbeStep(s.t, rid, e))
    case OfControl(rid, e) => s.(t := ControlStep(s.t, rid, e))
    case PruneAt(now) => s.(t := s.t.(retained := Prune(s.t.retained, now)))
    case Forget(rid) => s.(t := s.t.(retained := Remove(s.t.retained, rid)))
  }

  function Run(s: State, ls: seq<Label>): State {
    if ls == [] then s else Step(Run(s, ls[..|ls| - 1]), ls[|ls| - 1])
  }

  // ----- the invariant ---------------------------------------------------------------------

  /** Each live call has its entries in the tables, under its own socket; nobody else does. */
  ghost predicate CallsMatchTables(s: State) {
    && (forall rid :: rid in s.t.tasks ==> rid in s.calls && Live(s.calls[rid].phase))
    && (forall rid :: rid in s.calls && Live(s.calls[rid].phase) ==> rid in s.t.tasks)
    && (forall rid :: rid in s.t.tasks ==> rid in s.t.taskOwners && s.t.taskOwners[rid] == s.calls[rid].ws)
  }

  /** A strict call has its second waiter, and a callback is registered under the url of its call. */
  ghost predicate WaitersFitCalls(s: State) {
    forall rid :: rid in s.t.tasks && rid in s.calls ==>
      && (rid in s.t.terminals <==> s.calls[rid].strict)
      && (rid in s.t.callbacks ==> s.t.callbacks[rid] == s.calls[rid].url)
  }

  /** A task's waiter holds what its own socket delivered, or the notice of a disconnect. */
  ghost predicate TasksHoldDeliveries(s: State) {
    forall rid :: rid in s.t.tasks && s.t.tasks[rid].Settled? && rid in s.calls ==>
      s.t.tasks[rid].value == DisconnectReply(rid) || (rid, s.calls[rid].ws, s.t.tasks[rid].value) in s.delivered
  }

  ghost predicate Genuine(s: State, rid: Rid, reply: Reply)
    requires rid in s.calls
  {
    Confirmed(reply, rid) && (rid, s.calls[rid].ws, reply) in s.delivered
  }

  /** The strict waiter only ever holds a confirmed terminal from its own socket. */
  ghost predicate TerminalsAreGenuine(s: State) {
    forall rid :: rid in s.t.terminals && s.t.terminals[rid].Settled? && rid in s.calls ==>
      Genuine(s, rid, s.t.terminals[rid].value)
  }

  ghost predicate ReturnsAreGenuine(s: State) {
    forall rid :: rid in s.calls && s.calls[rid].strict && s.calls[rid].phase.Returned? ==>
      Genuine(s, rid, s.calls[rid].phase.reply)
  }

  ghost predicate Inv(s: State) {
    && Coherent(s.t)
    && CallsMatchTables(s)
    && WaitersFitCalls(s)
    && TasksHoldDeliveries(s)
    && TerminalsAreGenuine(s)
    && ReturnsAreGenuine(s)
  }

  // The tables may change in any way that keeps keys, owners and settled futures.
  ghost predicate SameTasks(t: Tables, u: Tables) {
    t.tasks == u.tasks && t.taskOwners == u.taskOwners && t.callbacks == u.callbacks && t.terminals == u.terminals
  }

  lemma MoveInv(s: State, rid: Rid, p: Phase)
    requires Inv(s) && rid in s.calls && Live(s.calls[rid].phase) && Live(p)
    ensures Inv(Move(s, rid, p))
  {
  }

  lemma EndInv(s: State, rid: Rid, p: Phase)
    requires Inv(s) && rid in s.calls && !Live(p)
    requires s.calls[rid].strict && p.Returned? ==> Genuine(s, rid, p.reply)
    ensures Inv(End(s, rid, p))
  {
    DropTaskCoherent(s.t, rid);
  }

  lemma TablesInv(s: State, u: Tables)
    requires Inv(s) && Coherent(u) && SameTasks(s.t, u)
    ensures Inv(s.(t := u))
  {
  }

  lemma BegunFutures(s: State, rid: Rid, url: Url, strict: bool)
    requires TasksHoldDeliveries(s) && TerminalsAreGenuine(s) && ReturnsAreGenuine(s)
    requires rid !in s.calls && rid !in s.t.terminals && url in s.t.connections
    ensures var r := Begun(s, rid, url, strict); TasksHoldDeliveries(r) && TerminalsAreGenuine(r) && ReturnsAreGenuine(r)
  {
  }

  lemma BegunMatches(s: State, rid: Rid, url: Url, strict: bool)
    requires CallsMatchTables(s) && rid !in s.calls && rid !in s.t.tasks && url in s.t.connections
    ensures CallsMatchTables(Begun(s, rid, url, strict))
  {
  }

  lemma BegunFits(s: State, rid: Rid, url: Url, strict: bool)
    requires WaitersFitCalls(s) && Keyed(s.t) && rid !in s.calls && rid !in s.t.tasks && url in s.t.connections
    ensures WaitersFitCalls(Begun(s, rid, url, strict))
  {
  }

  lemma BeginInv(s: State, rid: Rid, url: Url, strict: bool)
    requires Inv(s) && rid !in s.calls && url in s.t.connections
    ensures Inv(Begun(s, rid, url, strict))
  {
    AddTaskCoherent(s.t, rid, url, s.t.connections[url], strict);
    assert rid !in s.t.tasks;
    BegunMatches(s, rid, url, strict);
    BegunFits(s, rid, url, strict);
    BegunFutures(s, rid, url, strict);
  }

  lemma StartSendingInv(s: State, rid: Rid, now: real)
    requires Inv(s) && At(s, rid, Observing)
    ensures Inv(StartSending(s, rid, now))
  {
    var call := s.calls[rid];
    if call.strict {
      var u := Retain(s.t, rid, call.url, call.ws, now);
      RetainedIrrelevant(s.t, u.retained);
      TablesInv(s, u);
      MoveInv(s.(t := u), rid, Sending);
    } else {
      MoveInv(s, rid, Sending);
    }
  }

  lemma BeginCallInv(s: State, rid: Rid, url: Url, strict: bool, observed: bool, now: real)
    requires Inv(s)
    ensures Inv(BeginCall(s, rid, url, strict, observed, now))
  {
    if rid !in s.calls && url in s.t.connections {
      BeginInv(s, rid, url, strict);
      if !(strict && observed) {
        StartSendingInv(Begun(s, rid, url, strict), rid, now);
      }
    }
  }

  lemma DisconnectInv(s: State, url: Url, source: Option<Sock>)
    requires Inv(s)
    ensures Inv(s.(t := Unregister(s.t, url, source)))
  {
    UnregisterCoherent(s.t, url, source);
  }

  lemma ConnectInv(s: State, url: Url, ws: Sock)
    requires Inv(s)
    ensures Inv(s.(t := Register(s.t, url, ws)))
  {
    RegisterCoherent(s.t, url, ws);
    if url in s.t.connections && s.t.connections[url] != ws {
      var cleared := Unregister(s.t, url, Some(s.t.connections[url]));
      DisconnectInv(s, url, Some(s.t.connections[url]));
      TablesInv(s.(t := cleared), Register(s.t, url, ws));
    } else {
      TablesInv(s, Register(s.t, url, ws));
    }
  }

  lemma FailEventInv(s: State, rid: Rid)
    requires Inv(s)
    ensures Inv(s.(t := FailEvent(s.t, rid)))
  {
    FailEventCoherent(s.t, rid);
  }

  lemma CancelWaiterInv(s: State, rid: Rid)
    requires Inv(s)
    ensures Inv(s.(t := CancelWaiter(s.t, rid)))
  {
  }

  lemma DeliverInv(s: State, rid: Rid, ws: Sock, reply: Reply, writes: map<Rid, nat>)
    requires Inv(s)
    ensures Inv(s.(delivered := s.delivered + {(rid, ws, reply)}, writes := writes))
  {
  }

  lemma SettleTaskInv(s: State, rid: Rid, reply: Reply, ws: Sock)
    requires Inv(s) && (rid, ws, reply) in s.delivered
    ensures Inv(s.(t := SettleTask(s.t, rid, reply, ws)))
  {
    SettleTaskCoherent(s.t, rid, reply, ws);
  }

  lemma ReceiveResultInv(s: State, rid: Rid, reply: Reply, ws: Sock, now: real)
    requires Inv(s)
    ensures Inv(ReceiveResult(s, rid, reply, ws, now))
  {
    var d := EvidenceAfter(s.t.retained, s.t.connections, rid, reply, ws, now);
    RetainedIrrelevant(s.t, d);
    TablesInv(s, s.t.(retained := d));
    var r := ReceiveResult(s, rid, reply, ws, now);
    DeliverInv(s.(t := s.t.(retained := d)), rid, ws, reply, r.writes);
    SettleTaskInv(State(s.t.(retained := d), s.calls, r.delivered, r.writes), rid, reply, ws);
  }

  lemma EvidenceInv(s: State, d: Dict<Rid, Retained>)
    requires Inv(s)
    ensures Inv(s.(t := s.t.(retained := d)))
  {
    RetainedIrrelevant(s.t, d);
    TablesInv(s, s.t.(retained := d));
  }

  lemma CoherentFrame(t: Tables, u: Tables)
    requires Coherent(t) && SameTasks(t, u) && u.connections == t.connections && Keyed(u)
    ensures Coherent(u)
  {
    forall rid | rid in u.callbacks ensures Current(u, u.callbacks[rid], u.taskOwners[rid]) {
      assert Current(t, t.callbacks[rid], t.taskOwners[rid]);
    }
  }

  lemma FamiliesInv(s: State, u: Tables)
    requires Inv(s)
    requires SameTasks(s.t, u) && u.connections == s.t.connections && u.collectOwners.Keys == u.collects.Keys
    ensures Inv(s.(t := u))
  {
    CoherentFrame(s.t, u);
    TablesInv(s, u);
  }

  lemma CollectInv(s: State, rid: Rid, e: CollectEvent)
    requires Inv(s)
    ensures Inv(s.(t := CollectStep(s.t, rid, e)))
  {
    assert Keyed(s.t);
    FamiliesInv(s, CollectStep(s.t, rid, e));
  }

  lemma ProbeInv(s: State, rid: Rid, e: ProbeEvent)
    requires Inv(s)
    ensures Inv(s.(t := ProbeStep(s.t, rid, e)))
  {
    assert Keyed(s.t);
    FamiliesInv(s, ProbeStep(s.t, rid, e));
  }

  lemma ControlInv(s: State, rid: Rid, e: ControlEvent)
    requires Inv(s)
    ensures Inv(s.(t := ControlStep(s.t, rid, e)))
  {
    assert Keyed(s.t);
    FamiliesInv(s, ControlStep(s.t, rid, e));
  }

  /** What `Decide` may do to a call without breaking the invariant. */
  ghost predicate Allowed(s: State, rid: Rid, effect: Effect)
    requires rid in s.calls
  {
    match effect
    case Stay => true
    case Dispatch(_) => s.calls[rid].phase.Observing?
    case Advance(p) => Live(s.calls[rid].phase) && Live(p) && !p.Observing?
    case AbandonWaiter(p) => Live(s.calls[rid].phase) && Live(p) && !p.Observing?
    case Finish(p) => !Live(p) && (s.calls[rid].strict && p.Returned? ==> Genuine(s, rid, p.reply))
  }

  lemma WakeAllowed(s: State, rid: Rid)
    requires Inv(s) && rid in s.calls
    ensures Allowed(s, rid, EffectOf(s, rid, Wake))
  {
  }

  lemma EffectAllowed(s: State, rid: Rid, e: CallEvent)
    requires Inv(s) && rid in s.calls
    ensures Allowed(s, rid, EffectOf(s, rid, e))
  {
    if e.Wake? {
      WakeAllowed(s, rid);
    }
  }

  lemma ApplyInv(s: State, rid: Rid, effect: Effect)
    requires Inv(s) && rid in s.calls && Allowed(s, rid, effect)
    ensures Inv(Apply(s, rid, effect))
  {
    match effect
    case Stay =>
    case Dispatch(now) => StartSendingInv(s, rid, now);
    case Advance(p) => MoveInv(s, rid, p);
    case AbandonWaiter(p) => CancelWaiterInv(s, rid); MoveInv(s.(t := CancelWaiter(s.t, rid)), rid, p);
    case Finish(p) => EndInv(s, rid, p);
  }

  lemma StepInv(s: State, l: Label)
    requires Inv(s)
    ensures Inv(Step(s, l))
  {
    match l
    case Connect(url, ws) => ConnectInv(s, url, ws);
    case Disconnect(url, source) => DisconnectInv(s, url, source);
    case Begin(rid, url, strict, observed, now) => BeginCallInv(s, rid, url, strict, observed, now);
    case OfCall(rid, event) => if rid in s.calls { EffectAllowed(s, rid, event); ApplyInv(s, rid, EffectOf(s, rid, event)); }
    case ResultFrame(rid, reply, ws, now) => ReceiveResultInv(s, rid, reply, ws, now);
    case EventFails(rid) => FailEventInv(s, rid);
    case OfCollect(rid, e) => CollectInv(s, rid, e);
    case OfProbe(rid, e) => ProbeInv(s, rid, e);
    case OfControl(rid, e) => ControlInv(s, rid, e);
    case PruneAt(now) => EvidenceInv(s, Prune(s.t.retained, now));
    case Forget(rid) => EvidenceInv(s, Remove(s.t.retained, rid));
  }

  /** Every reachable state is coherent. */
  lemma {:induction false} RunInv(ls: seq<Label>)
    ensures Inv(Run(START, ls))
  {
    if ls != [] {
      RunInv(ls[..|ls| - 1]);
      StepInv(Run(START, ls[..|ls| - 1]), ls[|ls| - 1]);
    }
  }

  /** A terminal that names the task, is one of the two kinds and says that cleanup finished. */
  predicate ConfirmsCleanup(reply: Reply, rid: Rid) {
    && reply.Reply? && reply.taskId == Some(rid) && reply.kind in {Done, Error} && reply.cleanupComplete
  }

  /** After a timeout a finished task, after a cancellation anything but the report of that cancellation, after an error nothing. */
  predicate MayReturn(reason: Reason, reply: Reply) {
    && reply.Reply?
    && ((reason.ByTimeout? && reply.kind.Done?)
        || (reason.ByCancel? && !(reply.kind.Error? && reply.errorType.CancelledError?)))
  }

  /**
   In every run, a strict call that returns normally returns a terminal that names its own
   task, says that cleanup finished, and was delivered by the socket the task was sent on.
   */
  lemma StrictReturnIsConfirmed(ls: seq<Label>, rid: Rid)
    ensures var s := Run(START, ls);
            rid in s.calls && s.calls[rid].strict && s.calls[rid].phase.Returned? ==>
              && ConfirmsCleanup(s.calls[rid].phase.reply, rid)
              && (rid, s.calls[rid].ws, s.calls[rid].phase.reply) in s.delivered
  {
    RunInv(ls);
    if rid in Run(START, ls).calls && Run(START, ls).calls[rid].strict && Run(START, ls).calls[rid].phase.Returned? {
      assert Genuine(Run(START, ls), rid, Run(START, ls).calls[rid].phase.reply);
    }
  }

  /**
   What confirmed cancellation makes of a call, in every run: after a timeout it returns only a
   finished task, after a cancellation anything but a terminal that reports that very
   cancellation, after an error nothing; and what it returns is confirmed.
   */
  lemma CleanupDecidesTheOutcome(ls: seq<Label>, l: Label, rid: Rid)
    requires var s := Run(START, ls); rid in s.calls && s.calls[rid].strict && s.calls[rid].phase.Cleaning?
    requires rid in Step(Run(START, ls), l).calls && Step(Run(START, ls), l).calls[rid].phase.Returned?
    ensures var reason := Run(START, ls).calls[rid].phase.reason;
            var reply := Step(Run(START, ls), l).calls[rid].phase.reply;
            ConfirmsCleanup(reply, rid) && MayReturn(reason, reply)
  {
    RunInv(ls);
    CleaningStep(Run(START, ls), l, rid);
    StepReturnsConfirmed(Run(START, ls), l, rid);
  }

  lemma CleaningStep(s: State, l: Label, rid: Rid)
    requires rid in s.calls && s.calls[rid].phase.Cleaning?
    ensures rid in Step(s, l).calls && Step(s, l).calls[rid].strict == s.calls[rid].strict
    ensures Step(s, l).calls[rid].phase.Returned? ==>
              MayReturn(s.calls[rid].phase.reason, Step(s, l).calls[rid].phase.reply)
  {
    OnlyOwnEvents(s, l, rid);
    if l.OfCall? && l.rid == rid {
      CleaningFinishes(s, rid, l.event);
    }
  }

  lemma StepReturnsConfirmed(s: State, l: Label, rid: Rid)
    requires Inv(s) && rid in Step(s, l).calls && Step(s, l).calls[rid].phase.Returned? && Step(s, l).calls[rid].strict
    ensures Confirmed(Step(s, l).calls[rid].phase.reply, rid)
  {
    StepInv(s, l);
    ReturnsConfirmed(Step(s, l), rid);
  }

  lemma ReturnsConfirmed(s: State, rid: Rid)
    requires Inv(s) && rid in s.calls && s.calls[rid].phase.Returned? && s.calls[rid].strict
    ensures Confirmed(s.calls[rid].phase.reply, rid)
  {
    assert Genuine(s, rid, s.calls[rid].phase.reply);
  }

  lemma DecideCleaning(call: Call, rid: Rid, task: Future<Reply>, terminal: Future<Reply>, current: bool, e: CallEvent)
    requires call.phase.Cleaning?
    ensures var effect := Decide(call, rid, task, terminal, current, e);
            || effect.Stay?
            || (effect.Advance? && effect.p.Cleaning?)
            || (effect.Finish? && (effect.p.Returned? ==> MayReturn(call.phase.reason, effect.p.reply)))
  {
  }

  lemma CleaningFinishes(s: State, rid: Rid, e: CallEvent)
    requires rid in s.calls && s.calls[rid].phase.Cleaning?
    ensures var r := Apply(s, rid, EffectOf(s, rid, e));
            && rid in r.calls && r.calls[rid].strict == s.calls[rid].strict
            && (r.calls[rid].phase.Returned? ==> MayReturn(s.calls[rid].phase.reason, r.calls[rid].phase.reply))
  {
    var call := s.calls[rid];
    DecideCleaning(call, rid, FutureOf(s.t.tasks, rid), FutureOf(s.t.terminals, rid), Current(s.t, call.url, call.ws), e);
  }

  /** Another call's events, and frames, leave a call's phase alone. */
  lemma OnlyOwnEvents(s: State, l: Label, rid: Rid)
    requires rid in s.calls
    ensures rid in Step(s, l).calls
    ensures !(l.OfCall? && l.rid == rid) ==> Step(s, l).calls[rid] == s.calls[rid]
  {
    match l
    case Begin(r, url, strict, observed, now) =>
    case OfCall(r, event) => if r in s.calls && r != rid { MoveOthers(s, r, EffectOf(s, r, event), rid); }
    case _ =>
  }

  lemma MoveOthers(s: State, r: Rid, effect: Effect, rid: Rid)
    requires r in s.calls && rid in s.calls && r != rid
    ensures Get(Apply(s, r, effect).calls, rid) == Some(s.calls[rid])
  {
  }

  /** In every run, the task and event frames of a task are accepted from the same socket only. */
  lemma OwnershipTestsAlwaysAgree(ls: seq<Label>, rid: Rid, ws: Sock)
    ensures var t := Run(START, ls).t;
            rid in t.callbacks ==> (AcceptsEvent(t, rid, ws) <==> Get(t.taskOwners, rid) == Some(ws))
  {
    RunInv(ls);
    if rid in Run(START, ls).t.callbacks {
      OwnershipTestsAgree(Run(START, ls).t, rid, ws);
    }
  }

  // ----- what a call comes to ----------------------------------------------------------------

  /** The call itself does not move. */
  ghost predicate Rests(ls: seq<Label>, rid: Rid) {
    forall l :: l in ls ==> !(l.OfCall? && l.rid == rid)
  }

  lemma RunSnoc(ls: seq<Label>, l: Label)
    ensures Run(START, ls + [l]) == Step(Run(START, ls), l)
  {
    assert (ls + [l])[..|ls + [l]| - 1] == ls;
  }

  /** A settled waiter of a call that rests stays settled the same way, whatever else happens. */
  lemma {:induction false} OutcomeStands(ls: seq<Label>, more: seq<Label>, rid: Rid)
    requires Rests(more, rid) && rid in Run(START, ls).calls && Live(Run(START, ls).calls[rid].phase)
    ensures var s, r := Run(START, ls), Run(START, ls + more);
            && Get(r.calls, rid) == Some(s.calls[rid])
            && rid in s.t.tasks && rid in r.t.tasks && (!s.t.tasks[rid].Pending? ==> r.t.tasks[rid] == s.t.tasks[rid])
            && (s.calls[rid].strict ==> rid in s.t.terminals && rid in r.t.terminals)
            && (s.calls[rid].strict && !s.t.terminals[rid].Pending? ==> r.t.terminals[rid] == s.t.terminals[rid])
  {
    RunInv(ls);
    if more == [] {
      assert ls + more == ls;
    } else {
      var front, l := more[..|more| - 1], more[|more| - 1];
      assert l in more && ls + more == (ls + front) + [l];
      OutcomeStands(ls, front, rid);
      RunSnoc(ls + front, l);
      RunInv(ls + more);
      FuturesSettleOnce(ls + front, l);
      OnlyOwnEvents(Run(START, ls + front), l, rid);
    }
  }

  /** What a frame from the call's own socket puts into its waiters. */
  lemma OwnFrameSettles(s: State, rid: Rid, reply: Reply, now: real)
    requires Inv(s) && rid in s.calls && Live(s.calls[rid].phase)
    ensures var u := Step(s, ResultFrame(rid, reply, s.calls[rid].ws, now)).t;
            && rid in s.t.tasks && (s.t.tasks[rid].Pending? ==> Get(u.tasks, rid) == Some(Settled(reply)))
            && (s.calls[rid].strict && ConfirmsCleanup(reply, rid) ==>
                  rid in s.t.terminals && (s.t.terminals[rid].Pending? ==> Get(u.terminals, rid) == Some(Settled(reply))))
            && (!ConfirmsCleanup(reply, rid) ==> u.terminals == s.t.terminals)
  {
    assert Get(s.t.taskOwners, rid) == Some(s.calls[rid].ws);
    var t := s.t.(retained := EvidenceAfter(s.t.retained, s.t.connections, rid, reply, s.calls[rid].ws, now));
    OwnFrameSettlesTables(t, rid, reply, s.calls[rid].ws);
  }

  lemma OwnFrameSettlesTables(t: Tables, rid: Rid, reply: Reply, ws: Sock)
    requires Get(t.taskOwners, rid) == Some(ws)
    ensures var u := SettleTask(t, rid, reply, ws);
            && (rid in t.tasks && t.tasks[rid].Pending? ==> Get(u.tasks, rid) == Some(Settled(reply)))
            && (ConfirmsCleanup(reply, rid) && rid in t.terminals && t.terminals[rid].Pending? ==>
                  Get(u.terminals, rid) == Some(Settled(reply)))
            && (!ConfirmsCleanup(reply, rid) ==> u.terminals == t.terminals)
  {
  }

  /** How a call resumes from `await`ing its result. */
  lemma WaitingCallWakes(s: State, rid: Rid)
    requires At(s, rid, Waiting) && rid in s.t.tasks && !s.t.tasks[rid].Pending?
    ensures var f, call := s.t.tasks[rid], s.calls[rid];
            At(Step(s, OfCall(rid, Wake)), rid,
               if f.Settled? && (!call.strict || ConfirmsCleanup(f.value, rid)) then Returned(f.value)
               else if call.strict then Cleaning(ByError, false) else Cancelling)
  {
  }

  /** Nothing wakes a call before what it awaits has an outcome. */
  lemma NothingToWakeFor(s: State, rid: Rid)
    requires rid in s.calls
    requires s.calls[rid].phase.Waiting? ==> rid in s.t.tasks && s.t.tasks[rid].Pending?
    requires s.calls[rid].phase.Cleaning? ==> !s.calls[rid].phase.cancelSent || (rid in s.t.terminals && s.t.terminals[rid].Pending?)
    ensures Step(s, OfCall(rid, Wake)) == s
  {
  }

  /** How a call resumes with the outcome of its confirmed cancellation. */
  lemma CleaningCallResumes(s: State, rid: Rid)
    requires rid in s.calls && s.calls[rid].phase.Cleaning? && rid in s.t.terminals && !s.t.terminals[rid].Pending?
    ensures var call, f := s.calls[rid], s.t.terminals[rid];
            At(Step(s, OfCall(rid, if call.phase.cancelSent then Wake else CleanupStarts)), rid,
               if f.Settled? && MayReturn(call.phase.reason, f.value) then Returned(f.value) else Raised)
  {
  }

  /** A frame from any other socket settles nothing and moves nobody. */
  lemma {:induction false} ForeignFrameIsIgnored(ls: seq<Label>, rid: Rid, reply: Reply, ws: Sock, now: real)
    requires rid in Run(START, ls).calls ==> ws != Run(START, ls).calls[rid].ws
    ensures var s, r := Run(START, ls), Step(Run(START, ls), ResultFrame(rid, reply, ws, now));
            && r.calls == s.calls && r.t.tasks == s.t.tasks && r.t.terminals == s.t.terminals && r.t.callbacks == s.t.callbacks
            && r.t.collects == s.t.collects && r.t.probes == s.t.probes && r.t.controls == s.t.controls
  {
    RunInv(ls);
  }

  /**
   A result that arrives on the call's own socket while it waits is returned, whatever happens
   before the call resumes, exactly when the call is not strict or the result confirms the
   cleanup; otherwise the call goes into confirmed cancellation.
   */
  lemma {:induction false} DeliveredResultIsReturned(ls: seq<Label>, rid: Rid, reply: Reply, now: real, more: seq<Label>)
    requires var s := Run(START, ls); At(s, rid, Waiting) && rid in s.t.tasks && s.t.tasks[rid].Pending?
    requires Rests(more, rid)
    ensures var call := Run(START, ls).calls[rid];
            var r := Run(START, ls + [ResultFrame(rid, reply, call.ws, now)] + more + [OfCall(rid, Wake)]);
            At(r, rid, if !call.strict || ConfirmsCleanup(reply, rid) then Returned(reply) else Cleaning(ByError, false))
  {
    var s := Run(START, ls);
    var frame := ResultFrame(rid, reply, s.calls[rid].ws, now);
    RunInv(ls);
    OwnFrameSettles(s, rid, reply, now);
    RunSnoc(ls, frame);
    OnlyOwnEvents(s, frame, rid);
    OutcomeStands(ls + [frame], more, rid);
    RunSnoc(ls + [frame] + more, OfCall(rid, Wake));
    WaitingCallWakes(Run(START, ls + [frame] + more), rid);
  }

  /**
   A cleaning call that obtains a confirmed terminal from its own socket returns it exactly when
   it may: after a timeout a finished task, after a cancellation anything but the report of that
   cancellation, after an error nothing.  Otherwise it raises.
   */
  lemma {:induction false} ConfirmedCleanupDecides(ls: seq<Label>, rid: Rid, reply: Reply, now: real, more: seq<Label>)
    requires var s := Run(START, ls);
             && rid in s.calls && s.calls[rid].strict && s.calls[rid].phase.Cleaning?
             && rid in s.t.terminals && s.t.terminals[rid].Pending?
    requires ConfirmsCleanup(reply, rid) && Rests(more, rid)
    ensures var call := Run(START, ls).calls[rid];
            var resume := if call.phase.cancelSent then Wake else CleanupStarts;
            var r := Run(START, ls + [ResultFrame(rid, reply, call.ws, now)] + more + [OfCall(rid, resume)]);
            At(r, rid, if MayReturn(call.phase.reason, reply) then Returned(reply) else Raised)
  {
    var s := Run(START, ls);
    var frame := ResultFrame(rid, reply, s.calls[rid].ws, now);
    RunInv(ls);
    OwnFrameSettles(s, rid, reply, now);
    RunSnoc(ls, frame);
    OnlyOwnEvents(s, frame, rid);
    OutcomeStands(ls + [frame], more, rid);
    var resume := if s.calls[rid].phase.cancelSent then Wake else CleanupStarts;
    RunSnoc(ls + [frame] + more, OfCall(rid, resume));
    CleaningCallResumes(Run(START, ls + [frame] + more), rid);
  }

  /** A callback that fails while the call waits sends it into cancellation, before anything it returns. */
  lemma {:induction false} FailedCallbackCancels(ls: seq<Label>, rid: Rid, more: seq<Label>)
    requires var s := Run(START, ls); At(s, rid, Waiting) && rid in s.t.tasks && s.t.tasks[rid].Pending?
    requires Rests(more, rid)
    ensures At(Run(START, ls + [EventFails(rid)] + more + [OfCall(rid, Wake)]), rid,
               if Run(START, ls).calls[rid].strict then Cleaning(ByError, false) else Cancelling)
  {
    RunInv(ls);
    RunSnoc(ls, EventFails(rid));
    OnlyOwnEvents(Run(START, ls), EventFails(rid), rid);
    OutcomeStands(ls + [EventFails(rid)], more, rid);
    RunSnoc(ls + [EventFails(rid)] + more, OfCall(rid, Wake));
    WaitingCallWakes(Run(START, ls + [EventFails(rid)] + more), rid);
  }

  /** The call waits on, but its waiters have been told of the disconnect. */
  ghost predicate ToldOfLoss(s: State, rid: Rid, strict: bool) {
    && At(s, rid, Waiting) && s.calls[rid].strict == strict
    && Get(s.t.tasks, rid) == Some(Settled(Reply(Error, Some(rid), false, AgentDisconnected, 0)))
    && (strict ==> rid in s.t.terminals && !s.t.terminals[rid].Pending?)
  }

  lemma {:induction false} LostCallIsTold(ls: seq<Label>, rid: Rid, more: seq<Label>)
    requires var s := Run(START, ls); At(s, rid, Waiting) && rid in s.t.tasks && s.t.tasks[rid].Pending?
    requires Rests(more, rid)
    ensures var call := Run(START, ls).calls[rid];
            ToldOfLoss(Run(START, ls + [Disconnect(call.url, None)] + more), rid, call.strict)
  {
    var s := Run(START, ls);
    var lost := Disconnect(s.calls[rid].url, None);
    RunInv(ls);
    LostCallIsSettled(s, rid);
    RunSnoc(ls, lost);
    OnlyOwnEvents(s, lost, rid);
    OutcomeStands(ls + [lost], more, rid);
  }

  lemma ToldCallWakes(s: State, rid: Rid, strict: bool)
    requires ToldOfLoss(s, rid, strict)
    ensures var r := Step(s, OfCall(rid, Wake));
            && At(r, rid, if strict then Cleaning(ByError, false) else Returned(Reply(Error, Some(rid), false, AgentDisconnected, 0)))
            && (strict ==> r.calls[rid].strict && rid in r.t.terminals && !r.t.terminals[rid].Pending?)
  {
    WaitingCallWakes(s, rid);
    if strict {
      WakeKeepsTerminal(s, rid);
    }
  }

  /**
   A disconnect of its agent ends a waiting call: a call that is not strict returns an error
   terminal that says so and confirms nothing, a strict one raises once it starts to clean up.
   */
  lemma {:induction false} DisconnectEndsTheCall(ls: seq<Label>, rid: Rid, more: seq<Label>, later: seq<Label>)
    requires var s := Run(START, ls); At(s, rid, Waiting) && rid in s.t.tasks && s.t.tasks[rid].Pending?
    requires Rests(more, rid) && Rests(later, rid)
    ensures var call := Run(START, ls).calls[rid];
            var woken := ls + [Disconnect(call.url, None)] + more + [OfCall(rid, Wake)];
            if call.strict then At(Run(START, woken + later + [OfCall(rid, CleanupStarts)]), rid, Raised)
            else At(Run(START, woken), rid, Returned(Reply(Error, Some(rid), false, AgentDisconnected, 0)))
  {
    var call := Run(START, ls).calls[rid];
    var told := ls + [Disconnect(call.url, None)] + more;
    LostCallIsTold(ls, rid, more);
    ToldCallWakes(Run(START, told), rid, call.strict);
    RunSnoc(told, OfCall(rid, Wake));
    if call.strict {
      var woken := told + [OfCall(rid, Wake)];
      OutcomeStands(woken, later, rid);
      RunSnoc(woken + later, OfCall(rid, CleanupStarts));
      CleaningCallResumes(Run(START, woken + later), rid);
    }
  }

  lemma WakeKeepsTerminal(s: State, rid: Rid)
    requires At(s, rid, Waiting) && s.calls[rid].strict && rid in s.t.tasks && Step(s, OfCall(rid, Wake)).calls[rid].phase.Cleaning?
    ensures Step(s, OfCall(rid, Wake)).t == s.t
  {
    assert EffectOf(s, rid, Wake) == Advance(Cleaning(ByError, false));
  }

  lemma LostCallIsSettled(s: State, rid: Rid)
    requires Inv(s) && At(s, rid, Waiting) && rid in s.t.tasks && s.t.tasks[rid].Pending?
    ensures var call, r := s.calls[rid], Step(s, Disconnect(s.calls[rid].url, None));
            && Get(r.t.tasks, rid) == Some(Settled(Reply(Error, Some(rid), false, AgentDisconnected, 0)))
            && (call.strict ==> rid in r.t.terminals && !r.t.terminals[rid].Pending?)
            && (call.strict && rid in s.t.terminals && s.t.terminals[rid].Pending? ==> r.t.terminals[rid] == Failed(Disconnected))
  {
    assert rid in s.t.callbacks && s.t.callbacks[rid] == s.calls[rid].url;
    assert Current(s.t, s.t.callbacks[rid], s.t.taskOwners[rid]);
  }

  // ----- how a call moves otherwise ----------------------------------------------------------

  /** A call begins exactly under a new id and a connected url, with its waiters in place. */
  lemma CallBegins(s: State, rid: Rid, url: Url, strict: bool, observed: bool, now: real)
    ensures var r := Step(s, Begin(rid, url, strict, observed, now));
            if rid in s.calls || url !in s.t.connections then r == s
            else
              && Get(r.calls, rid) == Some(Call(url, s.t.connections[url], strict, if strict && observed then Observing else Sending))
              && Get(r.t.tasks, rid) == Some(Pending) && (strict ==> Get(r.t.terminals, rid) == Some(Pending))
              && Get(r.t.taskOwners, rid) == Some(s.t.connections[url]) && Get(r.t.callbacks, rid) == Some(url)
              && (r.t.retained != s.t.retained ==> strict && !observed)
  {
  }

  /** A strict call is retained, as the newest entry, before its frame goes out: at once or when its observer is done. */
  lemma StrictDispatchIsRetained(s: State, rid: Rid, now: real)
    requires At(s, rid, Observing)
    ensures var r, call := Step(s, OfCall(rid, Observed(now))), s.calls[rid];
            && At(r, rid, Sending)
            && (if call.strict then
                  && r.t.retained != []
                  && r.t.retained[|r.t.retained| - 1] == Entry(rid, Retained(call.url, Some(call.ws), now + RETAINED_SECONDS, None))
                else r.t.retained == s.t.retained)
  {
    var call := s.calls[rid];
    RetainedIsNewest(s.t, rid, call.url, call.ws, now);
  }

  /** Sending ends in waiting or, where it fails, in cancellation, confirmed for a strict call; a frame of its own that cannot be sent ends the call. */
  lemma SendingIsAnswered(s: State, rid: Rid)
    requires rid in s.calls
    ensures var call, sent, failed := s.calls[rid], Step(s, OfCall(rid, Sent)), Step(s, OfCall(rid, SendFailed));
            match call.phase
            case Observing => sent == s && At(failed, rid, Raised)
            case Sending => At(sent, rid, Waiting) && At(failed, rid, if call.strict then Cleaning(ByError, false) else Cancelling)
            case Cancelling => At(sent, rid, Raised) && At(failed, rid, Raised)
            case _ => sent == s && failed == s
  {
  }

  /**
   A timeout or a cancellation sends a dispatched call into cancellation, confirmed for a strict
   one, and abandons the waiter of one that is not; a call that is already cleaning up absorbs it.
   */
  lemma InterruptionIsAnswered(s: State, rid: Rid, reason: Reason)
    requires rid in s.calls
    ensures var call, r := s.calls[rid], Step(s, OfCall(rid, Interrupted(reason)));
            match call.phase
            case Observing => At(r, rid, Raised)
            case Sending => At(r, rid, if call.strict then Cleaning(reason, false) else Cancelling) && r.t == s.t
            case Waiting =>
              && At(r, rid, if call.strict then Cleaning(reason, false) else Cancelling)
              && (if call.strict then r.t == s.t
                  else rid in s.t.tasks && s.t.tasks[rid].Pending? ==> Get(r.t.tasks, rid) == Some(Cancelled))
            case Cancelling => At(r, rid, Raised)
            case _ => r == s
  {
  }

  /** Confirmed cancellation asks the edge to stop while the transport stands, and gives up where it is gone or asking fails. */
  lemma CleanupAsksTheEdge(s: State, rid: Rid)
    requires rid in s.calls && s.calls[rid].phase.Cleaning?
    ensures At(Step(s, OfCall(rid, CleanupFails)), rid, Raised)
    ensures var call := s.calls[rid];
            !call.phase.cancelSent && rid in s.t.terminals && s.t.terminals[rid].Pending? ==>
              At(Step(s, OfCall(rid, CleanupStarts)), rid,
                 if Get(s.t.connections, call.url) == Some(call.ws) then Cleaning(call.phase.reason, true) else Raised)
  {
  }

  lemma EndedCallHasNoEntries(s: State, rid: Rid)
    requires Inv(s) && rid in s.calls && !Live(s.calls[rid].phase)
    ensures rid !in s.t.tasks && rid !in s.t.taskOwners && rid !in s.t.callbacks && rid !in s.t.terminals
  {
  }

  lemma EndedCallStays(s: State, rid: Rid, e: CallEvent)
    requires rid in s.calls && !Live(s.calls[rid].phase)
    ensures EffectOf(s, rid, e).Stay?
  {
  }

  /** A call that has ended never moves again and has left no trace in the tables of waiters. */
  lemma {:induction false} EndedCallsAreGone(ls: seq<Label>, rid: Rid, l: Label)
    requires rid in Run(START, ls).calls && !Live(Run(START, ls).calls[rid].phase)
    ensures var t := Run(START, ls).t; rid !in t.tasks && rid !in t.taskOwners && rid !in t.callbacks && rid !in t.terminals
    ensures Get(Step(Run(START, ls), l).calls, rid) == Some(Run(START, ls).calls[rid])
  {
    RunInv(ls);
    EndedCallHasNoEntries(Run(START, ls), rid);
    OnlyOwnEvents(Run(START, ls), l, rid);
    if l.OfCall? && l.rid == rid {
      EndedCallStays(Run(START, ls), rid, l.event);
    }
  }

  // ----- the other requests ------------------------------------------------------------------------

  /** A one-shot request begins under an id that nobody waits for and a connected url, owned by the current socket. */
  lemma CollectBeginsIff(t: Tables, rid: Rid, url: Url)
    ensures var u := CollectStep(t, rid, CollectBegins(url));
            if rid in t.collects || rid in t.tasks || url !in t.connections then u == t
            else Get(u.collects, rid) == Some(Pending) && Get(u.collectOwners, rid) == Some(t.connections[url])
  {
  }

  /** So does a probe, which remembers the task it asks about. */
  lemma ProbeBeginsIff(t: Tables, rid: Rid, url: Url, taskId: Rid)
    ensures var u := ProbeStep(t, rid, ProbeBegins(url, taskId));
            if rid in t.probes || url !in t.connections then u == t
            else Get(u.probes, rid) == Some(Probe(url, taskId, t.connections[url], Pending))
  {
  }

  /** And a control request. */
  lemma ControlBeginsIff(t: Tables, rid: Rid, url: Url)
    ensures var u := ControlStep(t, rid, ControlBegins(url));
            if rid in t.controls || url !in t.connections then u == t
            else Get(u.controls, rid) == Some(Control(url, t.connections[url], Pending))
  {
  }

  /** They all end without a trace. */
  lemma RequestsEnd(t: Tables, rid: Rid)
    ensures rid !in CollectStep(t, rid, CollectEnds).collects && rid !in CollectStep(t, rid, CollectEnds).collectOwners
    ensures rid !in ProbeStep(t, rid, ProbeEnds).probes
    ensures rid !in ControlStep(t, rid, ControlEnds).controls
  {
  }

  /** Each of these requests acts on its own tables, and a frame reaches the waiter it answers. */
  lemma RequestsAct(s: State, rid: Rid, url: Url, reply: Reply, about: Rid, result: StatusResult, answer: nat, ws: Sock)
    ensures Step(s, OfCollect(rid, CollectBegins(url))) == s.(t := CollectStep(s.t, rid, CollectBegins(url)))
    ensures Step(s, OfCollect(rid, ResponseFrame(reply, ws))) == s.(t := ResolveResponse(s.t, rid, reply, ws))
    ensures Step(s, OfProbe(rid, ProbeBegins(url, about))) == s.(t := ProbeStep(s.t, rid, ProbeBegins(url, about)))
    ensures Step(s, OfProbe(rid, StatusFrame(about, result, ws))) == s.(t := ResolveStatus(s.t, rid, about, result, ws))
    ensures Step(s, OfControl(rid, ControlBegins(url))) == s.(t := ControlStep(s.t, rid, ControlBegins(url)))
    ensures Step(s, OfControl(rid, ControlAnswered(answer, ws))) == s.(t := ControlStep(s.t, rid, ControlAnswered(answer, ws)))
  {
  }

  /** Evidence that is forgotten is gone, and no other. */
  lemma ForgottenIsGone(s: State, rid: Rid, e: Entry<Rid, Retained>)
    ensures e in Step(s, Forget(rid)).t.retained <==> e in s.t.retained && e.key != rid
  {
    KeepMembers(s.t.retained, Other(rid));
  }

  /** A control answer settles its waiter from the owning socket only. */
  lemma OwnerAnswersControl(t: Tables, rid: Rid, answer: nat, ws: Sock)
    ensures Get(ControlStep(t, rid, ControlAnswered(answer, ws)).controls, rid)
            == if rid in t.controls && t.controls[rid].owner == ws && t.controls[rid].future.Pending?
               then Some(t.controls[rid].(future := Settled(answer))) else Get(t.controls, rid)
  {
  }

  // ----- no waiter is resolved twice -------------------------------------------------------

  lemma BeginKeepsOutcomes(s: State, rid: Rid, url: Url, strict: bool, observed: bool, now: real)
    requires Inv(s)
    ensures OutcomesKept(s.t, BeginCall(s, rid, url, strict, observed, now).t)
  {
    if rid !in s.calls && url in s.t.connections {
      assert rid !in s.t.tasks && rid !in s.t.terminals;
    }
  }

  lemma ApplyKeepsOutcomes(s: State, rid: Rid, effect: Effect)
    requires rid in s.calls
    ensures OutcomesKept(s.t, Apply(s, rid, effect).t)
  {
  }

  lemma CollectKeepsOutcomes(t: Tables, rid: Rid, e: CollectEvent)
    ensures OutcomesKept(t, CollectStep(t, rid, e))
  {
    if e.ResponseFrame? { ResponseKeepsOutcomes(t, rid, e.reply, e.ws); }
  }

  lemma ProbeKeepsOutcomes(t: Tables, rid: Rid, e: ProbeEvent)
    ensures OutcomesKept(t, ProbeStep(t, rid, e))
  {
    if e.StatusFrame? { StatusKeepsOutcomes(t, rid, e.about, e.result, e.ws); }
  }

  lemma ControlKeepsOutcomes(t: Tables, rid: Rid, e: ControlEvent)
    ensures OutcomesKept(t, ControlStep(t, rid, e))
  {
  }

  /** No step of any run changes the outcome of a future that already has one. */
  lemma FuturesSettleOnce(ls: seq<Label>, l: Label)
    ensures OutcomesKept(Run(START, ls).t, Step(Run(START, ls), l).t)
  {
    RunInv(ls);
    if l.Begin? || l.OfCall? || l.ResultFrame? || l.EventFails? {
      CallsKeepOutcomes(Run(START, ls), l);
    } else {
      TablesKeepOutcomes(Run(START, ls), l);
    }
  }

  lemma EvidenceKeepsOutcomes(t: Tables, d: Dict<Rid, Retained>)
    ensures OutcomesKept(t, t.(retained := d))
  {
  }

  lemma CallsKeepOutcomes(s: State, l: Label)
    requires Inv(s) && (l.Begin? || l.OfCall? || l.ResultFrame? || l.EventFails?)
    ensures OutcomesKept(s.t, Step(s, l).t)
  {
    match l
    case Begin(rid, url, strict, observed, now) => BeginKeepsOutcomes(s, rid, url, strict, observed, now);
    case OfCall(rid, event) => if rid in s.calls { ApplyKeepsOutcomes(s, rid, EffectOf(s, rid, event)); }
    case ResultFrame(rid, reply, ws, now) => ResultKeepsOutcomes(s.t, rid, reply, ws, now);
    case EventFails(rid) => EventKeepsOutcomes(s.t, rid);
  }

  lemma TablesKeepOutcomes(s: State, l: Label)
    requires !l.Begin? && !l.OfCall? && !l.ResultFrame? && !l.EventFails?
    ensures OutcomesKept(s.t, Step(s, l).t)
  {
    match l
    case Connect(url, ws) => RegisterKeepsOutcomes(s.t, url, ws);
    case Disconnect(url, source) => UnregisterKeepsOutcomes(s.t, url, source);
    case OfCollect(rid, e) => CollectKeepsOutcomes(s.t, rid, e);
    case OfProbe(rid, e) => ProbeKeepsOutcomes(s.t, rid, e);
    case OfControl(rid, e) => ControlKeepsOutcomes(s.t, rid, e);
    case PruneAt(now) => EvidenceKeepsOutcomes(s.t, Prune(s.t.retained, now));
    case Forget(rid) => EvidenceKeepsOutcomes(s.t, Remove(s.t.retained, rid));
  }

  /**
   In every run, a disconnect leaves no waiter of the lost transport pending, exactly unless the
   socket was connected for another agent too and owes a task of that agent.
   */
  lemma DisconnectReleasesEveryWaiter(ls: seq<Label>, url: Url, source: Option<Sock>, rid: Rid)
    requires Unregisters(Run(START, ls).t, url, source)
    ensures var t := Run(START, ls).t;
            && (Released(Step(Run(START, ls), Disconnect(url, source)).t, t.connections[url], rid) <==> !HeldElsewhere(t, url, rid))
            && ((forall u :: u in t.connections && t.connections[u] == t.connections[url] ==> u == url) ==>
                  !HeldElsewhere(t, url, rid))
  {
    RunInv(ls);
    var t := Run(START, ls).t;
    NoWaiterSurvivesDisconnect(t, url, source, rid);
    if forall u :: u in t.connections && t.connections[u] == t.connections[url] ==> u == url {
      OneAgentHoldsNothingElsewhere(t, url, rid);
    }
  }
}
