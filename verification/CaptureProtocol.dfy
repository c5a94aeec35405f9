/**
 Center, edge and adapter together: the Doubao capture with its destructive cleanup
 (backend/agent_runtimes/bbx_adapter.py), the edge handler that drives it
 (backend/agent_server.py) and the center that must have consumed the evidence first
 (backend/ws_agent_manager.py).  Frames may be delayed, reordered or lost; every `await` is an
 interleaving point, and a step that is not possible leaves the state unchanged.
 */
module CaptureProtocol {
  import opened Common
  import opened AgentTables
  import TD = TaskDispatch
  import TE = TaskEvidence
  import OD = OrderedDict
  import TC = TerminalCache

  type Eid = nat

  /** The adapter's generator: what its code may do next. */
  datatype Generator =
    | Unborn
    | Collecting                       // reading the page; nothing destructive on this path
    | AtEvidence(eid: Eid)             // suspended at the yield of the pre-cleanup evidence
    | Resumed(eid: Eid)                // past that yield: the conversation may be deleted
    | Closed

  /** The edge handler of one task. */
  datatype Handler =
    | Setup
    | Pulling
    | Delivering(durable: bool)
    | AwaitingAck(eid: Eid)
    | Closing(iterationFailed: bool, deliveryFailed: bool)
    | Reporting(cleanupComplete: bool)
    | Over

  /** `faulted` records that the adapter itself failed: in its readiness check, while running, or while closing. */
  datatype EdgeTask = EdgeTask(ws: Sock, strict: bool, generator: Generator, handler: Handler,
                               ack: Option<bool>, deleted: Option<Eid>, faulted: bool)

  datatype EdgeEvent =
    | SetupFails(cleanupComplete: bool)
    | Invoke
    | YieldEvent
    | YieldEvidence(eid: Eid)
    | SendEvent
    | SendEvidence
    | AckArrives(eid: Eid, persisted: bool)
    | AckSeen
    | DeliveryFails
    | GeneratorEnds(raised: bool)
    | Cancel
    | StartDelete
    | CloseDone
    | CloseFails
    | Report(reply: Reply, last: bool, now: real)

  /** The terminal frame: a strict task carries its own id and the handler's cleanup verdict. */
  function Stamped(task: EdgeTask, rid: Rid, reply: Reply): Reply {
    if !reply.Reply? || !task.handler.Reporting? then NotADict
    else if task.strict then reply.(taskId := Some(rid), cleanupComplete := task.handler.cleanupComplete)
    else reply.(cleanupComplete := false)
  }

  predicate Streaming(h: Handler) {
    h.Pulling? || h.Delivering? || h.AwaitingAck?
  }

  /** One step of the handler and the generator it drives. */
  function EdgeMove(task: EdgeTask, e: EdgeEvent): EdgeTask {
    match e
    case SetupFails(cleanup) =>
      if task.handler.Setup? then task.(handler := Reporting(cleanup), faulted := !cleanup) else task
    case Invoke => if task.handler.Setup? then task.(generator := Collecting, handler := Pulling) else task
    case YieldEvent =>
      if task.handler.Pulling? then task.(handler := Delivering(false)) else task
    case YieldEvidence(eid) =>
      if task.handler.Pulling? && task.generator.Collecting?
      then task.(generator := AtEvidence(eid), handler := Delivering(true)) else task
    case SendEvent => if task.handler == Delivering(false) then task.(handler := Pulling) else task
    case SendEvidence =>
      if task.handler == Delivering(true) && task.generator.AtEvidence?
      then task.(handler := AwaitingAck(task.generator.eid), ack := None) else task
    case AckArrives(eid, persisted) =>
      if task.handler == AwaitingAck(eid) && task.ack.None? then task.(ack := Some(persisted)) else task
    case AckSeen =>
      if !task.handler.AwaitingAck? || task.ack.None? then task
      else if task.ack.value then task.(generator := Resumed(task.handler.eid), handler := Pulling)
      else task.(handler := Closing(true, true))
    case DeliveryFails =>
      if task.handler.Delivering? || task.handler.AwaitingAck? then task.(handler := Closing(true, true)) else task
    case GeneratorEnds(raised) =>
      if task.handler.Pulling? then task.(handler := Closing(raised, false), faulted := raised) else task
    case Cancel =>
      if task.handler.Setup? then task.(handler := Reporting(true))
      else if Streaming(task.handler) then task.(handler := Closing(false, false)) else task
    case StartDelete =>
      if task.handler.Pulling? && task.generator.Resumed? then task.(deleted := Some(task.generator.eid)) else task
    case CloseDone =>
      if task.handler.Closing?
      then task.(generator := Closed,
                 handler := Reporting(!task.handler.iterationFailed || task.handler.deliveryFailed))
      else task
    case CloseFails =>
      if task.handler.Closing? then task.(generator := Closed, handler := Reporting(false), faulted := true) else task
    case Report(_, last, _) => if task.handler.Reporting? && last then task.(handler := Over) else task
  }

  // ----- the edge's terminal cache -----------------------------------------------------------

  function CacheId(rid: Rid): TC.Id {
    TC.Id(rid, 36)
  }

  function CacheKind(k: Kind): TC.Kind {
    match k
    case Done => TC.Kind.Done
    case Error => TC.Kind.Error
    case OtherKind => TC.OtherKind("")
  }

  function ErrorName(e: ErrorType): Option<string> {
    match e
    case CancelledError => Some("CancelledError")
    case AgentDisconnected => Some("AgentDisconnected")
    case OtherError => Some("RuntimeError")
    case NoErrorType => None
  }

  /** A stamped terminal as it is handed to the cache. */
  function CacheEntry(rid: Rid, reply: Reply): TC.TaskResult
    requires reply.Reply?
  {
    TC.TaskResult(CacheKind(reply.kind), CacheId(rid), Some(reply.cleanupComplete), ErrorName(reply.errorType))
  }

  /** A cached terminal as a status frame carries it. */
  function StatusReply(rid: Rid, terminal: TC.Terminal): Reply {
    Reply(if terminal.kind.Done? then Kind.Done else Kind.Error, Some(rid), terminal.cleanupComplete,
          if terminal.errorType == Some("CancelledError") then CancelledError
          else if terminal.errorType.None? then NoErrorType else OtherError, 0)
  }

  /**
   `persisted` holds the evidence whose event callback has completed at the center; `cache` is the
   history of the edge's terminal cache, and `statuses` the terminals its status answers carried.
   */
  datatype System = System(
    center: TD.State,
    edge: map<Rid, EdgeTask>,
    events: set<(Rid, Eid, Sock)>,
    handling: set<(Rid, Eid)>,
    persisted: set<(Rid, Eid)>,
    acks: set<(Rid, Eid)>,
    results: set<(Rid, Sock, Reply)>,
    cache: seq<TC.Op>,
    statuses: set<(Rid, Reply)>)

  datatype Label =
    | Center(step: TD.Label)
    | Start(rid: Rid, now: real)
    | Query(rid: Rid, now: real)
    | Edge(rid: Rid, event: EdgeEvent)
    | EventArrives(rid: Rid, eid: Eid, ws: Sock)
    | CallbackCompletes(rid: Rid, eid: Eid, ackSent: bool)
    | CallbackRaises(rid: Rid, eid: Eid)

  const START: System := System(TD.START, map[], {}, {}, {}, {}, {}, [], {})

  /** The center only receives results and status terminals that the edge has sent; its other steps are its own. */
  predicate CenterMay(s: System, l: TD.Label) {
    && (l.ResultFrame? ==> (l.rid, l.ws, l.reply) in s.results)
    && (l.OfProbe? && l.probe.StatusFrame? && l.probe.result.Terminal? ==> (l.probe.about, l.probe.result.reply) in s.statuses)
  }

  /** An affirmative acknowledgement must be in flight; a rejection may come at any time. */
  predicate EdgeMay(s: System, rid: Rid, e: EdgeEvent) {
    e.AckArrives? && e.persisted ==> (rid, e.eid) in s.acks
  }

  function EdgeStep(s: System, rid: Rid, e: EdgeEvent): System
    requires rid in s.edge
  {
    var task := s.edge[rid];
    var moved := s.(edge := s.edge[rid := EdgeMove(task, e)]);
    if e.SendEvidence? && task.handler == Delivering(true) && task.generator.AtEvidence?
    then moved.(events := s.events + {(rid, task.generator.eid, task.ws)})
    else if e.Report? && task.handler.Reporting? then
      var stamped := Stamped(task, rid, e.reply);
      moved.(results := s.results + {(rid, task.ws, stamped)},
             cache := if task.strict && stamped.Reply?
                      then s.cache + [TC.Store(e.now, CacheId(rid), CacheEntry(rid, stamped))] else s.cache)
    else moved
  }

  /** The edge answers a status query from its cache: a complete cleanup always, an incomplete one once the task is over. */
  function QueryStep(s: System, rid: Rid, now: real): System {
    var asked := s.(cache := s.cache + [TC.Query(now, CacheId(rid))]);
    var cached := OD.Find(TC.Run(asked.cache, TC.Front), CacheId(rid));
    if cached.Some? && (cached.value.terminal.cleanupComplete || rid !in s.edge || s.edge[rid].handler.Over?)
    then asked.(statuses := s.statuses + {(rid, StatusReply(rid, cached.value.terminal))})
    else asked
  }

  function Step(s: System, l: Label): System {
    match l
    case Center(c) => if CenterMay(s, c) then s.(center := TD.Step(s.center, c)) else s
    case Start(rid, now) =>
      if rid in s.center.calls && !s.center.calls[rid].phase.Observing? && rid !in s.edge
      then s.(edge := s.edge[rid := EdgeTask(s.center.calls[rid].ws, s.center.calls[rid].strict, Unborn, Setup, None, None, false)],
              cache := s.cache + [TC.Restart(now, CacheId(rid))])
      else s
    case Query(rid, now) => QueryStep(s, rid, now)
    case Edge(rid, e) => if rid in s.edge && EdgeMay(s, rid, e) then EdgeStep(s, rid, e) else s
    case EventArrives(rid, eid, ws) =>
      if (rid, eid, ws) in s.events && AcceptsEvent(s.center.t, rid, ws)
      then s.(handling := s.handling + {(rid, eid)}) else s
    case CallbackCompletes(rid, eid, ackSent) =>
      if (rid, eid) !in s.handling then s
      else
        var done := s.(handling := s.handling - {(rid, eid)}, persisted := s.persisted + {(rid, eid)});
        if ackSent then done.(acks := s.acks + {(rid, eid)})
        else done.(center := TD.Step(s.center, TD.EventFails(rid)))
    case CallbackRaises(rid, eid) =>
      if (rid, eid) !in s.handling then s
      else s.(handling := s.handling - {(rid, eid)}, center := TD.Step(s.center, TD.EventFails(rid)))
  }

  function Run(s: System, ls: seq<Label>): System {
    if ls == [] then s else Step(Run(s, ls[..|ls| - 1]), ls[|ls| - 1])
  }

  // ----- the invariant ---------------------------------------------------------------------

  /** The handler has finished with the adapter: it reports, or it is done. */
  predicate Quiet(task: EdgeTask) {
    (task.handler.Reporting? || task.handler.Over?) && (task.generator.Unborn? || task.generator.Closed?)
  }

  /** What an edge task may rely on, given the evidence the center has consumed. */
  ghost predicate TaskHolds(task: EdgeTask, rid: Rid, persisted: set<(Rid, Eid)>) {
    && (task.handler.AwaitingAck? ==> task.generator == AtEvidence(task.handler.eid))
    && (task.handler.AwaitingAck? && task.ack == Some(true) ==> (rid, task.handler.eid) in persisted)
    && (task.handler == Delivering(true) ==> task.generator.AtEvidence?)
    && (task.generator.AtEvidence? ==> !task.handler.Pulling? && task.handler != Delivering(false))
    && (task.generator.Resumed? ==> (rid, task.generator.eid) in persisted)
    && (task.deleted.Some? ==> (rid, task.deleted.value) in persisted)
    && (task.handler.Setup? ==> task.generator.Unborn?)
    && (task.handler.Reporting? || task.handler.Over? ==> Quiet(task))
    && (task.handler.Setup? || Streaming(task.handler) ==> !task.faulted)
    && (task.handler.Closing? ==> (task.faulted <==> task.handler.iterationFailed && !task.handler.deliveryFailed))
    && (task.handler.Reporting? ==> (task.faulted <==> !task.handler.cleanupComplete))
  }

  ghost predicate EdgeHolds(s: System) {
    forall rid :: rid in s.edge ==> TaskHolds(s.edge[rid], rid, s.persisted)
  }

  /** Everything the center has been told was sent by an edge task that is past its adapter. */
  ghost predicate ResultsHold(s: System) {
    && s.center.delivered <= s.results
    && (forall r :: r in s.results ==> r.0 in s.edge && Truthful(s.edge[r.0], r.2))
  }

  /** A report comes from a handler past its adapter, and claims a complete cleanup exactly when nothing failed. */
  predicate Truthful(task: EdgeTask, reply: Reply) {
    Quiet(task) && (reply.Reply? ==> (reply.cleanupComplete <==> task.strict && !task.faulted))
  }

  ghost predicate Holds(s: System) {
    && TD.Inv(s.center)
    && TE.EvidenceHolds(s.center)
    && s.acks <= s.persisted
    && EdgeHolds(s)
    && ResultsHold(s)
  }

  /** Past the adapter, only the handler itself still moves. */
  predicate AtRest(before: EdgeTask, after: EdgeTask) {
    && Quiet(after)
    && after.deleted == before.deleted && after.faulted == before.faulted && after.strict == before.strict
  }

  lemma MoveHolds(task: EdgeTask, rid: Rid, e: EdgeEvent, persisted: set<(Rid, Eid)>)
    requires TaskHolds(task, rid, persisted)
    requires e.AckArrives? && e.persisted ==> (rid, e.eid) in persisted
    ensures TaskHolds(EdgeMove(task, e), rid, persisted)
    ensures Quiet(task) ==> AtRest(task, EdgeMove(task, e))
  {
  }

  lemma EdgeStepHolds(s: System, rid: Rid, e: EdgeEvent)
    requires Holds(s) && rid in s.edge && EdgeMay(s, rid, e)
    ensures Holds(EdgeStep(s, rid, e))
  {
    MoveHolds(s.edge[rid], rid, e, s.persisted);
    var r := EdgeStep(s, rid, e);
    forall x | x in r.results ensures x.0 in r.edge && Truthful(r.edge[x.0], x.2) {
      if x in s.results {
        assert Truthful(s.edge[x.0], x.2);
      }
    }
  }

  /** A center step delivers at most the frame of its label. */
  lemma DeliveredGrows(c: TD.State, l: TD.Label)
    ensures TD.Step(c, l).delivered == if l.ResultFrame? then c.delivered + {(l.rid, l.ws, l.reply)} else c.delivered
  {
    if !TE.TouchesEvidence(l) {
      TE.OtherStepsKeepEvidence(c, l);
    }
  }

  lemma CenterStepHolds(s: System, l: TD.Label)
    requires Holds(s) && CenterMay(s, l)
    ensures Holds(s.(center := TD.Step(s.center, l)))
  {
    TD.StepInv(s.center, l);
    TE.StepEvidence(s.center, l);
    DeliveredGrows(s.center, l);
  }

  lemma StepHolds(s: System, l: Label)
    requires Holds(s)
    ensures Holds(Step(s, l))
  {
    match l
    case Center(c) => if CenterMay(s, c) { CenterStepHolds(s, c); }
    case Start(_, _) =>
    case Query(_, _) =>
    case Edge(rid, e) => if rid in s.edge && EdgeMay(s, rid, e) { EdgeStepHolds(s, rid, e); }
    case EventArrives(_, _, _) =>
    case CallbackCompletes(rid, eid, ackSent) =>
      if (rid, eid) in s.handling {
        CenterStepHolds(s, TD.EventFails(rid));
        forall x | x in s.edge ensures TaskHolds(s.edge[x], x, s.persisted + {(rid, eid)}) {
        }
      }
    case CallbackRaises(rid, eid) => CenterStepHolds(s, TD.EventFails(rid));
  }

  /** An edge task only changes by its own steps. */
  lemma TaskAfter(s: System, l: Label, rid: Rid)
    requires rid in s.edge
    ensures rid in Step(s, l).edge
    ensures Step(s, l).edge[rid] ==
            if l.Edge? && l.rid == rid && EdgeMay(s, rid, l.event) then EdgeMove(s.edge[rid], l.event) else s.edge[rid]
  {
  }

  lemma {:induction false} RunHolds(ls: seq<Label>)
    ensures Holds(Run(START, ls))
  {
    if ls != [] {
      RunHolds(ls[..|ls| - 1]);
      StepHolds(Run(START, ls[..|ls| - 1]), ls[|ls| - 1]);
    }
  }

  // ----- the theorems --------------------------------------------------------------------------

  /**
   In every run, the conversation of a task is only deleted once the center's event callback
   for that task's pre-cleanup evidence has completed.
   */
  lemma DeleteFollowsPersistedEvidence(ls: seq<Label>, rid: Rid)
    ensures var s := Run(START, ls);
            rid in s.edge && s.edge[rid].deleted.Some? ==> (rid, s.edge[rid].deleted.value) in s.persisted
  {
    RunHolds(ls);
  }

  /** The yield of the evidence is left in two ways only: resumed after the callback, or closed. */
  lemma EvidenceYieldIsAGate(ls: seq<Label>, l: Label, rid: Rid)
    requires var s := Run(START, ls); rid in s.edge && s.edge[rid].generator.AtEvidence?
    ensures var s := Run(START, ls);
            var eid, after := s.edge[rid].generator.eid, Step(s, l).edge;
            && rid in after
            && (after[rid].generator == AtEvidence(eid) || after[rid].generator.Closed?
                || (after[rid].generator == Resumed(eid) && (rid, eid) in s.persisted))
  {
    RunHolds(ls);
    var s := Run(START, ls);
    TaskAfter(s, l, rid);
    if l.Edge? && l.rid == rid && EdgeMay(s, rid, l.event) {
      MoveLeavesEvidence(s.edge[rid], rid, l.event, s.persisted);
    }
  }

  lemma MoveLeavesEvidence(task: EdgeTask, rid: Rid, e: EdgeEvent, persisted: set<(Rid, Eid)>)
    requires TaskHolds(task, rid, persisted) && task.generator.AtEvidence?
    ensures var eid, g := task.generator.eid, EdgeMove(task, e).generator;
            g == AtEvidence(eid) || g.Closed? || (g == Resumed(eid) && (rid, eid) in persisted)
  {
  }

  lemma {:induction false} QuietForEver(s: System, ls: seq<Label>, rid: Rid)
    requires Holds(s) && rid in s.edge && Quiet(s.edge[rid])
    ensures Holds(Run(s, ls))
    ensures var r := Run(s, ls);
            rid in r.edge && AtRest(s.edge[rid], r.edge[rid])
  {
    if ls != [] {
      var before := Run(s, ls[..|ls| - 1]);
      QuietForEver(s, ls[..|ls| - 1], rid);
      StepHolds(before, ls[|ls| - 1]);
      var l := ls[|ls| - 1];
      TaskAfter(before, l, rid);
      if l.Edge? && l.rid == rid && EdgeMay(before, rid, l.event) {
        MoveHolds(before.edge[rid], rid, l.event, before.persisted);
      }
    }
  }

  lemma {:induction false} RunSplits(s: System, ls: seq<Label>, more: seq<Label>)
    ensures Run(s, ls + more) == Run(Run(s, ls), more)
  {
    if more == [] {
      assert ls + more == ls;
    } else {
      assert (ls + more)[..|ls + more| - 1] == ls + more[..|more| - 1];
      RunSplits(s, ls, more[..|more| - 1]);
    }
  }

  /**
   End to end: once a strict dispatch has returned normally at the center, the edge is done
   with the adapter, whose cleanup did not fail, and no continuation of the run starts a
   deletion any more.
   */
  lemma NothingRunsAfterStrictReturn(ls: seq<Label>, more: seq<Label>, rid: Rid)
    requires var c := Run(START, ls).center;
             rid in c.calls && c.calls[rid].strict && c.calls[rid].phase.Returned?
    ensures var s, r := Run(START, ls), Run(START, ls + more);
            && rid in s.edge && Quiet(s.edge[rid]) && !s.edge[rid].faulted
            && rid in r.edge && AtRest(s.edge[rid], r.edge[rid])
  {
    RunHolds(ls);
    var s := Run(START, ls);
    var call := s.center.calls[rid];
    assert TD.Genuine(s.center, rid, call.phase.reply);
    assert (rid, call.ws, call.phase.reply) in s.results;
    QuietForEver(s, more, rid);
    RunSplits(START, ls, more);
  }

  /** The same holds for whoever reads the retained evidence later, after a timeout or a disconnect. */
  lemma RetainedEvidenceMeansQuiet(ls: seq<Label>, more: seq<Label>, key: Url -> string, agentKey: string, rid: Rid)
    requires ReadProof(Run(START, ls).center.t, key, agentKey, rid).Some?
    ensures var s, r := Run(START, ls), Run(START, ls + more);
            && rid in s.edge && Quiet(s.edge[rid]) && !s.edge[rid].faulted
            && rid in r.edge && AtRest(s.edge[rid], r.edge[rid])
  {
    RunHolds(ls);
    var s := Run(START, ls);
    EvidenceStaysWithItsAgent(s.center.t, key, agentKey, rid);
    var e := ReadProof(s.center.t, key, agentKey, rid).value;
    var reply :| TD.Genuine(s.center, rid, reply) && e == CleanupProof(reply, rid);
    assert (rid, s.center.calls[rid].ws, reply) in s.results;
    QuietForEver(s, more, rid);
    RunSplits(START, ls, more);
  }

  // ----- how the edge handles a task --------------------------------------------------------------

  /** Before the adapter runs: a failing check ends the task with the check's own cleanup verdict, a cancellation with a clean one. */
  lemma SetupIsHandled(task: EdgeTask, cleanup: bool)
    requires task.handler.Setup?
    ensures var failed := EdgeMove(task, SetupFails(cleanup));
            failed == task.(handler := Reporting(cleanup), faulted := !cleanup)
    ensures EdgeMove(task, Invoke) == task.(generator := Collecting, handler := Pulling)
    ensures EdgeMove(task, Cancel) == task.(handler := Reporting(true))
  {
  }

  /** What the generator yields is delivered before it is pulled again; when it ends or is cancelled it is closed. */
  lemma PullingIsHandled(task: EdgeTask, eid: Eid, raised: bool)
    requires task.handler.Pulling?
    ensures EdgeMove(task, YieldEvent) == task.(handler := Delivering(false))
    ensures EdgeMove(EdgeMove(task, YieldEvent), SendEvent) == task
    ensures EdgeMove(task, YieldEvidence(eid))
            == if task.generator.Collecting? then task.(generator := AtEvidence(eid), handler := Delivering(true)) else task
    ensures EdgeMove(task, GeneratorEnds(raised)) == task.(handler := Closing(raised, false), faulted := raised)
    ensures EdgeMove(task, Cancel) == task.(handler := Closing(false, false))
    ensures EdgeMove(task, StartDelete)
            == if task.generator.Resumed? then task.(deleted := Some(task.generator.eid)) else task
  {
  }

  /**
   Evidence that is sent waits for its own first acknowledgement, which alone resumes the generator;
   a rejection, a failed delivery or a cancellation closes it instead.
   */
  lemma EvidenceIsHandled(task: EdgeTask, eid: Eid, persisted: bool)
    requires task.handler == Delivering(true) && task.generator == AtEvidence(eid)
    ensures var sent := EdgeMove(task, SendEvidence);
            && sent == task.(handler := AwaitingAck(eid), ack := None)
            && EdgeMove(sent, AckSeen) == sent
            && (forall other, p :: other != eid ==> EdgeMove(sent, AckArrives(other, p)) == sent)
            && EdgeMove(sent, DeliveryFails) == sent.(handler := Closing(true, true))
            && EdgeMove(sent, Cancel) == sent.(handler := Closing(false, false))
            && var acked := EdgeMove(sent, AckArrives(eid, persisted));
            && acked == sent.(ack := Some(persisted))
            && (forall p :: EdgeMove(acked, AckArrives(eid, p)) == acked)
            && EdgeMove(acked, AckSeen) == if persisted then acked.(generator := Resumed(eid), handler := Pulling)
                                           else acked.(handler := Closing(true, true))
  {
  }

  /** Closing the generator decides the verdict: clean unless the adapter itself had raised or fails to close. */
  lemma ClosingIsHandled(task: EdgeTask)
    requires task.handler.Closing?
    ensures EdgeMove(task, CloseDone)
            == task.(generator := Closed, handler := Reporting(!(task.handler.iterationFailed && !task.handler.deliveryFailed)))
    ensures EdgeMove(task, CloseFails) == task.(generator := Closed, handler := Reporting(false), faulted := true)
    ensures EdgeMove(task, Cancel) == task
  {
  }

  /** A frame is only sent by a handler at its send, and only once the evidence waits for its acknowledgement. */
  lemma EvidenceGoesOut(s: System, rid: Rid)
    requires rid in s.edge && s.edge[rid].handler == Delivering(true) && s.edge[rid].generator.AtEvidence?
    ensures var r, eid := Step(s, Edge(rid, SendEvidence)), s.edge[rid].generator.eid;
            && r.events == s.events + {(rid, eid, s.edge[rid].ws)} && r.results == s.results
            && Get(r.edge, rid) == Some(s.edge[rid].(handler := AwaitingAck(eid), ack := None))
  {
  }

  /**
   A report keeps what the adapter said, under the task's own id and with the handler's verdict for a
   strict task, and is cached for status queries; other tasks confirm nothing.
   */
  lemma ReportGoesOut(s: System, rid: Rid, reply: Reply, last: bool, now: real)
    requires rid in s.edge && s.edge[rid].handler.Reporting? && reply.Reply?
    ensures var task, r := s.edge[rid], Step(s, Edge(rid, Report(reply, last, now)));
            var frame := if task.strict then Reply(reply.kind, Some(rid), task.handler.cleanupComplete, reply.errorType, reply.body)
                         else Reply(reply.kind, reply.taskId, false, reply.errorType, reply.body);
            && r.results == s.results + {(rid, task.ws, frame)}
            && Get(r.edge, rid) == Some(if last then task.(handler := Over) else task)
            && (if task.strict then
                  && |r.cache| == |s.cache| + 1 && r.cache[..|s.cache|] == s.cache
                  && r.cache[|s.cache|].Store? && r.cache[|s.cache|].id == CacheId(rid)
                  && r.cache[|s.cache|].result.cleanupComplete == Some(task.handler.cleanupComplete)
                  && (r.cache[|s.cache|].result.kind.Done? <==> reply.kind.Done?)
                  && (r.cache[|s.cache|].result.errorType == Some("CancelledError") <==> reply.errorType.CancelledError?)
                else r.cache == s.cache)
  {
  }

  /** A query is answered with the cached terminal, if there is one and it is complete or the task is over. */
  lemma QueryIsAnswered(s: System, rid: Rid, now: real)
    ensures var r := Step(s, Query(rid, now));
            var cached := OD.Find(TC.Run(s.cache + [TC.Query(now, CacheId(rid))], TC.Front), CacheId(rid));
            && r.cache == s.cache + [TC.Query(now, CacheId(rid))] && r.edge == s.edge && r.results == s.results
            && if cached.Some? && (cached.value.terminal.cleanupComplete || rid !in s.edge || s.edge[rid].handler.Over?) then
                 exists answer: Reply ::
                   && r.statuses == s.statuses + {(rid, answer)} && answer.Reply? && answer.taskId == Some(rid)
                   && answer.cleanupComplete == cached.value.terminal.cleanupComplete
                   && answer.kind == (if cached.value.terminal.kind.Done? then Kind.Done else Kind.Error)
                   && (answer.errorType.CancelledError? <==> cached.value.terminal.errorType == Some("CancelledError"))
               else r.statuses == s.statuses
  {
    var cached := OD.Find(TC.Run(s.cache + [TC.Query(now, CacheId(rid))], TC.Front), CacheId(rid));
    if cached.Some? {
      var answer := StatusReply(rid, cached.value.terminal);
    }
  }

  /** An event is handled only on the socket it was sent on, while the center accepts that socket for the task. */
  lemma EventIsHandledIff(s: System, rid: Rid, eid: Eid, ws: Sock)
    ensures Step(s, EventArrives(rid, eid, ws)).handling
            == if (rid, eid, ws) in s.events && rid in s.center.t.callbacks
                  && Get(s.center.t.connections, s.center.t.callbacks[rid]) == Some(ws)
               then s.handling + {(rid, eid)} else s.handling
  {
  }

  /** A callback acknowledges what it has persisted; one that raises, or whose acknowledgement is not sent, fails the waiter. */
  lemma CallbackIsAnswered(s: System, rid: Rid, eid: Eid)
    requires (rid, eid) in s.handling
    ensures var acked := Step(s, CallbackCompletes(rid, eid, true));
            acked.persisted == s.persisted + {(rid, eid)} && acked.acks == s.acks + {(rid, eid)} && acked.center == s.center
    ensures var mute := Step(s, CallbackCompletes(rid, eid, false));
            mute.persisted == s.persisted + {(rid, eid)} && mute.acks == s.acks && mute.center == TD.Step(s.center, TD.EventFails(rid))
    ensures var raised := Step(s, CallbackRaises(rid, eid));
            raised.persisted == s.persisted && raised.acks == s.acks && raised.center == TD.Step(s.center, TD.EventFails(rid))
  {
  }

  // ----- a report reaches the caller --------------------------------------------------------------

  /** Every edge task belongs to a call, runs on its socket and is strict if the call is. */
  ghost predicate EdgeFitsCalls(s: System) {
    forall rid :: rid in s.edge ==>
      rid in s.center.calls && s.edge[rid].ws == s.center.calls[rid].ws && s.edge[rid].strict == s.center.calls[rid].strict
  }

  lemma CenterKeepsCall(c: TD.State, l: TD.Label, rid: Rid)
    requires rid in c.calls
    ensures rid in TD.Step(c, l).calls
    ensures TD.Step(c, l).calls[rid].ws == c.calls[rid].ws && TD.Step(c, l).calls[rid].strict == c.calls[rid].strict
  {
    TD.OnlyOwnEvents(c, l, rid);
    if l.OfCall? && l.rid == rid {
      CallKeepsSocket(c, rid, TD.EffectOf(c, rid, l.event));
    }
  }

  lemma CallKeepsSocket(c: TD.State, rid: Rid, effect: TD.Effect)
    requires rid in c.calls
    ensures rid in TD.Apply(c, rid, effect).calls
    ensures TD.Apply(c, rid, effect).calls[rid].ws == c.calls[rid].ws && TD.Apply(c, rid, effect).calls[rid].strict == c.calls[rid].strict
  {
  }

  lemma StepFits(s: System, l: Label)
    requires EdgeFitsCalls(s)
    ensures EdgeFitsCalls(Step(s, l))
  {
    var r := Step(s, l);
    forall rid | rid in r.edge
      ensures rid in r.center.calls && r.edge[rid].ws == r.center.calls[rid].ws && r.edge[rid].strict == r.center.calls[rid].strict
    {
      if rid in s.edge {
        TaskAfter(s, l, rid);
        CenterAfter(s, l, rid);
      }
    }
  }

  lemma CenterAfter(s: System, l: Label, rid: Rid)
    requires rid in s.center.calls
    ensures rid in Step(s, l).center.calls
    ensures Step(s, l).center.calls[rid].ws == s.center.calls[rid].ws
            && Step(s, l).center.calls[rid].strict == s.center.calls[rid].strict
  {
    if l.Center? { CenterKeepsCall(s.center, l.step, rid); }
    if l.CallbackCompletes? || l.CallbackRaises? { CenterKeepsCall(s.center, TD.EventFails(l.rid), rid); }
  }

  lemma {:induction false} RunFits(ls: seq<Label>)
    ensures EdgeFitsCalls(Run(START, ls))
  {
    if ls != [] {
      RunFits(ls[..|ls| - 1]);
      StepFits(Run(START, ls[..|ls| - 1]), ls[|ls| - 1]);
    }
  }

  /**
   End to end: what a strict task reports while its call waits is returned to the caller with the
   adapter's outcome, exactly if its handler found the cleanup complete; otherwise the call goes
   into confirmed cancellation.
   */
  lemma {:induction false} ReportReachesTheCaller(ls: seq<Label>, rid: Rid, reply: Reply, last: bool, now: real)
    requires var s := Run(START, ls);
             && rid in s.edge && s.edge[rid].handler.Reporting? && s.edge[rid].strict
             && TD.At(s.center, rid, TD.Waiting) && rid in s.center.t.tasks && s.center.t.tasks[rid].Pending?
    requires reply.Reply? && reply.kind in {Done, Error}
    ensures var task := Run(START, ls).edge[rid];
            var frame := Reply(reply.kind, Some(rid), task.handler.cleanupComplete, reply.errorType, reply.body);
            TD.At(Run(START, ls + [Edge(rid, Report(reply, last, now))] + [Center(TD.ResultFrame(rid, frame, task.ws, now))]
                             + [Center(TD.OfCall(rid, TD.Wake))]).center, rid,
                  if task.handler.cleanupComplete then TD.Returned(frame) else TD.Cleaning(TD.ByError, false))
  {
    RunHolds(ls);
    RunFits(ls);
    var s := Run(START, ls);
    var task := s.edge[rid];
    var frame := Reply(reply.kind, Some(rid), task.handler.cleanupComplete, reply.errorType, reply.body);
    var report := Edge(rid, Report(reply, last, now));
    var arrival, wake := TD.ResultFrame(rid, frame, task.ws, now), TD.OfCall(rid, TD.Wake);
    ReportGoesOut(s, rid, reply, last, now);
    ReportIsSeen(ls, report, arrival, wake);
    FrameThenWake(s.center, rid, frame, now);
  }

  lemma {:induction false} ReportIsSeen(ls: seq<Label>, report: Label, arrival: TD.Label, wake: TD.Label)
    requires Step(Run(START, ls), report).center == Run(START, ls).center
    requires CenterMay(Step(Run(START, ls), report), arrival) && wake.OfCall?
    ensures Run(START, ls + [report] + [Center(arrival)] + [Center(wake)]).center
            == TD.Step(TD.Step(Run(START, ls).center, arrival), wake)
  {
    RunSnoc(ls, report);
    RunSnoc(ls + [report], Center(arrival));
    RunSnoc(ls + [report] + [Center(arrival)], Center(wake));
  }

  lemma FrameThenWake(c: TD.State, rid: Rid, frame: Reply, now: real)
    requires TD.Inv(c) && TD.At(c, rid, TD.Waiting) && c.calls[rid].strict && rid in c.t.tasks && c.t.tasks[rid].Pending?
    ensures TD.At(TD.Step(TD.Step(c, TD.ResultFrame(rid, frame, c.calls[rid].ws, now)), TD.OfCall(rid, TD.Wake)), rid,
                  if TD.ConfirmsCleanup(frame, rid) then TD.Returned(frame) else TD.Cleaning(TD.ByError, false))
  {
    var arrival := TD.ResultFrame(rid, frame, c.calls[rid].ws, now);
    TD.OwnFrameSettles(c, rid, frame, now);
    TD.OnlyOwnEvents(c, arrival, rid);
    TD.WaitingCallWakes(TD.Step(c, arrival), rid);
  }

  // ----- the deletion can be reached ------------------------------------------------------------

  lemma RunSnoc(ls: seq<Label>, l: Label)
    ensures Run(START, ls + [l]) == Step(Run(START, ls), l)
  {
    assert (ls + [l])[..|ls + [l]| - 1] == ls;
  }

  const CONNECTED: TD.Label := TD.Connect(0, 0)
  const BEGUN: TD.Label := TD.Begin(0, 0, true, false, 0.0)

  /** A strict task has been dispatched to the agent, and its edge has started it. */
  lemma Dispatched() returns (ls: seq<Label>)
    ensures var s := Run(START, ls);
            && s.edge == map[0 := EdgeTask(0, true, Unborn, Setup, None, None, false)]
            && AcceptsEvent(s.center.t, 0, 0)
  {
    ls := [];
    RunSnoc(ls, Center(CONNECTED));
    ls := ls + [Center(CONNECTED)];
    assert Run(START, ls).center.t.connections == map[0 := 0];
    RunSnoc(ls, Center(BEGUN));
    ls := ls + [Center(BEGUN)];
    assert AcceptsEvent(Run(START, ls).center.t, 0, 0);
    assert Run(START, ls).center.calls[0].phase == TD.Sending;
    RunSnoc(ls, Start(0, 0.0));
    ls := ls + [Start(0, 0.0)];
  }

  const AWAITING: EdgeTask := EdgeTask(0, true, AtEvidence(7), AwaitingAck(7), None, None, false)

  lemma EvidenceSent() returns (ls: seq<Label>)
    ensures var s := Run(START, ls);
            s.edge == map[0 := AWAITING] && (0, 7, 0) in s.events && AcceptsEvent(s.center.t, 0, 0)
  {
    ls := Dispatched();
    RunSnoc(ls, Edge(0, Invoke));
    ls := ls + [Edge(0, Invoke)];
    RunSnoc(ls, Edge(0, YieldEvidence(7)));
    ls := ls + [Edge(0, YieldEvidence(7))];
    RunSnoc(ls, Edge(0, SendEvidence));
    ls := ls + [Edge(0, SendEvidence)];
  }

  /** The evidence has reached the center and its callback has completed. */
  lemma EvidencePersisted() returns (ls: seq<Label>)
    ensures var s := Run(START, ls); s.edge == map[0 := AWAITING] && (0, 7) in s.acks
  {
    ls := EvidenceSent();
    RunSnoc(ls, EventArrives(0, 7, 0));
    ls := ls + [EventArrives(0, 7, 0)];
    RunSnoc(ls, CallbackCompletes(0, 7, true));
    ls := ls + [CallbackCompletes(0, 7, true)];
  }

  /** With the acknowledgement delivered, the deletion does happen: the guarantees above are not vacuous. */
  lemma DeletionIsReachable() returns (ls: seq<Label>)
    ensures var s := Run(START, ls); 0 in s.edge && s.edge[0].deleted == Some(7)
  {
    ls := EvidencePersisted();
    RunSnoc(ls, Edge(0, AckArrives(7, true)));
    ls := ls + [Edge(0, AckArrives(7, true))];
    RunSnoc(ls, Edge(0, AckSeen));
    ls := ls + [Edge(0, AckSeen)];
    RunSnoc(ls, Edge(0, StartDelete));
    ls := ls + [Edge(0, StartDelete)];
  }
}
