/**
 Status probes over `CaptureProtocol`: what the center may conclude from the edge's terminal cache
 when the result frame itself was lost.
 */
module CaptureStatus {
  import opened Common
  import OD = OrderedDict
  import opened AgentTables
  import TD = TaskDispatch
  import TC = TerminalCache
  import opened CaptureProtocol

  /** The edge is done with the adapter of this task, and nothing of it failed. */
  predicate Clean(edge: map<Rid, EdgeTask>, rid: Rid) {
    rid in edge && Quiet(edge[rid]) && !edge[rid].faulted
  }

  /** Only tasks that ended clean are stored with a complete cleanup. */
  ghost predicate CacheHolds(s: System) {
    forall i :: 0 <= i < |s.cache| && s.cache[i].Store? && s.cache[i].result.cleanupComplete == Some(true) ==>
      Clean(s.edge, s.cache[i].id.key)
  }

  ghost predicate StatusesHold(s: System) {
    forall x :: x in s.statuses && x.1.Reply? && x.1.cleanupComplete ==> Clean(s.edge, x.0)
  }

  predicate Evident(p: Probe) {
    p.future.Settled? && p.future.value.Evidence?
  }

  ghost predicate ProbesHold(s: System) {
    forall pid :: pid in s.center.t.probes && Evident(s.center.t.probes[pid]) ==>
      Clean(s.edge, s.center.t.probes[pid].future.value.proof.taskId)
  }

  ghost predicate StatusInv(s: System) {
    CacheHolds(s) && StatusesHold(s) && ProbesHold(s)
  }

  // ----- the edge keeps what it said -------------------------------------------------------------

  lemma CleanStays(s: System, l: Label, rid: Rid)
    requires Holds(s) && Clean(s.edge, rid)
    ensures Clean(Step(s, l).edge, rid)
  {
    TaskAfter(s, l, rid);
    if l.Edge? && l.rid == rid && EdgeMay(s, rid, l.event) {
      MoveHolds(s.edge[rid], rid, l.event, s.persisted);
    }
  }

  /** What is stored now, and what is answered now. */
  lemma ReportIsClean(s: System, rid: Rid, e: EdgeEvent)
    requires Holds(s) && rid in s.edge && EdgeMay(s, rid, e)
    requires e.Report? && s.edge[rid].handler.Reporting? && s.edge[rid].strict
    requires Stamped(s.edge[rid], rid, e.reply).Reply? && Stamped(s.edge[rid], rid, e.reply).cleanupComplete
    ensures Clean(EdgeStep(s, rid, e).edge, rid)
  {
    MoveHolds(s.edge[rid], rid, e, s.persisted);
    assert TaskHolds(s.edge[rid], rid, s.persisted);
  }

  lemma AnswerIsClean(s: System, ops: seq<TC.Op>, rid: Rid)
    requires CacheHolds(s) && (|ops| == |s.cache| + 1 && ops[..|s.cache|] == s.cache && ops[|s.cache|].Query?)
    requires var cached := OD.Find(TC.Run(ops, TC.Front), CacheId(rid)); cached.Some? && cached.value.terminal.cleanupComplete
    ensures Clean(s.edge, rid)
  {
    var cached := OD.Find(TC.Run(ops, TC.Front), CacheId(rid)).value;
    TC.CachedWasStored(ops, CacheId(rid));
    var i :| 0 <= i < |ops| && TC.StoredAt(ops, i, CacheId(rid), cached);
    assert ops[i] == s.cache[i];
  }

  lemma CacheGrows(s: System, l: Label)
    ensures s.cache <= Step(s, l).cache && |Step(s, l).cache| <= |s.cache| + 1
    ensures forall i :: |s.cache| <= i < |Step(s, l).cache| && Step(s, l).cache[i].Store? ==>
              && l.Edge? && l.rid in s.edge && EdgeMay(s, l.rid, l.event) && l.event.Report?
              && s.edge[l.rid].handler.Reporting? && s.edge[l.rid].strict
              && var stamped := Stamped(s.edge[l.rid], l.rid, l.event.reply);
                 stamped.Reply? && Step(s, l).cache[i] == TC.Store(l.event.now, CacheId(l.rid), CacheEntry(l.rid, stamped))
  {
  }

  lemma StepCache(s: System, l: Label)
    requires Holds(s) && CacheHolds(s)
    ensures CacheHolds(Step(s, l))
  {
    CacheGrows(s, l);
    var r := Step(s, l);
    forall i | 0 <= i < |r.cache| && r.cache[i].Store? && r.cache[i].result.cleanupComplete == Some(true)
      ensures Clean(r.edge, r.cache[i].id.key)
    {
      if i < |s.cache| {
        assert r.cache[i] == s.cache[i];
        CleanStays(s, l, s.cache[i].id.key);
      } else {
        ReportIsClean(s, l.rid, l.event);
      }
    }
  }

  lemma StatusesGrow(s: System, l: Label, x: (Rid, Reply))
    requires x in Step(s, l).statuses && x !in s.statuses
    ensures l.Query? && l.rid == x.0
    ensures var cached := OD.Find(TC.Run(s.cache + [TC.Query(l.now, CacheId(l.rid))], TC.Front), CacheId(l.rid));
            cached.Some? && x.1 == StatusReply(l.rid, cached.value.terminal)
  {
  }

  lemma StepStatuses(s: System, l: Label)
    requires Holds(s) && CacheHolds(s) && StatusesHold(s)
    ensures StatusesHold(Step(s, l))
  {
    var r := Step(s, l);
    forall x | x in r.statuses && x.1.Reply? && x.1.cleanupComplete ensures Clean(r.edge, x.0) {
      if x !in s.statuses {
        StatusesGrow(s, l, x);
        AnswerIsClean(s, s.cache + [TC.Query(l.now, CacheId(l.rid))], l.rid);
      }
      CleanStays(s, l, x.0);
    }
  }

  // ----- the center learns nothing else --------------------------------------------------------------

  lemma CallKeepsProbes(c: TD.State, rid: Rid, effect: TD.Effect)
    requires rid in c.calls
    ensures TD.Apply(c, rid, effect).t.probes == c.t.probes
  {
  }

  lemma BeginKeepsProbes(c: TD.State, rid: Rid, url: Url, strict: bool, observed: bool, now: real)
    ensures TD.BeginCall(c, rid, url, strict, observed, now).t.probes == c.t.probes
  {
  }

  lemma FamiliesKeepProbes(t: Tables, rid: Rid, e: TD.CollectEvent, k: TD.ControlEvent)
    ensures TD.CollectStep(t, rid, e).probes == t.probes && TD.ControlStep(t, rid, k).probes == t.probes
  {
  }

  lemma ResultKeepsProbes(t: Tables, rid: Rid, reply: Reply, ws: Sock, now: real)
    ensures ResolveResult(t, rid, reply, ws, now).probes == t.probes
  {
  }

  /** Apart from probe events and connections, no center step touches the probes. */
  lemma OthersKeepProbes(c: TD.State, l: TD.Label)
    requires !l.OfProbe? && !l.Connect? && !l.Disconnect?
    ensures TD.Step(c, l).t.probes == c.t.probes
  {
    match l
    case Begin(rid, url, strict, observed, now) => BeginKeepsProbes(c, rid, url, strict, observed, now);
    case OfCall(rid, event) => if rid in c.calls { CallKeepsProbes(c, rid, TD.EffectOf(c, rid, event)); }
    case ResultFrame(rid, reply, ws, now) => ResultKeepsProbes(c.t, rid, reply, ws, now);
    case EventFails(_) =>
    case OfCollect(rid, e) => FamiliesKeepProbes(c.t, rid, e, TD.ControlEnds);
    case OfControl(rid, k) => FamiliesKeepProbes(c.t, rid, TD.CollectEnds, k);
    case PruneAt(_) =>
    case Forget(_) =>
  }

  lemma DisconnectsProveNothing(t: Tables, url: Url, source: Option<Sock>, pid: Rid)
    requires pid in Unregister(t, url, source).probes && Evident(Unregister(t, url, source).probes[pid])
    ensures pid in t.probes && t.probes[pid].future == Unregister(t, url, source).probes[pid].future
  {
  }

  lemma ConnectsProveNothing(t: Tables, url: Url, ws: Sock, pid: Rid)
    requires pid in Register(t, url, ws).probes && Evident(Register(t, url, ws).probes[pid])
    ensures pid in t.probes && t.probes[pid].future == Register(t, url, ws).probes[pid].future
  {
    if url in t.connections && t.connections[url] != ws {
      DisconnectsProveNothing(t, url, Some(t.connections[url]), pid);
    }
  }

  /** A probe learns of a cleanup only from a status frame that carries a confirmed terminal. */
  predicate Tells(l: TD.Label, pid: Rid, proof: Proof) {
    && l.OfProbe? && l.rid == pid && l.probe.StatusFrame? && l.probe.result.Terminal?
    && Confirmed(l.probe.result.reply, l.probe.about) && proof.taskId == l.probe.about
  }

  lemma ProbeLearns(t: Tables, pid: Rid, rid: Rid, e: TD.ProbeEvent)
    requires pid in TD.ProbeStep(t, rid, e).probes && Evident(TD.ProbeStep(t, rid, e).probes[pid])
    ensures var after := TD.ProbeStep(t, rid, e).probes[pid].future;
            || (pid in t.probes && t.probes[pid].future == after)
            || Tells(TD.OfProbe(rid, e), pid, after.value.proof)
  {
  }

  lemma EvidenceComesFromStatus(c: TD.State, l: TD.Label, pid: Rid)
    requires pid in TD.Step(c, l).t.probes && Evident(TD.Step(c, l).t.probes[pid])
    ensures var after := TD.Step(c, l).t.probes[pid].future;
            (pid in c.t.probes && c.t.probes[pid].future == after) || Tells(l, pid, after.value.proof)
  {
    match l
    case OfProbe(rid, e) => ProbeLearns(c.t, pid, rid, e);
    case Connect(url, ws) => ConnectsProveNothing(c.t, url, ws, pid);
    case Disconnect(url, source) => DisconnectsProveNothing(c.t, url, source, pid);
    case _ => OthersKeepProbes(c, l);
  }

  lemma CenterProbes(s: System, l: TD.Label)
    requires StatusesHold(s) && ProbesHold(s) && CenterMay(s, l)
    ensures ProbesHold(s.(center := TD.Step(s.center, l)))
  {
    var t := TD.Step(s.center, l).t;
    forall pid | pid in t.probes && Evident(t.probes[pid]) ensures Clean(s.edge, t.probes[pid].future.value.proof.taskId) {
      EvidenceComesFromStatus(s.center, l, pid);
      if Tells(l, pid, t.probes[pid].future.value.proof) {
        assert (l.probe.about, l.probe.result.reply) in s.statuses;
      }
    }
  }

  /** The center component of a step. */
  lemma CenterAfter(s: System, l: Label)
    ensures Step(s, l).center == s.center
            || (l.Center? && CenterMay(s, l.step) && Step(s, l).center == TD.Step(s.center, l.step))
            || ((l.CallbackCompletes? || l.CallbackRaises?) && Step(s, l).center == TD.Step(s.center, TD.EventFails(l.rid)))
  {
  }

  lemma StepProbes(s: System, l: Label)
    requires Holds(s) && StatusesHold(s) && ProbesHold(s)
    ensures ProbesHold(Step(s, l))
  {
    var r := Step(s, l);
    CenterAfter(s, l);
    if r.center != s.center {
      CenterProbes(s, if l.Center? then l.step else TD.EventFails(l.rid));
    }
    forall pid | pid in r.center.t.probes && Evident(r.center.t.probes[pid])
      ensures Clean(r.edge, r.center.t.probes[pid].future.value.proof.taskId)
    {
      CleanStays(s, l, r.center.t.probes[pid].future.value.proof.taskId);
    }
  }

  lemma {:induction false} RunStatus(ls: seq<Label>)
    ensures Holds(Run(START, ls)) && StatusInv(Run(START, ls))
  {
    RunHolds(ls);
    if ls != [] {
      var s, l := Run(START, ls[..|ls| - 1]), ls[|ls| - 1];
      RunStatus(ls[..|ls| - 1]);
      StepCache(s, l);
      StepStatuses(s, l);
      StepProbes(s, l);
    }
  }

  /**
   A status probe that was answered with cleanup evidence means what a confirmed result means: the
   edge is done with the adapter of that task, nothing of it failed, and no continuation of the
   run starts a deletion.
   */
  lemma ProbeEvidenceMeansQuiet(ls: seq<Label>, more: seq<Label>, pid: Rid)
    requires var t := Run(START, ls).center.t; pid in t.probes && Evident(t.probes[pid])
    ensures var s, r := Run(START, ls), Run(START, ls + more);
            var rid := s.center.t.probes[pid].future.value.proof.taskId;
            && rid in s.edge && Quiet(s.edge[rid]) && !s.edge[rid].faulted
            && rid in r.edge && AtRest(s.edge[rid], r.edge[rid])
  {
    RunStatus(ls);
    var s := Run(START, ls);
    QuietForEver(s, more, s.center.t.probes[pid].future.value.proof.taskId);
    RunSplits(START, ls, more);
  }
}
