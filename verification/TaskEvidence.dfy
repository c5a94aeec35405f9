/** The retained cleanup evidence over whole runs of `TaskDispatch`. */
module TaskEvidence {
  import opened Common
  import opened OrderedDict
  import opened AgentTables
  import opened TaskDispatch

  /** `proof` is the redaction of a confirmed terminal that the dispatching socket delivered. */
  ghost predicate Witnessed(s: State, rid: Rid, proof: Proof)
    requires rid in s.calls
  {
    exists reply :: Genuine(s, rid, reply) && proof == CleanupProof(reply, rid)
  }

  ghost predicate EntryHolds(s: State, e: Entry<Rid, Retained>) {
    && e.key in s.calls
    && s.calls[e.key].url == e.val.url
    && !s.calls[e.key].phase.Observing?
    && (e.val.proof.None? ==> Count(s.writes, e.key) == 0 && e.val.owner == Some(s.calls[e.key].ws))
    && (e.val.proof.Some? ==> Witnessed(s, e.key, e.val.proof.value))
  }

  ghost predicate EvidenceHolds(s: State) {
    && Unique(s.t.retained)
    && (forall e :: e in s.t.retained ==> EntryHolds(s, e))
    && (forall rid :: Count(s.writes, rid) <= 1)
    && (forall rid :: rid !in s.calls || s.calls[rid].phase.Observing? ==> Count(s.writes, rid) == 0)
  }

  /** Calls may begin and move on, and frames may arrive; nothing else about them changes. */
  ghost predicate Progress(s: State, r: State) {
    && (forall rid :: rid in s.calls ==>
          && rid in r.calls
          && r.calls[rid].url == s.calls[rid].url
          && r.calls[rid].ws == s.calls[rid].ws
          && (r.calls[rid].phase.Observing? ==> s.calls[rid].phase.Observing?))
    && s.delivered <= r.delivered
  }

  lemma EntrySurvives(s: State, r: State, e: Entry<Rid, Retained>)
    requires EntryHolds(s, e) && Progress(s, r) && Count(r.writes, e.key) == Count(s.writes, e.key)
    ensures EntryHolds(r, e)
  {
    if e.val.proof.Some? {
      var reply :| Genuine(s, e.key, reply) && e.val.proof.value == CleanupProof(reply, e.key);
      assert Genuine(r, e.key, reply);
    }
  }

  lemma FrameEvidence(s: State, r: State)
    requires EvidenceHolds(s) && Progress(s, r) && r.writes == s.writes
    requires Unique(r.t.retained) && forall e :: e in r.t.retained ==> e in s.t.retained
    ensures EvidenceHolds(r)
  {
    forall e | e in r.t.retained ensures EntryHolds(r, e) {
      EntrySurvives(s, r, e);
    }
  }

  lemma SendingEvidence(s: State, rid: Rid, now: real)
    requires EvidenceHolds(s) && At(s, rid, Observing)
    ensures EvidenceHolds(StartSending(s, rid, now))
  {
    var call := s.calls[rid];
    var r := StartSending(s, rid, now);
    if call.strict {
      var added := Entry(rid, Retained(call.url, Some(call.ws), now + RETAINED_SECONDS, None));
      var all := s.t.retained + [added];
      forall i | 0 <= i < |s.t.retained| ensures s.t.retained[i].key != rid {
        assert EntryHolds(s, s.t.retained[i]);
      }
      PruneUnique(all, now);
      forall e | e in r.t.retained ensures EntryHolds(r, e) {
        PruneMembers(all, now, e);
        if e in s.t.retained {
          EntrySurvives(s, r, e);
        }
      }
    } else {
      FrameEvidence(s, r);
    }
  }

  lemma BeginEvidence(s: State, rid: Rid, url: Url, strict: bool, observed: bool, now: real)
    requires EvidenceHolds(s)
    ensures EvidenceHolds(BeginCall(s, rid, url, strict, observed, now))
  {
    if rid !in s.calls && url in s.t.connections {
      var begun := Begun(s, rid, url, strict);
      FrameEvidence(s, begun);
      if !(strict && observed) {
        SendingEvidence(begun, rid, now);
      }
    }
  }

  lemma CallEvidence(s: State, rid: Rid, effect: Effect)
    requires EvidenceHolds(s) && rid in s.calls && Allowed(s, rid, effect)
    ensures EvidenceHolds(Apply(s, rid, effect))
  {
    if effect.Dispatch? {
      SendingEvidence(s, rid, effect.now);
    } else {
      FrameEvidence(s, Apply(s, rid, effect));
    }
  }

  lemma ResultEvidence(s: State, rid: Rid, reply: Reply, ws: Sock, now: real)
    requires EvidenceHolds(s)
    ensures EvidenceHolds(ReceiveResult(s, rid, reply, ws, now))
  {
    var r := ReceiveResult(s, rid, reply, ws, now);
    var d, d' := s.t.retained, r.t.retained;
    assert d' == EvidenceAfter(d, s.t.connections, rid, reply, ws, now);
    PruneUnique(d, now);
    if RecordsProof(s.t, rid, reply, ws, now) {
      var entry := Find(Prune(d, now), rid).value;
      PruneMembers(d, now, Entry(rid, entry));
      assert EntryHolds(s, Entry(rid, entry));
      assert Genuine(r, rid, reply);
      forall x ensures Count(r.writes, x) == if x == rid then 1 else Count(s.writes, x) {
      }
      ReplaceUnique(Prune(d, now), rid, entry.(proof := Some(CleanupProof(reply, rid)), owner := None));
      forall e | e in d' ensures EntryHolds(r, e) {
        if e.key != rid {
          PruneMembers(d, now, e);
          EntrySurvives(s, r, e);
        }
      }
    } else {
      forall e | e in d' ensures e in d {
        PruneMembers(d, now, e);
      }
      FrameEvidence(s, r);
    }
  }

  predicate TouchesEvidence(l: Label) {
    l.Begin? || l.OfCall? || l.ResultFrame? || l.PruneAt? || l.Forget?
  }

  lemma OtherStepsKeepEvidence(s: State, l: Label)
    requires !TouchesEvidence(l)
    ensures var r := Step(s, l);
            r.t.retained == s.t.retained && r.calls == s.calls && r.delivered == s.delivered && r.writes == s.writes
  {
    match l
    case Connect(url, ws) => assert Register(s.t, url, ws).retained == s.t.retained;
    case Disconnect(url, source) => assert Unregister(s.t, url, source).retained == s.t.retained;
    case EventFails(rid) =>
    case OfCollect(rid, e) => FamiliesKeepRetained(s.t, rid, e, ProbeEnds, ControlEnds);
    case OfProbe(rid, e) => FamiliesKeepRetained(s.t, rid, CollectEnds, e, ControlEnds);
    case OfControl(rid, e) => FamiliesKeepRetained(s.t, rid, CollectEnds, ProbeEnds, e);
  }

  lemma FamiliesKeepRetained(t: Tables, rid: Rid, c: CollectEvent, p: ProbeEvent, k: ControlEvent)
    ensures CollectStep(t, rid, c).retained == t.retained
    ensures ProbeStep(t, rid, p).retained == t.retained
    ensures ControlStep(t, rid, k).retained == t.retained
  {
  }

  lemma StepEvidence(s: State, l: Label)
    requires EvidenceHolds(s) && Inv(s)
    ensures EvidenceHolds(Step(s, l))
  {
    if !TouchesEvidence(l) {
      OtherStepsKeepEvidence(s, l);
      FrameEvidence(s, Step(s, l));
    } else {
      match l
      case Begin(rid, url, strict, observed, now) => BeginEvidence(s, rid, url, strict, observed, now);
      case OfCall(rid, event) =>
        if rid in s.calls { EffectAllowed(s, rid, event); CallEvidence(s, rid, EffectOf(s, rid, event)); }
      case ResultFrame(rid, reply, ws, now) => ResultEvidence(s, rid, reply, ws, now);
      case PruneAt(now) => PruneEvidence(s, now);
      case Forget(rid) => ForgetEvidence(s, rid);
    }
  }

  lemma PruneEvidence(s: State, now: real)
    requires EvidenceHolds(s)
    ensures EvidenceHolds(s.(t := s.t.(retained := Prune(s.t.retained, now))))
  {
    PruneUnique(s.t.retained, now);
    forall e | e in Prune(s.t.retained, now) ensures e in s.t.retained { PruneMembers(s.t.retained, now, e); }
    FrameEvidence(s, s.(t := s.t.(retained := Prune(s.t.retained, now))));
  }

  lemma ForgetEvidence(s: State, rid: Rid)
    requires EvidenceHolds(s)
    ensures EvidenceHolds(s.(t := s.t.(retained := Remove(s.t.retained, rid))))
  {
    KeepUnique(s.t.retained, Other(rid));
    KeepMembers(s.t.retained, Other(rid));
    FrameEvidence(s, s.(t := s.t.(retained := Remove(s.t.retained, rid))));
  }

  lemma {:induction false} RunEvidence(ls: seq<Label>)
    ensures EvidenceHolds(Run(START, ls))
  {
    if ls != [] {
      RunEvidence(ls[..|ls| - 1]);
      RunInv(ls[..|ls| - 1]);
      StepEvidence(Run(START, ls[..|ls| - 1]), ls[|ls| - 1]);
    }
  }

  /**
   In every run, at most one proof is ever recorded for a dispatch, and whatever evidence a
   caller reads belongs to the agent the task was sent to and redacts a confirmed terminal
   that arrived on the dispatching socket.
   */
  lemma EvidenceIsGenuine(ls: seq<Label>, key: Url -> string, agentKey: string, rid: Rid)
    ensures Count(Run(START, ls).writes, rid) <= 1
    ensures var s := Run(START, ls);
            var proof := ReadProof(s.t, key, agentKey, rid);
            proof.Some? ==> rid in s.calls && key(s.calls[rid].url) == agentKey && Witnessed(s, rid, proof.value)
  {
    RunEvidence(ls);
    var s := Run(START, ls);
    if ReadProof(s.t, key, agentKey, rid).Some? {
      EvidenceStaysWithItsAgent(s.t, key, agentKey, rid);
    }
  }

  /** A proof appears only in the step that receives the terminal, while its socket is the current one. */
  lemma EvidenceNeedsCurrentSocket(ls: seq<Label>, l: Label, e: Entry<Rid, Retained>)
    requires var s := Run(START, ls); e in Step(s, l).t.retained && e !in s.t.retained && e.val.proof.Some?
    ensures l.ResultFrame? && l.rid == e.key && Confirmed(l.reply, l.rid)
    ensures var s := Run(START, ls);
            && e.key in s.calls
            && l.ws == s.calls[e.key].ws
            && Current(s.t, s.calls[e.key].url, l.ws)
  {
    RunEvidence(ls);
    var s := Run(START, ls);
    if l.ResultFrame? {
      EvidenceWrittenOnce(s.t.retained, s.t.connections, l.rid, l.reply, l.ws, l.now, e);
      assert EntryHolds(s, Entry(l.rid, e.val.(proof := None, owner := Some(l.ws))));
    } else {
      OnlyResultsProve(s, l, e);
      assert false;
    }
  }

  lemma OnlyResultsProve(s: State, l: Label, e: Entry<Rid, Retained>)
    requires !l.ResultFrame? && e in Step(s, l).t.retained
    ensures e in s.t.retained || e.val.proof.None?
  {
    if !TouchesEvidence(l) {
      OtherStepsKeepEvidence(s, l);
    } else {
      match l
      case Begin(rid, url, strict, observed, now) => NewEntryHasNoProof(s, rid, url, strict, observed, now, e);
      case OfCall(rid, event) => if rid in s.calls { MovedEntryHasNoProof(s, rid, EffectOf(s, rid, event), e); }
      case PruneAt(now) => PruneMembers(s.t.retained, now, e);
      case Forget(rid) => KeepMembers(s.t.retained, Other(rid));
    }
  }

  lemma MovedEntryHasNoProof(s: State, rid: Rid, effect: Effect, e: Entry<Rid, Retained>)
    requires rid in s.calls && e in Apply(s, rid, effect).t.retained
    ensures e in s.t.retained || e.val.proof.None?
  {
    if effect.Dispatch? && s.calls[rid].strict {
      var call := s.calls[rid];
      PruneMembers(s.t.retained + [Entry(rid, Retained(call.url, Some(call.ws), effect.now + RETAINED_SECONDS, None))],
                   effect.now, e);
    }
  }

  lemma NewEntryHasNoProof(s: State, rid: Rid, url: Url, strict: bool, observed: bool, now: real, e: Entry<Rid, Retained>)
    requires e in BeginCall(s, rid, url, strict, observed, now).t.retained
    ensures e in s.t.retained || e.val.proof.None?
  {
    if rid !in s.calls && url in s.t.connections && strict && !observed {
      PruneMembers(s.t.retained + [Entry(rid, Retained(url, Some(s.t.connections[url]), now + RETAINED_SECONDS, None))],
                   now, e);
    }
  }
}
