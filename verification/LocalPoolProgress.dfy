/** Which waiting calls of `LocalPool` can still be served, and how tokens get lost. */
module LocalPoolProgress {
  import opened Common
  import opened LocalPool

  /** Whatever the other calls do, `t` stays where it is until it is cancelled. */
  ghost predicate Starved(s: Pool, t: CallId)
    requires t in s.calls
  {
    forall more: seq<Label> :: Cancel(t) !in more ==> Get(Run(s, more).calls, t) == Some(s.calls[t])
  }

  // ----- a lost token starves -------------------------------------------------------------------

  lemma LossIsPermanent(s: Pool, l: Label, t: CallId, ep: Endpoint)
    requires Tokens(s) && t in s.calls && Mentions(s.calls[t], ep) && ep in s.queued
    ensures ep in Step(s, l).queued && ep in Step(s, l).lost && Step(s, l).lost[ep] >= s.lost[ep]
  {
    StepTokens(s, l);
    MentionedStays(s, l, t, ep);
    LossStep(s, l, ep);
  }

  lemma MentionedStays(s: Pool, l: Label, t: CallId, ep: Endpoint)
    requires Tokens(s) && t in s.calls && Mentions(s.calls[t], ep) && ep in s.queued
    ensures ep in Step(s, l).queued
  {
    if l.Remove? {
      assert t in s.calls.Keys;
    } else if !l.Add? && !l.Rename? && !l.Acquire? && l.t in s.calls {
      if CallStep(s, l) != s {
        CallExchanges(s, l);
      }
    }
  }

  ghost predicate AllLost(s: Pool, p: Phase) {
    Wants(p) != {} && forall ep :: ep in Wants(p) ==> ep in s.queued && ep in s.lost && s.lost[ep] == 1
  }

  lemma LostIsNotFree(s: Pool, ep: Endpoint)
    requires Tokens(s) && ep in s.queued && ep in s.lost && s.lost[ep] == 1
    ensures !Free(s, ep)
  {
    assert Balanced(s, ep);
  }

  lemma OthersLeaveCall(s: Pool, l: Label, t: CallId)
    requires Tokens(s) && t in s.calls && (l.Add? || l.Remove? || l.Rename? || l.t != t || l.Acquire?)
    ensures Get(Step(s, l).calls, t) == Some(s.calls[t])
  {
    if !l.Add? && !l.Remove? && !l.Rename? && !l.Acquire? && l.t in s.calls {
      if CallStep(s, l) != s {
        CallExchanges(s, l);
      }
    }
  }

  lemma LostCallStays(s: Pool, l: Label, t: CallId)
    requires Inv(s) && t in s.calls && AllLost(s, s.calls[t]) && l != Cancel(t)
    ensures Get(Step(s, l).calls, t) == Some(s.calls[t])
  {
    if l.Add? || l.Remove? || l.Rename? || l.t != t || l.Acquire? {
      OthersLeaveCall(s, l, t);
    } else {
      forall ep | ep in Wants(s.calls[t]) ensures !Free(s, ep) { LostIsNotFree(s, ep); }
      var p := s.calls[t];
      assert p.Routed? ==> p.ep in Wants(p);
      assert l.Getter? && p.Racing? && l.ep in p.wanted ==> l.ep in Wants(p);
    }
  }

  lemma LostStep(s: Pool, l: Label, t: CallId)
    requires Inv(s) && t in s.calls && AllLost(s, s.calls[t]) && l != Cancel(t)
    ensures Inv(Step(s, l))
    ensures Get(Step(s, l).calls, t) == Some(s.calls[t]) && AllLost(Step(s, l), s.calls[t])
  {
    StepTokens(s, l);
    StepLocks(s, l);
    LostCallStays(s, l, t);
    forall ep | ep in Wants(s.calls[t]) ensures ep in Step(s, l).queued && ep in Step(s, l).lost && Step(s, l).lost[ep] == 1 {
      assert Mentions(s.calls[t], ep);
      LossIsPermanent(s, l, t, ep);
      assert Balanced(Step(s, l), ep);
    }
  }

  lemma {:induction false} LostRun(s: Pool, more: seq<Label>, t: CallId)
    requires Inv(s) && t in s.calls && AllLost(s, s.calls[t]) && Cancel(t) !in more
    ensures Inv(Run(s, more))
    ensures Get(Run(s, more).calls, t) == Some(s.calls[t]) && AllLost(Run(s, more), s.calls[t])
  {
    if more != [] {
      LostRun(s, more[..|more| - 1], t);
      assert more[|more| - 1] in more;
      LostStep(Run(s, more[..|more| - 1]), more[|more| - 1], t);
    }
  }

  // ----- a token that is not lost can be had ------------------------------------------------------

  lemma {:induction false} RunCons(s: Pool, l: Label, more: seq<Label>)
    ensures Run(s, [l] + more) == Run(Step(s, l), more)
  {
    var all := [l] + more;
    if more == [] {
      assert all == [l] && all[..0] == [];
      assert Run(s, all[..0]) == s;
    } else {
      assert all[..|all| - 1] == [l] + more[..|more| - 1];
      RunCons(s, l, more[..|more| - 1]);
    }
  }

  predicate StepOf(l: Label, t: CallId) {
    !l.Add? && !l.Remove? && !l.Rename? && l.t == t
  }

  /** The other calls can put `ep`'s token back while `t` stands still. */
  ghost predicate Frees(s: Pool, more: seq<Label>, t: CallId, ep: Endpoint) {
    && t in s.calls
    && Inv(Run(s, more))
    && Free(Run(s, more), ep)
    && Get(Run(s, more).calls, t) == Some(s.calls[t])
    && (forall l :: l in more ==> !StepOf(l, t))
  }

  lemma FreesCons(s: Pool, l: Label, more: seq<Label>, t: CallId, ep: Endpoint)
    requires Tokens(s) && t in s.calls && !StepOf(l, t) && Frees(Step(s, l), more, t, ep)
    ensures Frees(s, [l] + more, t, ep)
  {
    RunCons(s, l, more);
    OthersLeaveCall(s, l, t);
  }

  lemma StepInv(s: Pool, l: Label)
    requires Inv(s)
    ensures Inv(Step(s, l))
  {
    StepTokens(s, l);
    StepLocks(s, l);
  }

  lemma FreeFromBody(s: Pool, u: CallId, t: CallId, ep: Endpoint) returns (more: seq<Label>)
    requires Inv(s) && u in s.calls && t in s.calls && u != t && s.calls[u].Body? && s.calls[u].ep == ep
    ensures Frees(s, more, t, ep)
  {
    assert WellFormed(s.calls[u], s.queued.Keys) && Mentions(s.calls[u], ep);
    HolderEmptiesQueue(s, u, ep);
    StepInv(s, Leave(u));
    OthersLeaveCall(s, Leave(u), t);
    assert Frees(Step(s, Leave(u)), [], t, ep);
    FreesCons(s, Leave(u), [], t, ep);
    more := [Leave(u)] + [];
  }

  lemma FreeFromOpenLock(s: Pool, u: CallId, t: CallId, ep: Endpoint) returns (more: seq<Label>)
    requires Inv(s) && u in s.calls && t in s.calls && u != t
    requires s.calls[u].AtLock? && s.calls[u].ep == ep && s.calls[u].profile !in s.locks
    ensures Frees(s, more, t, ep)
  {
    var l := Label.Lock(u);
    StepInv(s, l);
    OthersLeaveCall(s, l, t);
    var rest := FreeFromBody(Step(s, l), u, t, ep);
    FreesCons(s, l, rest, t, ep);
    more := [l] + rest;
  }

  lemma LeaveOpensLock(s: Pool, p: Profile)
    requires Inv(s) && p in s.locks
    ensures s.locks[p] in s.calls && s.calls[s.locks[p]].Body? && p !in Step(s, Leave(s.locks[p])).locks
  {
    var v := s.locks[p];
    assert WellFormed(s.calls[v], s.queued.Keys) && Mentions(s.calls[v], s.calls[v].ep);
  }

  lemma FreeFromLock(s: Pool, u: CallId, t: CallId, ep: Endpoint) returns (more: seq<Label>)
    requires Inv(s) && u in s.calls && t in s.calls && u != t && Wants(s.calls[t]) != {}
    requires s.calls[u].AtLock? && s.calls[u].ep == ep
    ensures Frees(s, more, t, ep)
  {
    var p := s.calls[u].profile;
    if p !in s.locks {
      more := FreeFromOpenLock(s, u, t, ep);
    } else {
      var l := Leave(s.locks[p]);
      LeaveOpensLock(s, p);
      StepInv(s, l);
      OthersLeaveCall(s, l, t);
      OthersLeaveCall(s, l, u);
      var rest := FreeFromOpenLock(Step(s, l), u, t, ep);
      FreesCons(s, l, rest, t, ep);
      more := [l] + rest;
    }
  }

  lemma DrainedProceeds(s: Pool, u: CallId, ep: Endpoint)
    requires Tokens(s) && Get(s.calls, u) == Some(Draining(ep, {}))
    ensures var p := Get(Step(s, Drained(u, true)).calls, u); p.Some? && (p.value.Body? || p.value.AtLock?) && p.value.ep == ep
  {
    assert WellFormed(s.calls[u], s.queued.Keys) && Mentions(s.calls[u], ep);
  }

  lemma FreeFromDrained(s: Pool, u: CallId, t: CallId, ep: Endpoint) returns (more: seq<Label>)
    requires Inv(s) && t in s.calls && u != t && Wants(s.calls[t]) != {} && Get(s.calls, u) == Some(Draining(ep, {}))
    ensures Frees(s, more, t, ep)
  {
    var l := Drained(u, true);
    var r := Step(s, l);
    DrainedProceeds(s, u, ep);
    StepInv(s, l);
    OthersLeaveCall(s, l, t);
    var rest;
    if r.calls[u].Body? {
      rest := FreeFromBody(r, u, t, ep);
    } else {
      rest := FreeFromLock(r, u, t, ep);
    }
    FreesCons(s, l, rest, t, ep);
    more := [l] + rest;
  }

  lemma {:induction false} FreeFromDraining(s: Pool, u: CallId, t: CallId, ep: Endpoint) returns (more: seq<Label>)
    requires Inv(s) && u in s.calls && t in s.calls && u != t && Wants(s.calls[t]) != {}
    requires s.calls[u].Draining? && s.calls[u].ep == ep
    ensures Frees(s, more, t, ep)
    decreases s.calls[u].pending
  {
    var pending := s.calls[u].pending;
    if pending == {} {
      more := FreeFromDrained(s, u, t, ep);
    } else {
      var e :| e in pending;
      var l := GetterCancelled(u, e);
      StepInv(s, l);
      OthersLeaveCall(s, l, t);
      var rest := FreeFromDraining(Step(s, l), u, t, ep);
      FreesCons(s, l, rest, t, ep);
      more := [l] + rest;
    }
  }

  lemma FreeFromHolder(s: Pool, u: CallId, t: CallId, ep: Endpoint) returns (more: seq<Label>)
    requires Inv(s) && u in s.calls && t in s.calls && Holds(s.calls[u], ep) && Wants(s.calls[t]) != {}
    ensures Frees(s, more, t, ep)
  {
    match s.calls[u]
    case Body(_, _) => more := FreeFromBody(s, u, t, ep);
    case AtLock(_, _) => more := FreeFromLock(s, u, t, ep);
    case Draining(_, _) => more := FreeFromDraining(s, u, t, ep);
    case Racing(_, _) =>
      var l := Choose(u, ep);
      StepInv(s, l);
      OthersLeaveCall(s, l, t);
      var rest := FreeFromDraining(Step(s, l), u, t, ep);
      FreesCons(s, l, rest, t, ep);
      more := [l] + rest;
  }

  lemma FreeIsServed(s: Pool, t: CallId, ep: Endpoint) returns (l: Label)
    requires t in s.calls && ep in Wants(s.calls[t]) && Free(s, ep)
    ensures l != Cancel(t) && Get(Step(s, l).calls, t) != Some(s.calls[t])
  {
    if s.calls[t].Routed? {
      l := Take(t, true);
    } else {
      l := Getter(t, ep);
      assert ep in s.calls[t].got + {ep};
      assert Step(s, l).calls[t] == Racing(s.calls[t].wanted, s.calls[t].got + {ep});
    }
  }

  lemma AvailableIsServed(s: Pool, t: CallId, ep: Endpoint) returns (more: seq<Label>)
    requires Inv(s) && t in s.calls && ep in Wants(s.calls[t]) && ep in s.queued && s.lost[ep] == 0
    ensures Cancel(t) !in more && Get(Run(s, more).calls, t) != Some(s.calls[t])
  {
    var first: seq<Label> := [];
    if !Free(s, ep) {
      assert Balanced(s, ep);
      assert |Holders(s.calls, ep)| == 1;
      var u :| u in Holders(s.calls, ep);
      first := FreeFromHolder(s, u, t, ep);
    }
    var r := Run(s, first);
    var l := FreeIsServed(r, t, ep);
    more := first + [l];
    assert more[..|more| - 1] == first;
    forall x | x in more ensures x != Cancel(t) { assert x in first || x == l; }
  }

  /**
   A call waiting for tokens can never be served again exactly when, for every endpoint it waits
   for, some step of the run has lost the token: otherwise the other calls can always make way
   for it.
   */
  lemma StarvedIffTokensLost(ls: seq<Label>, t: CallId)
    requires t in Run(EMPTY, ls).calls && Wants(Run(EMPTY, ls).calls[t]) != {}
    ensures Starved(Run(EMPTY, ls), t) <==> forall ep :: ep in Wants(Run(EMPTY, ls).calls[t]) ==> !Kept(ls, ep)
  {
    RunInv(EMPTY, ls);
    AllLostIff(ls, Run(EMPTY, ls).calls[t], t);
    StarvedIffAllLost(ls, t);
  }

  lemma AllLostIff(ls: seq<Label>, p: Phase, t: CallId)
    requires Inv(Run(EMPTY, ls)) && Get(Run(EMPTY, ls).calls, t) == Some(p) && Wants(p) != {}
    ensures AllLost(Run(EMPTY, ls), p) <==> forall ep :: ep in Wants(p) ==> !Kept(ls, ep)
  {
    var s := Run(EMPTY, ls);
    forall ep | ep in Wants(p) ensures ep in s.queued && ep in s.lost && (s.lost[ep] == 1 <==> !Kept(ls, ep)) {
      assert WellFormed(p, s.queued.Keys) && Mentions(p, ep);
      LostIff(ls, ep);
      assert Balanced(s, ep);
    }
  }

  lemma StarvedIffAllLost(ls: seq<Label>, t: CallId)
    requires t in Run(EMPTY, ls).calls && Wants(Run(EMPTY, ls).calls[t]) != {}
    ensures Starved(Run(EMPTY, ls), t) <==> AllLost(Run(EMPTY, ls), Run(EMPTY, ls).calls[t])
  {
    RunInv(EMPTY, ls);
    var s := Run(EMPTY, ls);
    if AllLost(s, s.calls[t]) {
      forall more: seq<Label> | Cancel(t) !in more ensures Get(Run(s, more).calls, t) == Some(s.calls[t]) {
        LostRun(s, more, t);
      }
    } else {
      var ep :| ep in Wants(s.calls[t]) && !(ep in s.queued && ep in s.lost && s.lost[ep] == 1);
      assert WellFormed(s.calls[t], s.queued.Keys) && Mentions(s.calls[t], ep);
      assert Balanced(s, ep);
      var more := AvailableIsServed(s, t, ep);
      assert !Starved(s, t);
    }
  }

  // ----- how tokens get lost -----------------------------------------------------------------------

  lemma Extend(ls: seq<Label>, l: Label, before: Pool, after: Pool)
    requires Run(EMPTY, ls) == before && Step(before, l) == after
    ensures Run(EMPTY, ls + [l]) == after
  {
    assert (ls + [l])[..|ls + [l]| - 1] == ls;
  }

  /** A routed call that finds its token at once. */
  lemma Admitted(ls: seq<Label>, before: Pool, t: CallId, ep: Endpoint, after: Pool) returns (more: seq<Label>)
    requires Run(EMPTY, ls) == before && t !in before.calls && Free(before, ep)
    requires after == Proceed(Taken(To(before, t, Routed(ep)), ep), t, ep, true)
    ensures Run(EMPTY, more) == after
  {
    var l := Acquire(t, Some(ep), {ep});
    var waiting := To(before, t, Routed(ep));
    Extend(ls, l, before, waiting);
    Extend(ls + [l], Take(t, true), waiting, after);
    more := ls + [l] + [Take(t, true)];
  }

  const SHARED: Pool := Pool(map[0 := 1, 1 := 1], map[0 := 0, 1 := 0], map[0 := 0, 1 := 0], map[], map[], false)

  /** Two endpoints that share a profile. */
  lemma SharedProfile() returns (ls: seq<Label>)
    ensures Run(EMPTY, ls) == SHARED
  {
    var s1 := Step(EMPTY, Add(0));
    var s2 := Step(s1, Add(1));
    Extend([], Add(0), EMPTY, s1);
    Extend([] + [Add(0)], Add(1), s1, s2);
    ls := [] + [Add(0)] + [Add(1)];
    assert s2 == SHARED.(profiles := map[0 := 0, 1 := 1]);
    Extend(ls, Rename(1, 0), s2, SHARED);
    ls := ls + [Rename(1, 0)];
  }

  /** The call on the first endpoint is in its body, the call on the second waits for the lock. */
  lemma WaitingAtLock() returns (ls: seq<Label>)
    ensures Run(EMPTY, ls) == SHARED.(queued := map[0 := 0, 1 := 0], locks := map[0 := 1],
                                      calls := map[1 := Body(0, 0), 2 := AtLock(1, 0)])
  {
    ls := SharedProfile();
    var s := SHARED.(queued := map[0 := 0, 1 := 1], locks := map[0 := 1], calls := map[1 := Body(0, 0)]);
    FirstIsIn();
    ls := Admitted(ls, SHARED, 1, 0, s);
    var r := Proceed(Taken(To(s, 2, Routed(1)), 1), 2, 1, true);
    assert r.calls == map[1 := Body(0, 0), 2 := AtLock(1, 0)] && r.queued == map[0 := 0, 1 := 0];
    ls := Admitted(ls, s, 2, 1, r);
  }

  lemma FirstIsIn()
    ensures Proceed(Taken(To(SHARED, 1, Routed(0)), 0), 1, 0, true)
            == SHARED.(queued := map[0 := 0, 1 := 1], locks := map[0 := 1], calls := map[1 := Body(0, 0)])
  {
    var u := Taken(To(SHARED, 1, Routed(0)), 0);
    assert Open(u, 0);
    assert u.queued == map[0 := 0, 1 := 1];
  }

  /** A call cancelled while it is suspended at a held profile lock takes its token with it. */
  lemma CancelAtLockLosesToken() returns (ls: seq<Label>)
    ensures Get(Run(EMPTY, ls).lost, 1) == Some(1)
    ensures Get(Run(EMPTY, ls).locks, 0) == Some(1)
  {
    ls := WaitingAtLock();
    var s := Run(EMPTY, ls);
    var r := To(Lose(s, {1}), 2, Over);
    LoseCounts(s, {1}, 2, Over, 1);
    assert Step(s, Cancel(2)) == CancelStep(s, 2) == r;
    Extend(ls, Cancel(2), s, r);
    ls := ls + [Cancel(2)];
  }

  /** An unrouted call races for two endpoints and has got some of their tokens. */
  function Race(got: set<Endpoint>): Pool {
    Pool(map[0 := if 0 in got then 0 else 1, 1 := if 1 in got then 0 else 1], map[0 := 0, 1 := 0], map[0 := 0, 1 := 1], map[],
         map[1 := Racing({0, 1}, got)], false)
  }

  lemma RaceStarts() returns (ls: seq<Label>)
    ensures Run(EMPTY, ls) == Race({}) && forall t :: Cancel(t) !in ls
  {
    var s1 := Step(EMPTY, Add(0));
    var s2 := Step(s1, Add(1));
    Extend([], Add(0), EMPTY, s1);
    Extend([] + [Add(0)], Add(1), s1, s2);
    var l := Acquire(1, None, {0, 1});
    assert ReadySlots(s2, {0, 1}) == {0, 1};
    Extend([] + [Add(0)] + [Add(1)], l, s2, Race({}));
    ls := [] + [Add(0)] + [Add(1)] + [l];
  }

  lemma RaceGets(got: set<Endpoint>, ep: Endpoint)
    requires ep in {0, 1} && ep !in got
    ensures Step(Race(got), Getter(1, ep)) == Race(got + {ep})
  {
    var s, r := Race(got), Step(Race(got), Getter(1, ep));
    assert Free(s, ep) && r == GetterStep(s, 1, ep);
    assert r.queued == Race(got + {ep}).queued;
  }

  /** An unrouted call that finds two getters done keeps one token and drops the other. */
  lemma RaceLosesToken() returns (ls: seq<Label>)
    ensures Get(Run(EMPTY, ls).lost, 1) == Some(1)
    ensures forall t :: Cancel(t) !in ls
  {
    ls := RaceStarts();
    RaceGets({}, 0);
    Extend(ls, Getter(1, 0), Race({}), Race({} + {0}));
    ls := ls + [Getter(1, 0)];
    RaceGets({} + {0}, 1);
    Extend(ls, Getter(1, 1), Race({} + {0}), Race({} + {0} + {1}));
    ls := ls + [Getter(1, 1)];
    var s := Race({} + {0} + {1});
    var r := To(Lose(s, s.calls[1].got - {0}), 1, Draining(0, s.calls[1].wanted - s.calls[1].got));
    LoseCounts(s, s.calls[1].got - {0}, 1, Draining(0, s.calls[1].wanted - s.calls[1].got), 1);
    Extend(ls, Choose(1, 0), s, r);
    ls := ls + [Choose(1, 0)];
  }
}
