/**
 The in-process browser pool (backend/browser_pool.py, `LocalBrowserPool`) as a transition
 system: one single-element token queue per endpoint, one lock per profile name, and any number
 of concurrent `acquire` calls.  Code between two `await`s is one step, the getters of an
 unrouted call are tasks of their own, and a call may be cancelled wherever it is suspended.
 Endpoints are added, removed or renamed only while no call uses them, and a body does not
 acquire again.
 */
module LocalPool {
  import opened Common

  type Endpoint = nat
  type Profile = nat
  type CallId = nat

  datatype Phase =
    | Routed(ep: Endpoint)                                    // in `slots[ep].get()`
    | Racing(wanted: set<Endpoint>, got: set<Endpoint>)       // one getter task per wanted endpoint
    | Draining(ep: Endpoint, pending: set<Endpoint>)          // keeps `ep`, cancels the other getters
    | Orphaned(pending: set<Endpoint>)                        // cancelled while racing; its getters live on
    | AtLock(ep: Endpoint, profile: Profile)                  // holds the token, suspended in `profile_lock.acquire()`
    | Body(ep: Endpoint, profile: Profile)
    | Over

  /** `lost` counts tokens that no longer are in a queue nor with a call that will put them back. */
  datatype Pool = Pool(
    queued: map<Endpoint, nat>,
    lost: map<Endpoint, nat>,
    profiles: map<Endpoint, Profile>,
    locks: map<Profile, CallId>,
    calls: map<CallId, Phase>,
    overflowed: bool)

  datatype Label =
    | Add(ep: Endpoint)
    | Remove(ep: Endpoint)
    | Rename(ep: Endpoint, profile: Profile)
    | Acquire(t: CallId, route: Option<Endpoint>, ready: set<Endpoint>)
    | Take(t: CallId, kindMatches: bool)
    | Getter(t: CallId, ep: Endpoint)
    | Choose(t: CallId, ep: Endpoint)
    | GetterCancelled(t: CallId, ep: Endpoint)
    | Drained(t: CallId, kindMatches: bool)
    | Lock(t: CallId)
    | Leave(t: CallId)
    | Cancel(t: CallId)

  const EMPTY: Pool := Pool(map[], map[], map[], map[], map[], false)

  // ----- steps ---------------------------------------------------------------------------

  predicate Mentions(p: Phase, ep: Endpoint) {
    match p
    case Routed(e) => e == ep
    case Racing(wanted, _) => ep in wanted
    case Draining(e, pending) => e == ep || ep in pending
    case Orphaned(pending) => ep in pending
    case AtLock(e, _) => e == ep
    case Body(e, _) => e == ep
    case Over => false
  }

  predicate Idle(s: Pool, ep: Endpoint) {
    forall t <- s.calls.Keys :: !Mentions(s.calls[t], ep)
  }

  function ProfileOf(s: Pool, ep: Endpoint): Profile {
    if ep in s.profiles then s.profiles[ep] else ep
  }

  function To(s: Pool, t: CallId, p: Phase): Pool {
    s.(calls := s.calls[t := p])
  }

  /** `put_nowait` on a queue of size one. */
  function Put(s: Pool, ep: Endpoint): Pool
    requires ep in s.queued
  {
    if s.queued[ep] >= 1 then s.(overflowed := true) else s.(queued := s.queued[ep := s.queued[ep] + 1])
  }

  function Taken(s: Pool, ep: Endpoint): Pool
    requires ep in s.queued && s.queued[ep] > 0
  {
    s.(queued := s.queued[ep := s.queued[ep] - 1])
  }

  function Lose(s: Pool, eps: set<Endpoint>): Pool {
    s.(lost := map ep | ep in s.lost :: s.lost[ep] + (if ep in eps then 1 else 0))
  }

  predicate Free(s: Pool, ep: Endpoint) {
    ep in s.queued && s.queued[ep] > 0
  }

  /** A lock is taken without suspending when nobody holds it and nobody waits for it. */
  predicate Open(s: Pool, profile: Profile) {
    profile !in s.locks && forall t <- s.calls.Keys :: !(s.calls[t].AtLock? && s.calls[t].profile == profile)
  }

  function Enter(s: Pool, t: CallId, ep: Endpoint, profile: Profile): Pool {
    To(s.(locks := s.locks[profile := t]), t, Body(ep, profile))
  }

  /** The call holds `ep`'s token and goes for the profile lock, unless the profile kind has changed. */
  function Proceed(s: Pool, t: CallId, ep: Endpoint, kindMatches: bool): Pool
    requires ep in s.queued
  {
    if !kindMatches then To(Put(s, ep), t, Over)
    else if Open(s, ProfileOf(s, ep)) then Enter(s, t, ep, ProfileOf(s, ep))
    else To(s, t, AtLock(ep, ProfileOf(s, ep)))
  }

  function GetterStep(s: Pool, t: CallId, ep: Endpoint): Pool
    requires t in s.calls && Free(s, ep)
  {
    match s.calls[t]
    case Racing(wanted, got) => if ep in wanted && ep !in got then To(Taken(s, ep), t, Racing(wanted, got + {ep})) else s
    case Draining(kept, pending) =>
      if ep in pending then To(Lose(Taken(s, ep), {ep}), t, Draining(kept, pending - {ep})) else s
    case Orphaned(pending) => if ep in pending then To(Lose(Taken(s, ep), {ep}), t, Orphaned(pending - {ep})) else s
    case _ => s
  }

  function GetterCancelledStep(s: Pool, t: CallId, ep: Endpoint): Pool
    requires t in s.calls
  {
    if s.calls[t].Draining? && ep in s.calls[t].pending
    then To(s, t, s.calls[t].(pending := s.calls[t].pending - {ep})) else s
  }

  function CancelStep(s: Pool, t: CallId): Pool
    requires t in s.calls
  {
    match s.calls[t]
    case Routed(_) => To(s, t, Over)
    case Racing(wanted, got) => To(Lose(s, got), t, Orphaned(wanted - got))
    case AtLock(ep, _) => To(Lose(s, {ep}), t, Over)
    case _ => s                          // a body leaves through `Leave`; draining absorbs cancellation
  }

  /** The `finally` block: release the lock, put the token back. */
  function LeaveStep(s: Pool, t: CallId): Pool
    requires t in s.calls
  {
    match s.calls[t]
    case Body(ep, profile) =>
      if ep in s.queued then To(Put(s.(locks := Pop(s.locks, profile)), ep), t, Over) else s
    case _ => s
  }

  /** The getters of an unrouted call: the endpoints that are ready and not reserved. */
  function ReadySlots(s: Pool, ready: set<Endpoint>): set<Endpoint> {
    set ep | ep in s.queued && ep in ready
  }

  function AcquireStep(s: Pool, t: CallId, route: Option<Endpoint>, ready: set<Endpoint>): Pool {
    if t in s.calls then s
    else if route.Some? && route.value in s.queued then To(s, t, if route.value in ready then Routed(route.value) else Over)
    else
      var wanted := ReadySlots(s, ready);
      To(s, t, if wanted == {} then Over else Racing(wanted, {}))
  }

  function CallStep(s: Pool, l: Label): Pool
    requires !l.Add? && !l.Remove? && !l.Rename? && !l.Acquire? && l.t in s.calls
  {
    var p := s.calls[l.t];
    match l
    case Take(t, kindMatches) =>
      if p.Routed? && Free(s, p.ep) then Proceed(Taken(s, p.ep), t, p.ep, kindMatches) else s
    case Getter(t, ep) => if Free(s, ep) then GetterStep(s, t, ep) else s
    case Choose(t, ep) =>
      if p.Racing? && ep in p.got then To(Lose(s, p.got - {ep}), t, Draining(ep, p.wanted - p.got)) else s
    case GetterCancelled(t, ep) => GetterCancelledStep(s, t, ep)
    case Drained(t, kindMatches) =>
      if p.Draining? && p.pending == {} && p.ep in s.queued then Proceed(s, t, p.ep, kindMatches) else s
    case Lock(t) =>
      if p.AtLock? && p.profile !in s.locks then Enter(s, t, p.ep, p.profile) else s
    case Leave(t) => LeaveStep(s, t)
    case Cancel(t) => CancelStep(s, t)
  }

  function Step(s: Pool, l: Label): Pool {
    match l
    case Add(ep) =>
      if ep in s.queued || !Idle(s, ep) then s
      else s.(queued := s.queued[ep := 1], lost := s.lost[ep := 0],
              profiles := if ep in s.profiles then s.profiles else s.profiles[ep := ep])
    case Remove(ep) =>
      if ep !in s.queued || !Idle(s, ep) then s
      else s.(queued := Pop(s.queued, ep), lost := Pop(s.lost, ep), profiles := Pop(s.profiles, ep))
    case Rename(ep, profile) => if Idle(s, ep) then s.(profiles := s.profiles[ep := profile]) else s
    case Acquire(t, route, ready) => AcquireStep(s, t, route, ready)
    case _ => if l.t in s.calls then CallStep(s, l) else s
  }

  function Run(s: Pool, ls: seq<Label>): Pool {
    if ls == [] then s else Step(Run(s, ls[..|ls| - 1]), ls[|ls| - 1])
  }

  // ----- conservation of tokens ------------------------------------------------------------

  /** The call has taken `ep`'s token and will put it back unless it loses it. */
  predicate Holds(p: Phase, ep: Endpoint) {
    match p
    case Racing(_, got) => ep in got
    case Draining(e, _) => e == ep
    case AtLock(e, _) => e == ep
    case Body(e, _) => e == ep
    case _ => false
  }

  function Holders(calls: map<CallId, Phase>, ep: Endpoint): set<CallId> {
    set t | t in calls && Holds(calls[t], ep)
  }

  ghost predicate Balanced(s: Pool, ep: Endpoint) {
    ep in s.queued && ep in s.lost && s.queued[ep] + |Holders(s.calls, ep)| + s.lost[ep] == 1
  }

  ghost predicate WellFormed(p: Phase, eps: set<Endpoint>) {
    && (forall ep :: Mentions(p, ep) ==> ep in eps)
    && (p.Racing? ==> p.got <= p.wanted)
    && (p.Draining? ==> p.ep !in p.pending)
  }

  ghost predicate Tokens(s: Pool) {
    && s.lost.Keys == s.queued.Keys
    && (forall ep :: ep in s.queued ==> Balanced(s, ep))
    && (forall t :: t in s.calls ==> WellFormed(s.calls[t], s.queued.Keys))
    && !s.overflowed
  }

  function One(b: bool): nat { if b then 1 else 0 }

  /** How the holders of a token change when one call moves. */
  lemma HoldersMove(calls: map<CallId, Phase>, t: CallId, p: Phase, ep: Endpoint)
    ensures var before, after := Holders(calls, ep), Holders(calls[t := p], ep);
            |after| == |before| - (if t in before then 1 else 0) + (if Holds(p, ep) then 1 else 0)
  {
    var before, after := Holders(calls, ep), Holders(calls[t := p], ep);
    if Holds(p, ep) {
      assert after == before + {t};
    } else {
      assert after == before - {t};
    }
  }

  /** A call moves and the queue and the loss of each endpoint make up for it. */
  lemma MoveBalanced(s: Pool, r: Pool, t: CallId, ep: Endpoint)
    requires Balanced(s, ep) && t in r.calls && r.calls == s.calls[t := r.calls[t]]
    requires ep in r.queued && ep in r.lost
    requires r.queued[ep] + r.lost[ep] + (if Holds(r.calls[t], ep) then 1 else 0)
             == s.queued[ep] + s.lost[ep] + (if t in s.calls && Holds(s.calls[t], ep) then 1 else 0)
    ensures Balanced(r, ep)
  {
    HoldersMove(s.calls, t, r.calls[t], ep);
  }

  /** What a step of call `t` must satisfy to keep every token accounted for. */
  ghost predicate Exchange(s: Pool, r: Pool, t: CallId) {
    && t in r.calls
    && r.calls == s.calls[t := r.calls[t]]
    && r.queued.Keys == s.queued.Keys
    && r.lost.Keys == s.lost.Keys
    && r.overflowed == s.overflowed
    && WellFormed(r.calls[t], s.queued.Keys)
    && (forall ep :: ep in s.queued && ep in s.lost ==>
          r.queued[ep] + r.lost[ep] + (if Holds(r.calls[t], ep) then 1 else 0)
          == s.queued[ep] + s.lost[ep] + (if t in s.calls && Holds(s.calls[t], ep) then 1 else 0))
  }

  lemma ExchangeTokens(s: Pool, r: Pool, t: CallId)
    requires Tokens(s) && Exchange(s, r, t)
    ensures Tokens(r)
  {
    forall ep | ep in r.queued ensures Balanced(r, ep) {
      assert Balanced(s, ep);
      MoveBalanced(s, r, t, ep);
    }
  }

  lemma HolderEmptiesQueue(s: Pool, t: CallId, ep: Endpoint)
    requires Tokens(s) && t in s.calls && Holds(s.calls[t], ep) && ep in s.queued
    ensures s.queued[ep] == 0
  {
    assert Balanced(s, ep);
    assert t in Holders(s.calls, ep);
  }

  /** Whether it has to wait for the lock or not, a call that proceeds keeps exactly its token. */
  lemma ProceedKeeps(s: Pool, u: Pool, t: CallId, ep: Endpoint)
    requires Tokens(s) && ep in s.queued && u.calls == s.calls && u.lost == s.lost && u.overflowed == s.overflowed
    requires u.queued.Keys == s.queued.Keys
    requires forall e :: e in s.queued && e in s.lost ==>
               u.queued[e] + One(e == ep) == s.queued[e] + One(t in s.calls && Holds(s.calls[t], e))
    ensures Exchange(s, Proceed(u, t, ep, true), t)
  {
    var r := Proceed(u, t, ep, true);
    assert r.queued == u.queued && r.lost == u.lost && r.overflowed == u.overflowed;
    assert r.calls[t].Body? || r.calls[t].AtLock?;
    assert r.calls[t].ep == ep && r.calls == s.calls[t := r.calls[t]];
  }

  lemma ProceedTokens(s: Pool, t: CallId, ep: Endpoint, kindMatches: bool)
    requires Tokens(s) && t in s.calls && s.calls[t].Draining? && s.calls[t].ep == ep && ep in s.queued
    ensures Exchange(s, Proceed(s, t, ep, kindMatches), t)
  {
    HolderEmptiesQueue(s, t, ep);
    assert Mentions(s.calls[t], ep);
    if kindMatches {
      ProceedKeeps(s, s, t, ep);
    }
  }

  lemma TakeTokens(s: Pool, t: CallId, kindMatches: bool)
    requires Tokens(s) && t in s.calls && s.calls[t].Routed? && Free(s, s.calls[t].ep)
    ensures Exchange(s, Proceed(Taken(s, s.calls[t].ep), t, s.calls[t].ep, kindMatches), t)
  {
    var ep := s.calls[t].ep;
    assert Balanced(s, ep);
    assert Mentions(s.calls[t], ep);
    if kindMatches {
      ProceedKeeps(s, Taken(s, ep), t, ep);
    }
  }

  lemma RacingGetterTokens(s: Pool, t: CallId, ep: Endpoint)
    requires Tokens(s) && t in s.calls && Free(s, ep) && s.calls[t].Racing? && ep in s.calls[t].wanted - s.calls[t].got
    ensures Exchange(s, GetterStep(s, t, ep), t)
  {
    var p, r := s.calls[t], GetterStep(s, t, ep);
    forall e | Mentions(r.calls[t], e) ensures e in s.queued { assert Mentions(p, e); }
  }

  lemma LateGetterTokens(s: Pool, t: CallId, ep: Endpoint, p: Phase)
    requires Tokens(s) && t in s.calls && Free(s, ep) && WellFormed(p, s.queued.Keys)
    requires forall e :: Holds(p, e) <==> Holds(s.calls[t], e)
    ensures Exchange(s, To(Lose(Taken(s, ep), {ep}), t, p), t)
  {
  }

  lemma GetterTokens(s: Pool, t: CallId, ep: Endpoint)
    requires Tokens(s) && t in s.calls && Free(s, ep) && GetterStep(s, t, ep) != s
    ensures Exchange(s, GetterStep(s, t, ep), t)
  {
    var p := s.calls[t];
    match p
    case Racing(_, _) => RacingGetterTokens(s, t, ep);
    case Draining(kept, pending) =>
      forall e | Mentions(Draining(kept, pending - {ep}), e) ensures e in s.queued { assert Mentions(p, e); }
      LateGetterTokens(s, t, ep, Draining(kept, pending - {ep}));
    case Orphaned(pending) =>
      forall e | Mentions(Orphaned(pending - {ep}), e) ensures e in s.queued { assert Mentions(p, e); }
      LateGetterTokens(s, t, ep, Orphaned(pending - {ep}));
  }

  lemma ChooseTokens(s: Pool, t: CallId, ep: Endpoint)
    requires Tokens(s) && t in s.calls && s.calls[t].Racing? && ep in s.calls[t].got
    ensures var p := s.calls[t]; Exchange(s, To(Lose(s, p.got - {ep}), t, Draining(ep, p.wanted - p.got)), t)
  {
    var p := s.calls[t];
    forall e | Mentions(Draining(ep, p.wanted - p.got), e) ensures e in s.queued { assert Mentions(p, e); }
  }

  lemma CancelTokens(s: Pool, t: CallId)
    requires Tokens(s) && t in s.calls
    ensures Exchange(s, CancelStep(s, t), t)
  {
    var p, r := s.calls[t], CancelStep(s, t);
    forall e | Mentions(r.calls[t], e) ensures e in s.queued { assert Mentions(p, e); }
  }

  lemma LeaveTokens(s: Pool, t: CallId)
    requires Tokens(s) && t in s.calls
    ensures Exchange(s, LeaveStep(s, t), t)
  {
    var p := s.calls[t];
    if p.Body? && p.ep in s.queued {
      HolderEmptiesQueue(s, t, p.ep);
    }
  }

  lemma SmallMoveTokens(s: Pool, l: Label)
    requires Tokens(s) && (l.GetterCancelled? || l.Lock?) && l.t in s.calls
    ensures Exchange(s, CallStep(s, l), l.t)
  {
    var p, r := s.calls[l.t], CallStep(s, l);
    forall e | Mentions(r.calls[l.t], e) ensures e in s.queued { assert Mentions(p, e); }
  }

  lemma CallExchanges(s: Pool, l: Label)
    requires Tokens(s) && !l.Add? && !l.Remove? && !l.Rename? && !l.Acquire? && l.t in s.calls
    requires CallStep(s, l) != s
    ensures Exchange(s, CallStep(s, l), l.t)
  {
    match l
    case Take(t, kindMatches) => TakeTokens(s, t, kindMatches);
    case Getter(t, ep) => GetterTokens(s, t, ep);
    case Choose(t, ep) => ChooseTokens(s, t, ep);
    case GetterCancelled(_, _) => SmallMoveTokens(s, l);
    case Drained(t, kindMatches) => ProceedTokens(s, t, s.calls[t].ep, kindMatches);
    case Lock(_) => SmallMoveTokens(s, l);
    case Leave(t) => LeaveTokens(s, t);
    case Cancel(t) => CancelTokens(s, t);
  }

  lemma CallTokens(s: Pool, l: Label)
    requires Tokens(s) && !l.Add? && !l.Remove? && !l.Rename? && !l.Acquire? && l.t in s.calls
    ensures Tokens(CallStep(s, l))
  {
    if CallStep(s, l) != s {
      CallExchanges(s, l);
      ExchangeTokens(s, CallStep(s, l), l.t);
    }
  }

  lemma AcquireTokens(s: Pool, t: CallId, route: Option<Endpoint>, ready: set<Endpoint>)
    requires Tokens(s)
    ensures Tokens(AcquireStep(s, t, route, ready))
  {
    if t !in s.calls {
      ExchangeTokens(s, AcquireStep(s, t, route, ready), t);
    }
  }

  lemma IdleHasNoHolders(s: Pool, ep: Endpoint)
    requires Idle(s, ep) && forall t :: t in s.calls && s.calls[t].Racing? ==> s.calls[t].got <= s.calls[t].wanted
    ensures Holders(s.calls, ep) == {}
  {
    forall t | t in s.calls ensures !Holds(s.calls[t], ep) { assert t in s.calls.Keys; }
  }

  lemma AddTokens(s: Pool, ep: Endpoint)
    requires Tokens(s)
    ensures Tokens(Step(s, Add(ep)))
  {
    var r := Step(s, Add(ep));
    if r != s {
      IdleHasNoHolders(s, ep);
      forall e | e in r.queued ensures Balanced(r, e) { assert e != ep ==> Balanced(s, e); }
    }
  }

  lemma RemoveTokens(s: Pool, ep: Endpoint)
    requires Tokens(s)
    ensures Tokens(Step(s, Remove(ep)))
  {
    var r := Step(s, Remove(ep));
    if r != s {
      forall t | t in s.calls ensures WellFormed(s.calls[t], r.queued.Keys) {
        assert t in s.calls.Keys && WellFormed(s.calls[t], s.queued.Keys);
      }
      forall e | e in r.queued ensures Balanced(r, e) { assert Balanced(s, e); }
    }
  }

  lemma RenameTokens(s: Pool, ep: Endpoint, profile: Profile)
    requires Tokens(s)
    ensures Tokens(Step(s, Rename(ep, profile)))
  {
    var r := Step(s, Rename(ep, profile));
    forall e | e in r.queued ensures Balanced(r, e) { assert Balanced(s, e); }
  }

  lemma StepTokens(s: Pool, l: Label)
    requires Tokens(s)
    ensures Tokens(Step(s, l))
  {
    match l
    case Add(ep) => AddTokens(s, ep);
    case Remove(ep) => RemoveTokens(s, ep);
    case Rename(ep, profile) => RenameTokens(s, ep, profile);
    case Acquire(t, route, ready) => AcquireTokens(s, t, route, ready);
    case _ => if l.t in s.calls { CallTokens(s, l); }
  }

  // ----- profile locks -----------------------------------------------------------------------

  ghost predicate Locks(s: Pool) {
    && (forall t :: t in s.calls && s.calls[t].Body? ==> Get(s.locks, s.calls[t].profile) == Some(t))
    && (forall p :: p in s.locks ==> s.locks[p] in s.calls && s.calls[s.locks[p]].Body? && s.calls[s.locks[p]].profile == p)
    && (forall t :: t in s.calls && (s.calls[t].AtLock? || s.calls[t].Body?) ==>
          s.calls[t].profile == ProfileOf(s, s.calls[t].ep))
  }

  /** A call that is in no body moves to a phase that is none either; queues and losses play no part. */
  lemma ToLocks(s: Pool, u: Pool, t: CallId, p: Phase)
    requires Locks(s) && u.calls == s.calls && u.locks == s.locks && u.profiles == s.profiles
    requires !p.Body? && (t in s.calls ==> !s.calls[t].Body?)
    requires p.AtLock? ==> p.profile == ProfileOf(s, p.ep)
    ensures Locks(To(u, t, p))
  {
  }

  lemma ProceedLocks(s: Pool, u: Pool, t: CallId, ep: Endpoint, kindMatches: bool)
    requires Locks(s) && u.calls == s.calls && u.locks == s.locks && u.profiles == s.profiles
    requires (t in s.calls ==> !s.calls[t].Body?) && ep in u.queued
    ensures Locks(Proceed(u, t, ep, kindMatches))
  {
    if !kindMatches {
      ToLocks(s, Put(u, ep), t, Over);
    } else if Open(u, ProfileOf(u, ep)) {
      EnterLocks(s, u, t, ep, ProfileOf(u, ep));
    } else {
      ToLocks(s, u, t, AtLock(ep, ProfileOf(s, ep)));
    }
  }

  lemma EnterLocks(s: Pool, u: Pool, t: CallId, ep: Endpoint, profile: Profile)
    requires Locks(s) && u.calls == s.calls && u.locks == s.locks && u.profiles == s.profiles
    requires (t in s.calls ==> !s.calls[t].Body?) && profile == ProfileOf(s, ep) && profile !in s.locks
    ensures Locks(Enter(u, t, ep, profile))
  {
  }

  lemma GetterLocks(s: Pool, t: CallId, ep: Endpoint)
    requires Locks(s) && t in s.calls && Free(s, ep)
    ensures Locks(GetterStep(s, t, ep))
  {
    match s.calls[t]
    case Racing(wanted, got) => ToLocks(s, Taken(s, ep), t, Racing(wanted, got + {ep}));
    case Draining(kept, pending) => ToLocks(s, Lose(Taken(s, ep), {ep}), t, Draining(kept, pending - {ep}));
    case Orphaned(pending) => ToLocks(s, Lose(Taken(s, ep), {ep}), t, Orphaned(pending - {ep}));
    case _ =>
  }

  lemma CancelLocks(s: Pool, t: CallId)
    requires Locks(s) && t in s.calls
    ensures Locks(CancelStep(s, t))
  {
    match s.calls[t]
    case Routed(_) => ToLocks(s, s, t, Over);
    case Racing(wanted, got) => ToLocks(s, Lose(s, got), t, Orphaned(wanted - got));
    case AtLock(ep, _) => ToLocks(s, Lose(s, {ep}), t, Over);
    case _ =>
  }

  lemma LockLocks(s: Pool, t: CallId)
    requires Locks(s) && t in s.calls
    ensures Locks(CallStep(s, Label.Lock(t)))
  {
  }

  lemma LeaveLocks(s: Pool, t: CallId)
    requires Locks(s) && t in s.calls
    ensures Locks(LeaveStep(s, t))
  {
  }

  lemma EndpointLocks(s: Pool, l: Label)
    requires Locks(s) && (l.Add? || l.Remove? || l.Rename?)
    ensures Locks(Step(s, l))
  {
    if Idle(s, l.ep) {
      forall t | t in s.calls ensures !Mentions(s.calls[t], l.ep) { assert t in s.calls.Keys; }
    }
  }

  lemma CallLocks(s: Pool, l: Label)
    requires Locks(s) && !l.Add? && !l.Remove? && !l.Rename? && !l.Acquire? && l.t in s.calls
    ensures Locks(CallStep(s, l))
  {
    var p := s.calls[l.t];
    match l
    case Take(t, kindMatches) => if p.Routed? && Free(s, p.ep) { ProceedLocks(s, Taken(s, p.ep), t, p.ep, kindMatches); }
    case Getter(t, ep) => if Free(s, ep) { GetterLocks(s, t, ep); }
    case Choose(t, ep) =>
      if p.Racing? && ep in p.got { ToLocks(s, Lose(s, p.got - {ep}), t, Draining(ep, p.wanted - p.got)); }
    case GetterCancelled(t, ep) =>
      if p.Draining? && ep in p.pending { ToLocks(s, s, t, p.(pending := p.pending - {ep})); }
    case Drained(t, kindMatches) =>
      if p.Draining? && p.pending == {} && p.ep in s.queued { ProceedLocks(s, s, t, p.ep, kindMatches); }
    case Lock(t) => LockLocks(s, t);
    case Leave(t) => LeaveLocks(s, t);
    case Cancel(t) => CancelLocks(s, t);
  }

  lemma StepLocks(s: Pool, l: Label)
    requires Locks(s)
    ensures Locks(Step(s, l))
  {
    if l.Add? || l.Remove? || l.Rename? {
      EndpointLocks(s, l);
    } else if l.Acquire? {
      if l.t !in s.calls { ToLocks(s, s, l.t, AcquireStep(s, l.t, l.route, l.ready).calls[l.t]); }
    } else if l.t in s.calls {
      CallLocks(s, l);
    }
  }

  ghost predicate Inv(s: Pool) {
    Tokens(s) && Locks(s)
  }

  lemma {:induction false} RunInv(s: Pool, ls: seq<Label>)
    requires Inv(s)
    ensures Inv(Run(s, ls))
  {
    if ls != [] {
      RunInv(s, ls[..|ls| - 1]);
      StepTokens(Run(s, ls[..|ls| - 1]), ls[|ls| - 1]);
      StepLocks(Run(s, ls[..|ls| - 1]), ls[|ls| - 1]);
    }
  }

  // ----- what a call is let into ---------------------------------------------------------------

  /**
   A routed call waits for its endpoint if that is ready; any other call, also one routed to an
   endpoint outside the pool, races for exactly the ready and unreserved endpoints of the pool.
   A call that finds none is refused.
   */
  lemma AcquireRacesTheReady(s: Pool, t: CallId, route: Option<Endpoint>, ready: set<Endpoint>, ep: Endpoint)
    requires t !in s.calls
    ensures var p := Get(Step(s, Acquire(t, route, ready)).calls, t);
            if route.Some? && route.value in s.queued then p == Some(if route.value in ready then Routed(route.value) else Over)
            else if exists e :: e in s.queued && e in ready then
              && p.Some? && p.value.Racing? && p.value.got == {}
              && (ep in p.value.wanted <==> ep in s.queued && ep in ready)
            else p == Some(Over)
  {
    if e :| e in s.queued && e in ready {
      assert e in ReadySlots(s, ready);
    }
  }

  /**
   A call that gets its token enters its body if nobody holds or awaits the lock of the endpoint's
   profile, and waits for it otherwise; a call that finds the profile's kind changed puts the
   token back and is refused.
   */
  lemma TokenLetsIn(s: Pool, l: Label, ep: Endpoint)
    requires l.Take? || l.Drained?
    requires l.t in s.calls && s.calls[l.t] == (if l.Take? then Routed(ep) else Draining(ep, {}))
    requires ep in s.queued && (l.Take? ==> s.queued[ep] == 1) && (l.Drained? ==> s.queued[ep] == 0)
    ensures var r, profile := Step(s, l), ProfileOf(s, ep);
            && Get(r.calls, l.t) == Some(if !l.kindMatches then Over
                                         else if profile in s.locks || Awaited(s, profile) then AtLock(ep, profile)
                                         else Body(ep, profile))
            && Get(r.queued, ep) == Some(if l.kindMatches then 0 else 1)
            && r.locks == if Get(r.calls, l.t) == Some(Body(ep, profile)) then s.locks[profile := l.t] else s.locks
  {
    assert Open(s, ProfileOf(s, ep)) <==> !(ProfileOf(s, ep) in s.locks || Awaited(s, ProfileOf(s, ep)));
  }

  /** Some call is suspended at the lock of the profile. */
  predicate Awaited(s: Pool, profile: Profile) {
    exists t <- s.calls.Keys :: s.calls[t].AtLock? && s.calls[t].profile == profile
  }

  /** Putting a token back fills an empty queue, and is noticed if the queue is full. */
  lemma PutFillsOrOverflows(s: Pool, ep: Endpoint)
    requires ep in s.queued
    ensures if s.queued[ep] == 0 then Put(s, ep) == s.(queued := s.queued[ep := 1]) else Put(s, ep).overflowed
  {
  }

  /** A getter takes a free token for its call; the call keeps one of those it has got and cancels the getters that have none. */
  lemma RaceIsDecided(s: Pool, t: CallId, ep: Endpoint)
    requires t in s.calls && s.calls[t].Racing?
    ensures var p, r := s.calls[t], Step(s, Getter(t, ep));
            if ep in p.wanted && ep !in p.got && Free(s, ep)
            then Get(r.calls, t) == Some(Racing(p.wanted, p.got + {ep})) && Get(r.queued, ep) == Some(s.queued[ep] - 1)
            else r == s
    ensures var p, r := s.calls[t], Step(s, Choose(t, ep));
            if ep in p.got then Get(r.calls, t) == Some(Draining(ep, p.wanted - p.got)) && r.queued == s.queued else r == s
  {
  }

  /** A cancelled getter is gone; a call whose getters are gone goes on, and not before. */
  lemma DrainingEnds(s: Pool, t: CallId, ep: Endpoint, kindMatches: bool)
    requires t in s.calls && s.calls[t].Draining?
    ensures var p, r := s.calls[t], Step(s, GetterCancelled(t, ep));
            r == if ep in p.pending then s.(calls := s.calls[t := Draining(p.ep, p.pending - {ep})]) else s
    ensures s.calls[t].pending != {} ==> Step(s, Drained(t, kindMatches)) == s
  {
  }

  /** Where a cancellation strikes, and what becomes of the call: its tokens are lost, but not those still in their queues. */
  lemma CancellationStrikes(s: Pool, t: CallId)
    requires t in s.calls
    ensures var p, r := s.calls[t], Step(s, Cancel(t));
            && r.queued == s.queued && r.locks == s.locks
            && match p
               case Routed(_) => Get(r.calls, t) == Some(Over)
               case Racing(wanted, got) => Get(r.calls, t) == Some(Orphaned(wanted - got))
               case AtLock(_, _) => Get(r.calls, t) == Some(Over)
               case _ => r == s
  {
  }

  /** A waiting call takes the lock once it is free. */
  lemma FreeLockIsTaken(s: Pool, t: CallId)
    requires t in s.calls && s.calls[t].AtLock?
    ensures var p, r := s.calls[t], Step(s, Label.Lock(t));
            if p.profile in s.locks then r == s
            else Get(r.calls, t) == Some(Body(p.ep, p.profile)) && r.locks == s.locks[p.profile := t]
  {
  }

  /** An endpoint that no call uses can be added with its token, removed with it, and renamed. */
  lemma IdleEndpointsChange(s: Pool, ep: Endpoint, profile: Profile)
    requires forall t :: t in s.calls ==> !Mentions(s.calls[t], ep)
    ensures var added, removed := Step(s, Add(ep)), Step(s, Remove(ep));
            && (if ep in s.queued then added == s
                else Get(added.queued, ep) == Some(1) && ProfileOf(added, ep) == ProfileOf(s, ep) && added.calls == s.calls)
            && (if ep in s.queued then ep !in removed.queued && ProfileOf(removed, ep) == ep && removed.calls == s.calls else removed == s)
            && ProfileOf(Step(s, Rename(ep, profile)), ep) == profile
  {
    assert Idle(s, ep);
  }

  /** A body that is left releases its lock and puts its token back. */
  lemma LeavingGivesBack(s: Pool, t: CallId)
    requires Inv(s) && t in s.calls && s.calls[t].Body?
    ensures var r, ep, profile := Step(s, Leave(t)), s.calls[t].ep, s.calls[t].profile;
            Get(r.calls, t) == Some(Over) && Get(r.queued, ep) == Some(1) && profile !in r.locks
  {
    assert WellFormed(s.calls[t], s.queued.Keys) && Mentions(s.calls[t], s.calls[t].ep);
    HolderEmptiesQueue(s, t, s.calls[t].ep);
  }

  // ----- how tokens get lost -------------------------------------------------------------------

  /**
   The steps that lose `ep`'s token: cancelling a call that is suspended at the profile lock with it, or
   that races and has got it; choosing another endpoint while having got it; a getter that takes
   it for a call that has already chosen or was cancelled.
   */
  predicate Loses(s: Pool, l: Label, ep: Endpoint) {
    match l
    case Cancel(t) =>
      t in s.calls && ((s.calls[t].AtLock? && s.calls[t].ep == ep) || (s.calls[t].Racing? && ep in s.calls[t].got))
    case Choose(t, kept) => t in s.calls && s.calls[t].Racing? && kept in s.calls[t].got && ep in s.calls[t].got && ep != kept
    case Getter(t, e) =>
      e == ep && t in s.calls && Free(s, ep) && (s.calls[t].Draining? || s.calls[t].Orphaned?) && ep in s.calls[t].pending
    case _ => false
  }

  /** No step has lost `ep`'s token since the endpoint was last added. */
  predicate Kept(ls: seq<Label>, ep: Endpoint) {
    ls != [] ==>
      var s, l := Run(EMPTY, ls[..|ls| - 1]), ls[|ls| - 1];
      ep in s.queued ==> Kept(ls[..|ls| - 1], ep) && !Loses(s, l, ep)
  }

  lemma LoseCounts(s: Pool, eps: set<Endpoint>, t: CallId, p: Phase, ep: Endpoint)
    requires ep in s.lost
    ensures var r := To(Lose(s, eps), t, p); ep in r.lost && r.lost[ep] == s.lost[ep] + One(ep in eps)
  {
  }

  lemma GetterCounts(s: Pool, t: CallId, e: Endpoint, ep: Endpoint)
    requires t in s.calls && Free(s, e) && ep in s.lost
    ensures var r := GetterStep(s, t, e); ep in r.lost && r.lost[ep] == s.lost[ep] + One(Loses(s, Getter(t, e), ep))
  {
    match s.calls[t]
    case Draining(kept, pending) => LoseCounts(Taken(s, e), {e}, t, Draining(kept, pending - {e}), ep);
    case Orphaned(pending) => LoseCounts(Taken(s, e), {e}, t, Orphaned(pending - {e}), ep);
    case _ =>
  }

  lemma CancelCounts(s: Pool, t: CallId, ep: Endpoint)
    requires t in s.calls && ep in s.lost
    ensures var r := CancelStep(s, t); ep in r.lost && r.lost[ep] == s.lost[ep] + One(Loses(s, Cancel(t), ep))
  {
    match s.calls[t]
    case Racing(wanted, got) => LoseCounts(s, got, t, Orphaned(wanted - got), ep);
    case AtLock(e, _) => LoseCounts(s, {e}, t, Over, ep);
    case _ =>
  }

  lemma ProceedLosesNothing(s: Pool, t: CallId, ep: Endpoint, kindMatches: bool)
    requires ep in s.queued
    ensures Proceed(s, t, ep, kindMatches).lost == s.lost
  {
  }

  lemma QuietStepsLoseNothing(s: Pool, l: Label)
    requires (l.Take? || l.GetterCancelled? || l.Drained? || l.Lock? || l.Leave?) && l.t in s.calls
    ensures CallStep(s, l).lost == s.lost
  {
    var p := s.calls[l.t];
    match l
    case Take(t, kindMatches) => if p.Routed? && Free(s, p.ep) { ProceedLosesNothing(Taken(s, p.ep), t, p.ep, kindMatches); }
    case Drained(t, kindMatches) => if p.Draining? && p.ep in s.queued { ProceedLosesNothing(s, t, p.ep, kindMatches); }
    case _ =>
  }

  lemma CallCounts(s: Pool, l: Label, ep: Endpoint)
    requires !l.Add? && !l.Remove? && !l.Rename? && !l.Acquire? && l.t in s.calls && ep in s.lost
    ensures var r := CallStep(s, l); ep in r.lost && r.lost[ep] == s.lost[ep] + One(Loses(s, l, ep))
  {
    var p := s.calls[l.t];
    match l
    case Getter(t, e) => if Free(s, e) { GetterCounts(s, t, e, ep); }
    case Choose(t, e) =>
      if p.Racing? && e in p.got { LoseCounts(s, p.got - {e}, t, Draining(e, p.wanted - p.got), ep); }
    case Cancel(t) => CancelCounts(s, t, ep);
    case _ => QuietStepsLoseNothing(s, l);
  }

  /** A step raises the loss of an endpoint exactly when it is one of those. */
  lemma LossStep(s: Pool, l: Label, ep: Endpoint)
    requires Tokens(s) && ep in s.queued && ep in Step(s, l).queued
    ensures ep in Step(s, l).lost && Step(s, l).lost[ep] == s.lost[ep] + One(Loses(s, l, ep))
  {
    if !l.Add? && !l.Remove? && !l.Rename? && !l.Acquire? && l.t in s.calls {
      CallCounts(s, l, ep);
    }
  }

  lemma AddedIsNotLost(s: Pool, l: Label, ep: Endpoint)
    requires Tokens(s) && ep !in s.queued && ep in Step(s, l).queued
    ensures ep in Step(s, l).lost && Step(s, l).lost[ep] == 0
  {
    if !l.Add? && !l.Remove? && !l.Rename? && !l.Acquire? && l.t in s.calls {
      if CallStep(s, l) != s {
        CallExchanges(s, l);
      }
    }
  }

  lemma {:induction false} LostIff(ls: seq<Label>, ep: Endpoint)
    requires ep in Run(EMPTY, ls).queued
    ensures ep in Run(EMPTY, ls).lost && (Run(EMPTY, ls).lost[ep] == 0 <==> Kept(ls, ep))
  {
    var front, l := ls[..|ls| - 1], ls[|ls| - 1];
    RunInv(EMPTY, front);
    if ep in Run(EMPTY, front).queued {
      LostIff(front, ep);
      LossStep(Run(EMPTY, front), l, ep);
    } else {
      AddedIsNotLost(Run(EMPTY, front), l, ep);
    }
  }

  // ----- exclusion -----------------------------------------------------------------------------

  /**
   In every run queued plus held tokens of an endpoint never exceed one, so no put overflows, and
   they are one exactly when no step has lost the token since the endpoint was added.
   */
  lemma TokenIsConserved(ls: seq<Label>, ep: Endpoint)
    requires ep in Run(EMPTY, ls).queued
    ensures var s := Run(EMPTY, ls);
            && s.queued[ep] + |Holders(s.calls, ep)| <= 1
            && (s.queued[ep] + |Holders(s.calls, ep)| == 1 <==> Kept(ls, ep))
            && !s.overflowed
  {
    RunInv(EMPTY, ls);
    LostIff(ls, ep);
    assert Balanced(Run(EMPTY, ls), ep);
  }

  lemma OneHolder(s: Pool, t: CallId, u: CallId, ep: Endpoint)
    requires Tokens(s) && t in s.calls && u in s.calls && Holds(s.calls[t], ep) && Holds(s.calls[u], ep)
    ensures t == u
  {
    assert WellFormed(s.calls[t], s.queued.Keys) && Mentions(s.calls[t], ep);
    assert Balanced(s, ep);
    var h := Holders(s.calls, ep);
    assert t in h && u in h;
    if t != u {
      assert {t, u} <= h;
      SubsetSize({t, u}, h);
    }
  }

  lemma SubsetSize(a: set<CallId>, b: set<CallId>)
    requires a <= b
    ensures |a| <= |b|
  {
    assert b == a + (b - a);
  }

  lemma EndpointsExclude(s: Pool, t: CallId, u: CallId)
    requires Tokens(s) && t in s.calls && u in s.calls && s.calls[t].Body? && s.calls[u].Body? && t != u
    ensures s.calls[t].ep != s.calls[u].ep
  {
    if s.calls[t].ep == s.calls[u].ep {
      OneHolder(s, t, u, s.calls[t].ep);
    }
  }

  lemma ProfilesExclude(s: Pool, t: CallId, u: CallId)
    requires Locks(s) && t in s.calls && u in s.calls && s.calls[t].Body? && s.calls[u].Body? && t != u
    ensures ProfileOf(s, s.calls[t].ep) != ProfileOf(s, s.calls[u].ep)
  {
    assert Get(s.locks, s.calls[t].profile) == Some(t) && Get(s.locks, s.calls[u].profile) == Some(u);
  }

  /** At most one body runs per endpoint and per profile name. */
  lemma BodiesExclude(ls: seq<Label>, t: CallId, u: CallId)
    requires var c := Run(EMPTY, ls).calls; t in c && u in c && c[t].Body? && c[u].Body? && t != u
    ensures var s := Run(EMPTY, ls);
            && s.calls[t].ep != s.calls[u].ep
            && ProfileOf(s, s.calls[t].ep) != ProfileOf(s, s.calls[u].ep)
  {
    RunInv(EMPTY, ls);
    EndpointsExclude(Run(EMPTY, ls), t, u);
    ProfilesExclude(Run(EMPTY, ls), t, u);
  }

  // ----- waiting ---------------------------------------------------------------------------------

  /** The endpoints a suspended call is waiting for a token of. */
  function Wants(p: Phase): set<Endpoint> {
    match p
    case Routed(ep) => {ep}
    case Racing(wanted, got) => if got == {} then wanted else {}
    case _ => {}
  }

  /** A routed call waits for its endpoint, a racing one for all of its own until it has got a token. */
  lemma WaitersWant(wanted: set<Endpoint>, got: set<Endpoint>, ep: Endpoint)
    ensures Wants(Routed(ep)) == {ep} && Wants(Racing(wanted, {})) == wanted
    ensures got != {} ==> Wants(Racing(wanted, got)) == {}
  {
  }

  ghost predicate WaitsFor(s: Pool, t: CallId, u: CallId) {
    && t in s.calls && u in s.calls
    && ((exists ep :: ep in Wants(s.calls[t]) && Holds(s.calls[u], ep))
        || (s.calls[t].AtLock? && Get(s.locks, s.calls[t].profile) == Some(u)))
  }

  function Rank(p: Phase): nat {
    if Wants(p) != {} then 2 else if p.AtLock? then 1 else 0
  }

  lemma WaitingLowersRank(s: Pool, t: CallId, u: CallId)
    requires Inv(s) && WaitsFor(s, t, u)
    ensures Rank(s.calls[t]) > Rank(s.calls[u])
  {
  }

  ghost predicate Chain(s: Pool, path: seq<CallId>) {
    forall i :: 0 <= i < |path| - 1 ==> WaitsFor(s, path[i], path[i + 1])
  }

  lemma {:induction false} ChainLowersRank(s: Pool, path: seq<CallId>)
    requires Inv(s) && Chain(s, path) && |path| >= 2
    ensures path[0] in s.calls && path[|path| - 1] in s.calls
    ensures Rank(s.calls[path[0]]) >= Rank(s.calls[path[|path| - 1]]) + |path| - 1
  {
    var n := |path| - 1;
    WaitingLowersRank(s, path[n - 1], path[n]);
    if n > 1 {
      assert Chain(s, path[..n]);
      ChainLowersRank(s, path[..n]);
    }
  }

  /** Nobody waits for itself, through any number of others; no chain of waits is longer than two. */
  lemma WaitingIsAcyclic(ls: seq<Label>, path: seq<CallId>)
    requires |path| >= 2 && Chain(Run(EMPTY, ls), path)
    ensures path[0] != path[|path| - 1] && |path| <= 3
  {
    RunInv(EMPTY, ls);
    ChainLowersRank(Run(EMPTY, ls), path);
  }
}
