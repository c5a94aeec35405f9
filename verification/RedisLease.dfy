/**
 The Redis browser pool (backend/browser_pool.py, `RedisBrowserPool.acquire`) on one lease key:
 INCR of the fence, SET NX PX of the lease, and the owner-checked scripts that renew and delete
 it.  Each Redis command is one step, time passes between them, and a lease is gone once its
 time to live has run out.  Times are milliseconds of the Redis clock.
 */
module RedisLease {
  import opened Common

  type CallId = nat

  const TTL := 30_000

  /** The owner string: the fence and a UUID. */
  datatype Owner = Owner(fence: nat, uuid: nat)

  datatype Lease = Lease(owner: Owner, expiresAt: int)

  /** `renewedAt` is when the call's last SET or renewal was applied. */
  datatype Phase =
    | Fenced(owner: Owner)                         // INCR answered, SET not yet applied
    | Retrying
    | Body(owner: Owner, renewedAt: int)
    | Revoked(owner: Owner, renewedAt: int)        // a renewal failed: cancelled, body not yet left
    | Releasing(owner: Owner)
    | Gone

  datatype State = State(now: int, fence: nat, lease: Option<Lease>, calls: map<CallId, Phase>,
                         issued: seq<Owner>, granted: seq<Owner>)

  datatype Label =
    | Tick(d: nat)
    | Incr(c: CallId, uuid: nat)
    | SetNx(c: CallId)
    | Renew(c: CallId)
    | Leave(c: CallId)
    | Release(c: CallId)

  const START: State := State(0, 0, None, map[], [], [])

  // ----- the Redis commands ------------------------------------------------------------------

  /** What GET answers: an expired key is gone. */
  function Stored(lease: Option<Lease>, now: int): Option<Lease> {
    if lease.Some? && lease.value.expiresAt <= now then None else lease
  }

  predicate OwnedBy(lease: Option<Lease>, now: int, owner: Owner) {
    Stored(lease, now).Some? && Stored(lease, now).value.owner == owner
  }

  function RenewScript(lease: Option<Lease>, now: int, owner: Owner): Option<Lease> {
    if OwnedBy(lease, now, owner) then Some(Lease(owner, now + TTL)) else lease
  }

  function ReleaseScript(lease: Option<Lease>, now: int, owner: Owner): Option<Lease> {
    if OwnedBy(lease, now, owner) then None else lease
  }

  // ----- the transition system -----------------------------------------------------------------

  predicate InBody(p: Phase) {
    p.Body? || p.Revoked?
  }

  function SetStep(s: State, c: CallId, owner: Owner): State {
    if Stored(s.lease, s.now).Some? then s.(calls := s.calls[c := Retrying])
    else s.(lease := Some(Lease(owner, s.now + TTL)), calls := s.calls[c := Body(owner, s.now)], granted := s.granted + [owner])
  }

  function RenewStep(s: State, c: CallId): State
    requires c in s.calls
  {
    match s.calls[c]
    case Body(owner, _) =>
      if OwnedBy(s.lease, s.now, owner)
      then s.(lease := RenewScript(s.lease, s.now, owner), calls := s.calls[c := Body(owner, s.now)])
      else s.(calls := s.calls[c := Revoked(owner, s.calls[c].renewedAt)])
    case Releasing(owner) => s.(lease := RenewScript(s.lease, s.now, owner))      // a renewal still in flight
    case _ => s
  }

  function Step(s: State, l: Label): State {
    match l
    case Tick(d) => s.(now := s.now + d)
    case Incr(c, uuid) =>
      if c in s.calls && !s.calls[c].Retrying? then s
      else
        var owner := Owner(s.fence + 1, uuid);
        s.(fence := s.fence + 1, calls := s.calls[c := Fenced(owner)], issued := s.issued + [owner])
    case SetNx(c) => if c in s.calls && s.calls[c].Fenced? then SetStep(s, c, s.calls[c].owner) else s
    case Renew(c) => if c in s.calls then RenewStep(s, c) else s
    case Leave(c) =>
      if c in s.calls && InBody(s.calls[c]) then s.(calls := s.calls[c := Releasing(s.calls[c].owner)]) else s
    case Release(c) =>
      if c in s.calls && s.calls[c].Releasing?
      then s.(lease := ReleaseScript(s.lease, s.now, s.calls[c].owner), calls := s.calls[c := Gone]) else s
  }

  function Run(s: State, ls: seq<Label>): State {
    if ls == [] then s else Step(Run(s, ls[..|ls| - 1]), ls[|ls| - 1])
  }

  // ----- owners are never reused -----------------------------------------------------------------

  predicate HasOwner(p: Phase) {
    !p.Retrying? && !p.Gone?
  }

  ghost predicate Owners(s: State) {
    && (forall c :: c in s.calls && HasOwner(s.calls[c]) ==> s.calls[c].owner.fence <= s.fence)
    && (forall c, d :: c in s.calls && d in s.calls && c != d && HasOwner(s.calls[c]) && HasOwner(s.calls[d]) ==>
          s.calls[c].owner.fence != s.calls[d].owner.fence)
    && |s.issued| == s.fence
    && (forall i :: 0 <= i < |s.issued| ==> s.issued[i].fence == i + 1)
  }

  lemma {:induction false} RunOwners(ls: seq<Label>)
    ensures Owners(Run(START, ls))
  {
    if ls != [] {
      RunOwners(ls[..|ls| - 1]);
      StepOwners(Run(START, ls[..|ls| - 1]), ls[|ls| - 1]);
    }
  }

  lemma MoveOwners(s: State, r: State, c: CallId)
    requires Owners(s) && c in s.calls && c in r.calls && r.calls == s.calls[c := r.calls[c]]
    requires HasOwner(r.calls[c]) ==> HasOwner(s.calls[c]) && r.calls[c].owner == s.calls[c].owner
    requires r.fence == s.fence && r.issued == s.issued
    ensures Owners(r)
  {
  }

  lemma IncrOwners(s: State, c: CallId, uuid: nat)
    requires Owners(s)
    ensures Owners(Step(s, Incr(c, uuid)))
  {
  }

  lemma StepOwners(s: State, l: Label)
    requires Owners(s)
    ensures Owners(Step(s, l))
  {
    match l
    case Tick(_) =>
    case Incr(c, uuid) => IncrOwners(s, c, uuid);
    case SetNx(c) => if c in s.calls && s.calls[c].Fenced? { MoveOwners(s, Step(s, l), c); }
    case Renew(c) => if c in s.calls && s.calls[c].Body? { MoveOwners(s, Step(s, l), c); }
    case Leave(c) => if c in s.calls && InBody(s.calls[c]) { MoveOwners(s, Step(s, l), c); }
    case Release(c) => if c in s.calls && s.calls[c].Releasing? { MoveOwners(s, Step(s, l), c); }
  }

  /** No two attempts in a run are ever given the same owner string. */
  lemma OwnersAreNeverReused(ls: seq<Label>, i: nat, j: nat)
    requires i < j < |Run(START, ls).issued|
    ensures Run(START, ls).issued[i] != Run(START, ls).issued[j]
    ensures Run(START, ls).issued[i].fence < Run(START, ls).issued[j].fence
  {
    RunOwners(ls);
  }

  // ----- a live lease belongs to its owner -----------------------------------------------------------

  /** The call a step is taken for, as far as it carries an owner. */
  predicate ActsAs(s: State, l: Label, owner: Owner) {
    (l.Renew? || l.Release?) && l.c in s.calls && HasOwner(s.calls[l.c]) && s.calls[l.c].owner == owner
  }

  /**
   In every run, no step of anybody but its owner changes a live lease; and the owner's own steps
   extend it by the time to live or delete it.
   */
  lemma LiveLeaseIsItsOwners(ls: seq<Label>, l: Label)
    requires Stored(Run(START, ls).lease, Run(START, ls).now).Some?
    requires Step(Run(START, ls), l).lease != Run(START, ls).lease
    ensures var s := Run(START, ls);
            && ActsAs(s, l, s.lease.value.owner)
            && Step(s, l).lease == if l.Renew? then Some(Lease(s.lease.value.owner, s.now + TTL)) else None
  {
  }

  // ----- exclusion ---------------------------------------------------------------------------------

  /** The call is in its body and let the time to live pass since its last renewal. */
  predicate Late(s: State, c: CallId) {
    c in s.calls && InBody(s.calls[c]) && s.now >= s.calls[c].renewedAt + TTL
  }

  predicate Fresh(s: State, c: CallId) {
    c in s.calls && InBody(s.calls[c]) && s.now < s.calls[c].renewedAt + TTL
  }

  predicate Granted(p: Phase) {
    InBody(p) || p.Releasing?
  }

  /** The live lease is the one that call `c` was granted. */
  predicate HeldBy(s: State, c: CallId) {
    c in s.calls && Granted(s.calls[c]) && s.lease.Some? && s.calls[c].owner == s.lease.value.owner
  }

  ghost predicate Holding(s: State) {
    && (forall c :: Fresh(s, c) ==> s.lease == Some(Lease(s.calls[c].owner, s.calls[c].renewedAt + TTL)))
    && (forall c :: HeldBy(s, c) && InBody(s.calls[c]) ==> s.lease.value.expiresAt == s.calls[c].renewedAt + TTL)
    && (Stored(s.lease, s.now).Some? ==> exists c :: HeldBy(s, c))
  }

  lemma GrantHolding(s: State, c: CallId)
    requires Owners(s) && Holding(s) && c in s.calls && s.calls[c].Fenced? && Stored(s.lease, s.now).None?
    ensures Holding(SetStep(s, c, s.calls[c].owner))
  {
    var r := SetStep(s, c, s.calls[c].owner);
    assert HeldBy(r, c);
    forall d | Fresh(r, d) ensures d == c {
      assert d != c ==> Fresh(s, d);
    }
    forall d | HeldBy(r, d) ensures d == c {
      if d != c {
        OwnersDiffer(s, c, d);
      }
    }
  }

  /** Two calls with owners have different ones. */
  lemma OwnersDiffer(s: State, c: CallId, d: CallId)
    requires Owners(s) && c in s.calls && d in s.calls && c != d && HasOwner(s.calls[c]) && HasOwner(s.calls[d])
    ensures s.calls[c].owner != s.calls[d].owner
  {
    assert s.calls[c].owner.fence != s.calls[d].owner.fence;
  }

  /** Only one call can hold the lease. */
  lemma OneHolder(s: State, c: CallId, d: CallId)
    requires Owners(s) && HeldBy(s, c) && HeldBy(s, d)
    ensures c == d
  {
    if c != d {
      OwnersDiffer(s, c, d);
    }
  }

  /** The owner renews, in its body or with a renewal still in flight. */
  lemma OwnRenewalHolding(s: State, c: CallId)
    requires Owners(s) && Holding(s) && HeldBy(s, c) && OwnedBy(s.lease, s.now, s.calls[c].owner) && !s.calls[c].Revoked?
    ensures Holding(RenewStep(s, c))
  {
    var r := RenewStep(s, c);
    assert HeldBy(r, c);
    forall d | Fresh(r, d) ensures r.lease == Some(Lease(r.calls[d].owner, r.calls[d].renewedAt + TTL)) {
      if d != c {
        assert Fresh(s, d) && HeldBy(s, d);
        OneHolder(s, c, d);
      }
    }
    forall d | HeldBy(r, d) && InBody(r.calls[d]) ensures r.lease.value.expiresAt == r.calls[d].renewedAt + TTL {
      if d != c {
        assert HeldBy(s, d);
        OneHolder(s, c, d);
      }
    }
  }

  /** A step that changes no lease and moves a call from one granted phase to another, or lets it go. */
  lemma MoveHolding(s: State, r: State, c: CallId)
    requires Owners(s) && Holding(s) && c in s.calls && c in r.calls && r.calls == s.calls[c := r.calls[c]]
    requires r.lease == s.lease && r.now == s.now
    requires InBody(r.calls[c]) ==> InBody(s.calls[c]) && r.calls[c].renewedAt == s.calls[c].renewedAt
    requires Granted(r.calls[c]) ==> Granted(s.calls[c]) && r.calls[c].owner == s.calls[c].owner
    requires HeldBy(s, c) && Stored(s.lease, s.now).Some? ==> Granted(r.calls[c])
    ensures Holding(r)
  {
    forall d | Fresh(r, d) ensures r.lease == Some(Lease(r.calls[d].owner, r.calls[d].renewedAt + TTL)) {
      assert Fresh(s, d);
    }
    forall d | HeldBy(r, d) && InBody(r.calls[d]) ensures r.lease.value.expiresAt == r.calls[d].renewedAt + TTL {
      assert HeldBy(s, d);
    }
    if Stored(s.lease, s.now).Some? {
      var d :| HeldBy(s, d);
      assert HeldBy(r, d);
    }
  }

  lemma RenewHolding(s: State, c: CallId)
    requires Owners(s) && Holding(s) && c in s.calls
    ensures Holding(RenewStep(s, c))
  {
    match s.calls[c]
    case Body(owner, _) =>
      if OwnedBy(s.lease, s.now, owner) {
        OwnRenewalHolding(s, c);
      } else {
        MoveHolding(s, RenewStep(s, c), c);
      }
    case Releasing(owner) =>
      if OwnedBy(s.lease, s.now, owner) { OwnRenewalHolding(s, c); } else { assert RenewStep(s, c) == s; }
    case _ =>
  }

  lemma ReleaseHolding(s: State, c: CallId)
    requires Owners(s) && Holding(s) && c in s.calls && s.calls[c].Releasing?
    ensures Holding(Step(s, Release(c)))
  {
    var r := Step(s, Release(c));
    if OwnedBy(s.lease, s.now, s.calls[c].owner) {
      forall d | Fresh(r, d) ensures false {
        assert Fresh(s, d) && HeldBy(s, d) && HeldBy(s, c);
        OneHolder(s, c, d);
      }
    } else {
      MoveHolding(s, r, c);
    }
  }

  lemma IncrHolding(s: State, c: CallId, uuid: nat)
    requires Holding(s)
    ensures Holding(Step(s, Incr(c, uuid)))
  {
    var r := Step(s, Incr(c, uuid));
    assert forall d :: Fresh(r, d) ==> Fresh(s, d);
    assert forall d :: HeldBy(r, d) <==> HeldBy(s, d);
  }

  lemma TickHolding(s: State, d: nat)
    requires Holding(s)
    ensures Holding(Step(s, Tick(d)))
  {
    var r := Step(s, Tick(d));
    assert forall c :: Fresh(r, c) ==> Fresh(s, c);
    assert forall c :: HeldBy(r, c) <==> HeldBy(s, c);
  }

  lemma StepHolding(s: State, l: Label)
    requires Owners(s) && Holding(s)
    ensures Holding(Step(s, l))
  {
    match l
    case Tick(d) => TickHolding(s, d);
    case Incr(c, uuid) => IncrHolding(s, c, uuid);
    case SetNx(c) =>
      if c in s.calls && s.calls[c].Fenced? {
        if Stored(s.lease, s.now).None? { GrantHolding(s, c); } else { MoveHolding(s, Step(s, l), c); }
      }
    case Renew(c) => if c in s.calls { RenewHolding(s, c); }
    case Leave(c) => if c in s.calls && InBody(s.calls[c]) { MoveHolding(s, Step(s, l), c); }
    case Release(c) => if c in s.calls && s.calls[c].Releasing? { ReleaseHolding(s, c); }
  }

  lemma {:induction false} RunHolding(ls: seq<Label>)
    ensures Holding(Run(START, ls))
  {
    if ls != [] {
      RunOwners(ls[..|ls| - 1]);
      RunHolding(ls[..|ls| - 1]);
      StepHolding(Run(START, ls[..|ls| - 1]), ls[|ls| - 1]);
    }
  }

  predicate Overlap(s: State, c: CallId, d: CallId) {
    c != d && c in s.calls && d in s.calls && InBody(s.calls[c]) && InBody(s.calls[d])
  }

  /** Whenever two bodies overlap, in any timed run, one of them let the time to live pass since its last renewal. */
  lemma OverlapMeansLate(ls: seq<Label>, c: CallId, d: CallId)
    requires Overlap(Run(START, ls), c, d)
    ensures Late(Run(START, ls), c) || Late(Run(START, ls), d)
  {
    RunHolding(ls);
    RunOwners(ls);
    var s := Run(START, ls);
    if Fresh(s, c) && Fresh(s, d) {
      OwnersDiffer(s, c, d);
    }
  }

  /** So while every holder's renewal is applied within the time to live, no two bodies overlap. */
  lemma TimelyBodiesExclude(ls: seq<Label>, c: CallId, d: CallId)
    requires forall e :: !Late(Run(START, ls), e)
    ensures !Overlap(Run(START, ls), c, d)
  {
    if Overlap(Run(START, ls), c, d) {
      OverlapMeansLate(ls, c, d);
    }
  }

  // ----- what renewing does ----------------------------------------------------------------------------

  /** The labels' own clock. */
  function Clock(ls: seq<Label>): int {
    if ls == [] then 0
    else
      var l := ls[|ls| - 1];
      Clock(ls[..|ls| - 1]) + (if l.Tick? then l.d else 0)
  }

  lemma {:induction false} ClockIsNow(ls: seq<Label>)
    ensures Run(START, ls).now == Clock(ls)
  {
    if ls != [] {
      ClockIsNow(ls[..|ls| - 1]);
    }
  }

  /** The lease as a command finds it belongs to `owner`. */
  predicate Finds(s: State, owner: Owner) {
    s.lease.Some? && s.lease.value.owner == owner && s.now < s.lease.value.expiresAt
  }

  /**
   A renewal by a call in its body extends the lease by the time to live, exactly when the lease is
   still the call's own; otherwise the call is revoked and the lease left alone.
   */
  lemma RenewalExtends(s: State, c: CallId)
    requires c in s.calls && s.calls[c].Body?
    ensures var r, owner := Step(s, Renew(c)), s.calls[c].owner;
            if Finds(s, owner) then
              r.lease == Some(Lease(owner, s.now + TTL)) && Get(r.calls, c) == Some(Body(owner, s.now))
            else r.lease == s.lease && Get(r.calls, c) == Some(Revoked(owner, s.calls[c].renewedAt))
  {
  }

  /** A renewal still in flight when its body has been left extends the lease just so, and changes nothing else. */
  lemma LateRenewalExtends(s: State, c: CallId)
    requires c in s.calls && s.calls[c].Releasing?
    ensures Step(s, Renew(c)) == s.(lease := if Finds(s, s.calls[c].owner) then Some(Lease(s.calls[c].owner, s.now + TTL)) else s.lease)
  {
  }

  /** SET grants the lease exactly when no live one is found; a call that finds one tries again later. */
  lemma SetGrantsIff(s: State, c: CallId)
    requires c in s.calls && s.calls[c].Fenced?
    ensures var r, owner := Step(s, SetNx(c)), s.calls[c].owner;
            if s.lease.None? || s.lease.value.expiresAt <= s.now then
              && r.lease == Some(Lease(owner, s.now + TTL)) && Get(r.calls, c) == Some(Body(owner, s.now))
              && r.granted == s.granted + [owner]
            else r.lease == s.lease && Get(r.calls, c) == Some(Retrying) && r.granted == s.granted
  {
  }

  /** A call that leaves its body releases its own live lease and nobody else's. */
  lemma ReleaseFreesIff(s: State, c: CallId)
    requires c in s.calls && s.calls[c].Releasing?
    ensures var r := Step(s, Release(c));
            && Get(r.calls, c) == Some(Gone)
            && r.lease == if Finds(s, s.calls[c].owner) then None else s.lease
  {
  }

  /** Every attempt starts with a fence of its own, whatever happened to the ones before. */
  lemma IncrFences(s: State, c: CallId, uuid: nat)
    ensures var r := Step(s, Incr(c, uuid));
            if c in s.calls && !s.calls[c].Retrying? then r == s
            else && Get(r.calls, c) == Some(Fenced(Owner(s.fence + 1, uuid))) && r.fence == s.fence + 1 && r.lease == s.lease
                 && r.issued == s.issued + [Owner(s.fence + 1, uuid)]
  {
  }

  /** A body is left whenever it ends, revoked or not. */
  lemma BodyIsLeft(s: State, c: CallId)
    requires c in s.calls && InBody(s.calls[c])
    ensures Step(s, Leave(c)) == s.(calls := s.calls[c := Releasing(s.calls[c].owner)])
  {
  }

  /** The instant of `c`'s grant or of the last renewal it has sent since, read off the labels. */
  function LastRenewal(ls: seq<Label>, c: CallId): Option<int> {
    if ls == [] then None
    else
      var front, l := ls[..|ls| - 1], ls[|ls| - 1];
      if l == Renew(c) && LastRenewal(front, c).Some? then Some(Clock(front))
      else if l == SetNx(c) && |Run(START, ls).granted| > |Run(START, front).granted| then Some(Clock(front))
      else if l == Leave(c) then None
      else LastRenewal(front, c)
  }

  lemma LastRenewalSnoc(ls: seq<Label>, l: Label, c: CallId)
    ensures LastRenewal(ls + [l], c)
            == if l == Renew(c) && LastRenewal(ls, c).Some? then Some(Clock(ls))
               else if l == SetNx(c) && |Step(Run(START, ls), l).granted| > |Run(START, ls).granted| then Some(Clock(ls))
               else if l == Leave(c) then None else LastRenewal(ls, c)
    ensures Clock(ls + [l]) == Clock(ls) + (if l.Tick? then l.d else 0)
  {
    assert (ls + [l])[..|ls + [l]| - 1] == ls;
    RunSnoc(START, ls, l);
  }

  /** A grant and every renewal sent since set the instant; leaving the body clears it. */
  lemma {:induction false} LastRenewalFollows(ls: seq<Label>, c: CallId, d: nat)
    ensures var s := Run(START, ls);
            c in s.calls && s.calls[c].Fenced? && (s.lease.None? || s.lease.value.expiresAt <= s.now) ==>
              LastRenewal(ls + [SetNx(c)], c) == Some(Clock(ls))
    ensures LastRenewal(ls + [Renew(c)], c) == if LastRenewal(ls, c).Some? then Some(Clock(ls)) else None
    ensures LastRenewal(ls + [Leave(c)], c) == None
    ensures LastRenewal(ls + [Tick(d)], c) == LastRenewal(ls, c) && Clock(ls + [Tick(d)]) == Clock(ls) + d
  {
    LastRenewalSnoc(ls, SetNx(c), c);
    LastRenewalSnoc(ls, Renew(c), c);
    LastRenewalSnoc(ls, Leave(c), c);
    LastRenewalSnoc(ls, Tick(d), c);
  }

  /** From its grant until now, `c` has never let the time to live pass without sending a renewal. */
  ghost predicate RenewsInTime(ls: seq<Label>, c: CallId) {
    forall k :: 0 <= k <= |ls| && LastRenewal(ls[..k], c).Some? ==> Clock(ls[..k]) < LastRenewal(ls[..k], c).value + TTL
  }

  lemma RenewsInTimeFront(ls: seq<Label>, c: CallId)
    requires ls != [] && RenewsInTime(ls, c)
    ensures RenewsInTime(ls[..|ls| - 1], c)
    ensures LastRenewal(ls, c).Some? ==> Clock(ls) < LastRenewal(ls, c).value + TTL
  {
    var front := ls[..|ls| - 1];
    assert ls[..|ls|] == ls;
    forall k | 0 <= k <= |front| ensures front[..k] == ls[..k] { }
  }

  /** The stored lease is `c`'s, and it is in its body. */
  ghost predicate Keeps(s: State, c: CallId, renewed: int) {
    && c in s.calls && s.calls[c].Body?
    && s.lease == Some(Lease(s.calls[c].owner, renewed + TTL)) && s.now < renewed + TTL
  }

  lemma KeepsStep(s: State, l: Label, c: CallId, renewed: int)
    requires Owners(s) && Keeps(s, c, renewed) && l != Leave(c)
    ensures var r := if l == Renew(c) then s.now else renewed;
            Step(s, l).now < r + TTL ==> Keeps(Step(s, l), c, r)
    ensures Step(s, l).granted == s.granted
  {
    match l
    case Renew(d) => if d in s.calls && d != c && HasOwner(s.calls[d]) { OwnersDiffer(s, c, d); }
    case Release(d) => if d in s.calls && d != c && HasOwner(s.calls[d]) { OwnersDiffer(s, c, d); }
    case _ =>
  }

  lemma GrantKeeps(s: State, c: CallId)
    requires |Step(s, SetNx(c)).granted| > |s.granted|
    ensures Keeps(Step(s, SetNx(c)), c, s.now)
  {
  }

  /**
   A call that sends its renewals less than the time to live apart, from its grant on, keeps the
   lease until it leaves its body: it is never revoked, the stored lease is its own and runs from
   its last renewal, and nobody else is granted the lease.
   */
  lemma {:induction false} TimelyCallKeepsTheLease(ls: seq<Label>, c: CallId)
    requires RenewsInTime(ls, c) && LastRenewal(ls, c).Some?
    ensures Keeps(Run(START, ls), c, LastRenewal(ls, c).value)
    ensures forall l :: l != Leave(c) ==> Step(Run(START, ls), l).granted == Run(START, ls).granted
  {
    var front, l := ls[..|ls| - 1], ls[|ls| - 1];
    var s := Run(START, front);
    RenewsInTimeFront(ls, c);
    ClockIsNow(front);
    ClockIsNow(ls);
    RunOwners(front);
    RunOwners(ls);
    if LastRenewal(front, c).Some? {
      TimelyCallKeepsTheLease(front, c);
      KeepsStep(s, l, c, LastRenewal(front, c).value);
    } else {
      GrantKeeps(s, c);
    }
    forall x | x != Leave(c) ensures Step(Run(START, ls), x).granted == Run(START, ls).granted {
      KeepsStep(Run(START, ls), x, c, LastRenewal(ls, c).value);
    }
  }

  /** So beside it nobody else is in a body that was granted after it. */
  lemma {:induction false} TimelyCallIsAlone(ls: seq<Label>, more: seq<Label>, c: CallId)
    requires LastRenewal(ls, c).Some? && RenewsInTime(ls + more, c) && Leave(c) !in more
    ensures LastRenewal(ls + more, c).Some? && Run(START, ls + more).granted == Run(START, ls).granted
    ensures c in Run(START, ls + more).calls && Run(START, ls + more).calls[c].Body?
    decreases |more|
  {
    if more == [] {
      assert ls + more == ls;
      TimelyCallKeepsTheLease(ls, c);
    } else {
      var front, l := more[..|more| - 1], more[|more| - 1];
      assert l in more && (ls + more)[..|ls + more| - 1] == ls + front && (ls + more)[|ls + more| - 1] == l;
      RenewsInTimeFront(ls + more, c);
      TimelyCallIsAlone(ls, front, c);
      TimelyCallKeepsTheLease(ls + front, c);
      TimelyCallKeepsTheLease(ls + more, c);
    }
  }

  // ----- the bound is tight --------------------------------------------------------------------------

  predicate StepOf(l: Label, c: CallId) {
    !l.Tick? && l.c == c
  }

  /** With no time passing and `c` standing still, a newcomer `d` can get into its body beside `c`. */
  ghost predicate Overtakes(s: State, c: CallId, more: seq<Label>, d: CallId) {
    && d !in s.calls
    && (forall l :: l in more ==> !l.Tick? && !StepOf(l, c))
    && Overlap(Run(s, more), c, d)
  }

  /** While `c` is fresh, nobody else is granted the lease. */
  lemma FreshBars(s: State, l: Label, c: CallId, d: CallId)
    requires Holding(s) && Fresh(s, c) && !l.Tick? && !StepOf(l, c) && d != c
    requires d in s.calls ==> !InBody(s.calls[d])
    ensures Fresh(Step(s, l), c)
    ensures d in Step(s, l).calls ==> !InBody(Step(s, l).calls[d])
  {
  }

  lemma {:induction false} FreshIsNotOvertaken(s: State, c: CallId, more: seq<Label>, d: CallId)
    requires Owners(s) && Holding(s) && Fresh(s, c) && d !in s.calls
    requires forall l :: l in more ==> !l.Tick? && !StepOf(l, c)
    ensures Owners(Run(s, more)) && Holding(Run(s, more)) && Fresh(Run(s, more), c)
    ensures d in Run(s, more).calls ==> !InBody(Run(s, more).calls[d])
  {
    if more != [] {
      var front, l := more[..|more| - 1], more[|more| - 1];
      FreshIsNotOvertaken(s, c, front, d);
      assert l in more;
      StepOwners(Run(s, front), l);
      StepHolding(Run(s, front), l);
      FreshBars(Run(s, front), l, c, d);
    }
  }

  lemma RunSnoc(s: State, ls: seq<Label>, l: Label)
    ensures Run(s, ls + [l]) == Step(Run(s, ls), l)
  {
    assert (ls + [l])[..|ls + [l]| - 1] == ls;
  }

  /** Without a live lease a newcomer is granted one at once. */
  lemma NewcomerIsGranted(s: State, c: CallId, more: seq<Label>, d: CallId) returns (all: seq<Label>)
    requires c in s.calls && d !in s.calls && d !in Run(s, more).calls
    requires Get(Run(s, more).calls, c) == Some(s.calls[c]) && InBody(s.calls[c])
    requires Stored(Run(s, more).lease, Run(s, more).now).None?
    requires forall l :: l in more ==> !l.Tick? && !StepOf(l, c)
    ensures Overtakes(s, c, all, d)
  {
    all := more + [Incr(d, 0)];
    RunSnoc(s, more, Incr(d, 0));
    RunSnoc(s, all, SetNx(d));
    all := all + [SetNx(d)];
  }

  lemma FreshId(s: State) returns (d: CallId)
    ensures d !in s.calls
  {
    d := Bound(s.calls.Keys);
  }

  ghost function Bound(ids: set<CallId>): (n: CallId)
    ensures forall c :: c in ids ==> c < n
  {
    if ids == {} then 0
    else
      var c :| c in ids;
      var n := Bound(ids - {c});
      assert forall d :: d in ids ==> d == c || d in ids - {c};
      if c < n then n else c + 1
  }

  /** The state after the holder of a live lease has left and released. */
  ghost predicate LetGo(s: State, c: CallId, more: seq<Label>) {
    && (forall l :: l in more ==> !l.Tick? && !StepOf(l, c))
    && Stored(Run(s, more).lease, Run(s, more).now).None?
    && Run(s, more).calls.Keys == s.calls.Keys
    && Get(Run(s, more).calls, c) == Get(s.calls, c)
  }

  lemma ReleasingLetsGo(s: State, h: CallId, c: CallId, more: seq<Label>)
    requires var r := Run(s, more);
             h in r.calls && r.calls[h].Releasing? && OwnedBy(r.lease, r.now, r.calls[h].owner)
    requires h != c && (forall l :: l in more ==> !l.Tick? && !StepOf(l, c))
    requires Run(s, more).calls.Keys == s.calls.Keys && Get(Run(s, more).calls, c) == Get(s.calls, c)
    ensures LetGo(s, c, more + [Release(h)])
  {
    RunSnoc(s, more, Release(h));
    ReleaseStep(Run(s, more), h);
    forall l | l in more + [Release(h)] ensures !l.Tick? && !StepOf(l, c) {
      assert l in more || l == Release(h);
    }
  }

  lemma ReleaseStep(s: State, h: CallId)
    requires h in s.calls && s.calls[h].Releasing? && OwnedBy(s.lease, s.now, s.calls[h].owner)
    ensures Step(s, Release(h)) == s.(lease := None, calls := s.calls[h := Gone])
  {
  }

  lemma HolderLetsGo(s: State, h: CallId, c: CallId) returns (more: seq<Label>)
    requires HeldBy(s, h) && Stored(s.lease, s.now).Some? && h != c
    ensures LetGo(s, c, more)
  {
    assert Run(s, []) == s;
    if InBody(s.calls[h]) {
      RunSnoc(s, [], Leave(h));
      ReleasingLetsGo(s, h, c, [] + [Leave(h)]);
      more := [] + [Leave(h)] + [Release(h)];
    } else {
      ReleasingLetsGo(s, h, c, []);
      more := [] + [Release(h)];
    }
  }

  /** The others can always make way for a newcomer, unless the live lease is `c`'s. */
  lemma LateIsOvertaken(s: State, c: CallId) returns (more: seq<Label>, d: CallId)
    requires Holding(s) && Late(s, c)
    ensures Overtakes(s, c, more, d)
  {
    d := FreshId(s);
    more := [];
    assert Run(s, []) == s;
    if Stored(s.lease, s.now).Some? {
      var h :| HeldBy(s, h);
      more := HolderLetsGo(s, h, c);
    }
    more := NewcomerIsGranted(s, c, more, d);
  }

  /**
   The time to live is exact: a call in its body can be overtaken by a newcomer before it moves
   again and before any time passes, exactly when it is late.
   */
  lemma OvertakenIffLate(ls: seq<Label>, c: CallId)
    requires c in Run(START, ls).calls && InBody(Run(START, ls).calls[c])
    ensures (exists more: seq<Label>, d: CallId :: Overtakes(Run(START, ls), c, more, d)) <==> Late(Run(START, ls), c)
  {
    RunOwners(ls);
    RunHolding(ls);
    var s := Run(START, ls);
    if Late(s, c) {
      var more, d := LateIsOvertaken(s, c);
    } else {
      forall more: seq<Label>, d: CallId ensures !Overtakes(s, c, more, d) {
        if d !in s.calls && forall l :: l in more ==> !l.Tick? && !StepOf(l, c) {
          FreshIsNotOvertaken(s, c, more, d);
        }
      }
    }
  }

  lemma Extend(ls: seq<Label>, l: Label)
    ensures Run(START, ls + [l]) == Step(Run(START, ls), l)
  {
    RunSnoc(START, ls, l);
  }

  // ----- the order of grants ----------------------------------------------------------------------------

  /** The fences of the grants ascend. */
  ghost predicate Ascending(granted: seq<Owner>) {
    forall i, j :: 0 <= i < j < |granted| ==> granted[i].fence < granted[j].fence
  }

  /** The owner is the answer to some INCR: fence n is the nth answer. */
  predicate Answered(s: State, owner: Owner) {
    0 < owner.fence <= |s.issued| && s.issued[owner.fence - 1] == owner
  }

  /** Owners in calls and grants come from INCR, and no grant carries the fence of a call that still waits for its SET. */
  ghost predicate Traced(s: State) {
    && (forall c :: c in s.calls && HasOwner(s.calls[c]) ==> Answered(s, s.calls[c].owner))
    && (forall i :: 0 <= i < |s.granted| ==> Answered(s, s.granted[i]))
    && (forall c, i :: c in s.calls && s.calls[c].Fenced? && 0 <= i < |s.granted| ==> s.granted[i].fence != s.calls[c].owner.fence)
  }

  lemma IncrTraced(s: State, c: CallId, uuid: nat)
    requires Owners(s) && Traced(s)
    ensures Traced(Step(s, Incr(c, uuid)))
  {
    var r := Step(s, Incr(c, uuid));
    assert forall owner: Owner :: Answered(s, owner) ==> Answered(r, owner) && owner.fence <= s.fence;
  }

  lemma SetTraced(s: State, c: CallId)
    requires Owners(s) && Traced(s) && c in s.calls && s.calls[c].Fenced?
    ensures Traced(SetStep(s, c, s.calls[c].owner))
  {
    var r := SetStep(s, c, s.calls[c].owner);
    assert forall owner: Owner :: Answered(s, owner) <==> Answered(r, owner);
    forall d, i | d in r.calls && r.calls[d].Fenced? && 0 <= i < |r.granted| ensures r.granted[i].fence != r.calls[d].owner.fence {
      assert d != c && s.calls[d].owner.fence != s.calls[c].owner.fence;
    }
  }

  lemma StepTraced(s: State, l: Label)
    requires Owners(s) && Traced(s)
    ensures Traced(Step(s, l))
  {
    if l.Incr? {
      IncrTraced(s, l.c, l.uuid);
    } else if l.SetNx? {
      if l.c in s.calls && s.calls[l.c].Fenced? { SetTraced(s, l.c); }
    } else {
      var r := Step(s, l);
      assert forall owner: Owner :: Answered(s, owner) <==> Answered(r, owner);
    }
  }

  lemma {:induction false} RunTraced(ls: seq<Label>)
    ensures Traced(Run(START, ls))
  {
    if ls != [] {
      RunOwners(ls[..|ls| - 1]);
      RunTraced(ls[..|ls| - 1]);
      StepTraced(Run(START, ls[..|ls| - 1]), ls[|ls| - 1]);
    }
  }

  /** The INCR that answered `a` was applied before the one that answered `b`. */
  ghost predicate IssuedBefore(s: State, a: Owner, b: Owner) {
    exists i, j :: 0 <= i < j < |s.issued| && s.issued[i] == a && s.issued[j] == b
  }

  /** The step grants the lease to a call that was overtaken between its INCR and its SET: a later INCR has been granted. */
  ghost predicate GrantsOvertaken(s: State, l: Label) {
    && l.SetNx? && l.c in s.calls && s.calls[l.c].Fenced? && Stored(s.lease, s.now).None?
    && exists k :: 0 <= k < |s.granted| && IssuedBefore(s, s.calls[l.c].owner, s.granted[k])
  }

  /** Fences count INCRs, so comparing fences is comparing the order of the commands. */
  lemma FenceOrderIsIssueOrder(s: State, a: Owner, b: Owner)
    requires Owners(s) && Answered(s, a) && Answered(s, b)
    ensures a.fence < b.fence <==> IssuedBefore(s, a, b)
  {
    assert a.fence < b.fence ==> s.issued[a.fence - 1] == a && s.issued[b.fence - 1] == b;
  }

  lemma AscendingSnoc(granted: seq<Owner>, owner: Owner)
    ensures Ascending(granted + [owner]) <==> Ascending(granted) && forall i :: 0 <= i < |granted| ==> granted[i].fence < owner.fence
  {
    var after := granted + [owner];
    assert after[|granted|] == owner && forall i :: 0 <= i < |granted| ==> after[i] == granted[i];
  }

  lemma AscendingStep(s: State, l: Label)
    requires Owners(s) && Traced(s)
    ensures Ascending(Step(s, l).granted) <==> Ascending(s.granted) && !GrantsOvertaken(s, l)
  {
    if l.SetNx? && l.c in s.calls && s.calls[l.c].Fenced? && Stored(s.lease, s.now).None? {
      var owner := s.calls[l.c].owner;
      AscendingSnoc(s.granted, owner);
      forall k | 0 <= k < |s.granted| ensures s.granted[k].fence < owner.fence <==> !IssuedBefore(s, owner, s.granted[k]) {
        FenceOrderIsIssueOrder(s, owner, s.granted[k]);
      }
    } else {
      assert Step(s, l).granted == s.granted;
    }
  }

  ghost predicate NeverGrantsOvertaken(ls: seq<Label>) {
    forall k :: 0 <= k < |ls| ==> !GrantsOvertaken(Run(START, ls[..k]), ls[k])
  }

  lemma NeverGrantsSnoc(front: seq<Label>, l: Label)
    ensures NeverGrantsOvertaken(front + [l]) <==> NeverGrantsOvertaken(front) && !GrantsOvertaken(Run(START, front), l)
  {
    var ls := front + [l];
    assert ls[..|front|] == front && ls[|front|] == l;
    assert forall k :: 0 <= k < |front| ==> ls[..k] == front[..k] && ls[k] == front[k];
  }

  /**
   In every run the fences ascend in the order of the grants, exactly when no call is granted the
   lease after a call whose INCR came later.
   */
  lemma {:induction false} FencesFollowGrantsIff(ls: seq<Label>)
    ensures Ascending(Run(START, ls).granted) <==> NeverGrantsOvertaken(ls)
  {
    if ls != [] {
      var front, l := ls[..|ls| - 1], ls[|ls| - 1];
      assert ls == front + [l];
      FencesFollowGrantsIff(front);
      RunOwners(front);
      RunTraced(front);
      AscendingStep(Run(START, front), l);
      NeverGrantsSnoc(front, l);
    }
  }

  /** INCR and SET are separate commands, so such a run exists and its fences fall. */
  lemma GrantsMayReverseFences() returns (ls: seq<Label>)
    ensures var g := Run(START, ls).granted; |g| == 2 && g[0].fence > g[1].fence
  {
    ls := [];
    Extend(ls, Incr(1, 0));
    ls := ls + [Incr(1, 0)];
    Extend(ls, Incr(2, 0));
    ls := ls + [Incr(2, 0)];
    Extend(ls, SetNx(2));
    ls := ls + [SetNx(2)];
    assert Run(START, ls).granted == [Owner(2, 0)];
    ls := ReleasedAndGranted(ls);
  }

  lemma ReleasedAndGranted(before: seq<Label>) returns (ls: seq<Label>)
    requires var s := Run(START, before);
             && s.granted == [Owner(2, 0)] && s.lease == Some(Lease(Owner(2, 0), s.now + TTL))
             && 1 in s.calls && s.calls[1] == Fenced(Owner(1, 0)) && 2 in s.calls && s.calls[2] == Body(Owner(2, 0), s.now)
    ensures Run(START, ls).granted == [Owner(2, 0), Owner(1, 0)]
  {
    ls := before;
    Extend(ls, Leave(2));
    ls := ls + [Leave(2)];
    Extend(ls, Release(2));
    ls := ls + [Release(2)];
    Extend(ls, SetNx(1));
    ls := ls + [SetNx(1)];
  }
}
