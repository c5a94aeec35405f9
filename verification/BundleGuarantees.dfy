/** What `ProofBundles` guarantees over whole runs: certified bundles verify, records are immutable, ends are final. */
module BundleGuarantees {
  import opened Common
  import opened Signing
  import KL = KeyLifecycle
  import opened ProofBundles

  // ----- what every stored bundle satisfies -------------------------------------------------------

  /** The part of a bundle's validity that creation establishes once and for all. */
  ghost predicate Authentic(w: World, ring: KL.Ring, scope: Scope, id: ArtifactId, saved: Saved) {
    var e := saved.envelope;
    && w.rules.validArtifactId(id)
    && e.keyId in ring.keys
    && e.governanceSchema && e.sourceSchema && e.algorithm
    && e.artifactId == id && e.scope == scope
    && e.contentHash == w.c.payloadDigest(saved.payload)
    && e.createdAt < e.expiresAt <= ring.keys[e.keyId].notAfter
    && w.c.verify(ring.keys[e.keyId].publicKey, saved.signature, OfBundle(e, saved.payload))
  }

  /** The rest: what creation does not look at, and what a revocation takes away. */
  predicate Verifiable(w: World, ring: KL.Ring, scope: Scope, saved: Saved) {
    var e := saved.envelope;
    && w.rules.validates(saved.payload, e.scenarioId)
    && e.run == w.rules.runOfScope(scope)
    && e.keyId in ring.keys
    && ring.keys[e.keyId].revokedAt.None?
    && ring.keys[e.keyId].notBefore <= e.createdAt
  }

  ghost predicate AllAuthentic(w: World, s: Store) {
    forall n :: n in s.slots && s.slots[n].Live? ==> Authentic(w, s.ring, n.0, n.1, s.slots[n].saved)
  }

  ghost predicate Good(w: World, s: Store) {
    KL.Sane(w.c, w.rules.validKeyId, s.ring) && AllAuthentic(w, s)
  }

  lemma CreateIsAuthentic(w: World, s: Store, k: Call, id: ArtifactId, payload: Payload, e: Envelope)
    requires Sound(w.c) && KL.Sane(w.c, w.rules.validKeyId, s.ring)
    requires CreateRefusal(w, s, k, id, payload, e).None?
    ensures e.keyId in s.ring.privates
    ensures Authentic(w, s.ring, k.p.scope, id, Signed(w, s.ring, payload, e))
    ensures e.createdAt == k.t.create && e.keyId in s.ring.keys && s.ring.keys[e.keyId].revokedAt.None?
  {
  }

  lemma {:induction false} AuthenticSurvives(w: World, before: KL.Ring, after: KL.Ring, scope: Scope, id: ArtifactId, saved: Saved)
    requires Authentic(w, before, scope, id, saved) && KL.Preserved(before, after, saved.envelope.keyId)
    ensures Authentic(w, after, scope, id, saved)
  {
  }

  lemma CertifyKeepsRing(w: World, s: Store, k: Call, id: ArtifactId, payload: Payload)
    ensures CertifyEffect(w, s, k, id, payload).ring == s.ring
  {
  }

  /** Only key requests touch the keys. */
  lemma OthersKeepRing(w: World, s: Store, k: Call)
    requires !k.request.ManageKey?
    ensures EffectOf(w, s, k).ring == s.ring
  {
    match k.request
    case Create(_, _, _) =>
    case Certify(id, payload) => CertifyKeepsRing(w, s, k, id, payload);
    case Read(_) =>
    case Verify(_) =>
    case AuditRequest =>
    case FetchTrustRoot =>
    case FetchMetadata =>
  }

  /** They keep the ring sane and forget nothing about a key. */
  lemma RingAfter(w: World, s: Store, k: Call, id: KeyId)
    requires KL.Sane(w.c, w.rules.validKeyId, s.ring)
    ensures KL.Sane(w.c, w.rules.validKeyId, Step(w, s, k).ring)
    ensures KL.Preserved(s.ring, Step(w, s, k).ring, id)
  {
    if k.request.ManageKey? {
      KeyRingAfter(w, s, k, k.request.op, id);
    } else {
      OthersKeepRing(w, s, k);
    }
  }

  lemma KeyRingAfter(w: World, s: Store, k: Call, op: KL.KeyOp, id: KeyId)
    requires KL.Sane(w.c, w.rules.validKeyId, s.ring)
    ensures KL.Sane(w.c, w.rules.validKeyId, KeyEffect(w, s, k, op).ring)
    ensures KL.Preserved(s.ring, KeyEffect(w, s, k, op).ring, id)
  {
    KL.StepIsSane(w.c, w.rules.validKeyId, s.ring, op, k.t.first);
    KL.StepPreserves(w.c, w.rules.validKeyId, s.ring, op, k.t.first, id);
  }

  lemma PreservedTransitively(a: KL.Ring, b: KL.Ring, c: KL.Ring, id: KeyId)
    requires KL.Preserved(a, b, id) && KL.Preserved(b, c, id)
    ensures KL.Preserved(a, c, id)
  {
  }

  /** What a request may put under a name: a new authentic bundle, or the tombstone of the one it expires. */
  lemma PutIsSound(w: World, s: Store, k: Call)
    requires Sound(w.c) && Good(w, s) && EffectOf(w, s, k).put.Some?
    ensures Names(k.request)
    ensures var n, slot := (k.p.scope, k.request.id), EffectOf(w, s, k).put.value;
            if slot.Live? then n !in s.slots && Authentic(w, s.ring, n.0, n.1, slot.saved)
            else n in s.slots && s.slots[n].Live? && slot == Stone(s.slots[n].saved.envelope)
                 && s.slots[n].saved.envelope.expiresAt <= k.t.first
                 && ValidSaved(w, s.ring, n.0, n.1, s.slots[n].saved)
  {
    match k.request
    case Create(id, payload, e) => CreateIsAuthentic(w, s, k, id, payload, e);
    case Certify(id, payload) => CertifyCreates(w, s, k, id, payload);
    case Read(_) =>
    case Verify(_) =>
  }

  /** An allowed certification is an allowed creation of the stamped payload under the issued envelope. */
  lemma CertifyCreates(w: World, s: Store, k: Call, id: ArtifactId, payload: Payload)
    requires Sound(w.c) && KL.Sane(w.c, w.rules.validKeyId, s.ring)
    requires CertifyEffect(w, s, k, id, payload).denied.None?
    ensures SigningKeyAt(s.ring, k.t.first).Some? && SigningKeyAt(s.ring, k.t.first).value in s.ring.keys
    ensures var key := SigningKeyAt(s.ring, k.t.first).value;
            var result := w.rules.stamp(payload, id, key);
            var e := Issued(w, k.p, id, payload, result, key, s.ring.keys[key], k.t.issue);
            && CreateRefusal(w, s, k, id, result, e).None?
            && CertifyEffect(w, s, k, id, payload) == CreateEffect(w, s, k, id, result, e)
            && e.keyId in s.ring.privates
            && Authentic(w, s.ring, k.p.scope, id, Signed(w, s.ring, result, e))
            && (Verifiable(w, s.ring, k.p.scope, Signed(w, s.ring, result, e)) <==> s.ring.keys[key].notBefore <= k.t.issue)
  {
    var key := SigningKeyAt(s.ring, k.t.first).value;
    var result := w.rules.stamp(payload, id, key);
    var e := Issued(w, k.p, id, payload, result, key, s.ring.keys[key], k.t.issue);
    CreateIsAuthentic(w, s, k, id, result, e);
  }

  lemma StepIsGood(w: World, s: Store, k: Call)
    requires Sound(w.c) && Good(w, s)
    ensures Good(w, Step(w, s, k))
  {
    RingAfter(w, s, k, 0);
    var r := Step(w, s, k);
    if EffectOf(w, s, k).put.Some? {
      PutIsSound(w, s, k);
      OthersKeepRing(w, s, k);
    }
    forall n | n in r.slots && r.slots[n].Live? ensures Authentic(w, r.ring, n.0, n.1, r.slots[n].saved) {
      if n in s.slots && r.slots[n] == s.slots[n] {
        RingAfter(w, s, k, s.slots[n].saved.envelope.keyId);
        AuthenticSurvives(w, s.ring, r.ring, n.0, n.1, s.slots[n].saved);
      }
    }
  }

  lemma {:induction false} RunIsGood(w: World, s: Store, ks: seq<Call>)
    requires Sound(w.c) && Good(w, s)
    ensures Good(w, Run(w, s, ks))
  {
    if ks != [] {
      RunIsGood(w, s, ks[..|ks| - 1]);
      StepIsGood(w, Run(w, s, ks[..|ks| - 1]), ks[|ks| - 1]);
    }
  }

  // ----- records are immutable ------------------------------------------------------------------------

  /** From now on the name holds this very record, or its tombstone. */
  ghost predicate Holds(s: Store, n: Name, saved: Saved) {
    n in s.slots && (s.slots[n] == Live(saved) || s.slots[n] == Stone(saved.envelope))
  }

  /** The request reads or verifies the record, finds it verifiable, and its clock says that the record has expired. */
  predicate PutsToRest(w: World, s: Store, k: Call, n: Name, saved: Saved) {
    && (k.request.Read? || k.request.Verify?) && (k.p.scope, k.request.id) == n
    && Verifiable(w, s.ring, n.0, saved) && saved.envelope.expiresAt <= k.t.first
  }

  lemma StepHolds(w: World, s: Store, k: Call, n: Name, saved: Saved)
    requires Sound(w.c) && Good(w, s) && Holds(s, n, saved)
    ensures Holds(Step(w, s, k), n, saved)
    ensures Step(w, s, k).slots[n].Live? <==> s.slots[n].Live? && !PutsToRest(w, s, k, n, saved)
  {
    if s.slots[n].Live? {
      assert Authentic(w, s.ring, n.0, n.1, saved);
      assert ValidSaved(w, s.ring, n.0, n.1, saved) <==> Verifiable(w, s.ring, n.0, saved);
    }
    if EffectOf(w, s, k).put.Some? {
      PutIsSound(w, s, k);
    }
  }

  /** No request of the run puts the record to rest. */
  ghost predicate NeverPutToRest(w: World, s: Store, ks: seq<Call>, n: Name, saved: Saved) {
    forall i :: 0 <= i < |ks| ==> !PutsToRest(w, Run(w, s, ks[..i]), ks[i], n, saved)
  }

  lemma NeverPutToRestSnoc(w: World, s: Store, front: seq<Call>, k: Call, n: Name, saved: Saved)
    ensures NeverPutToRest(w, s, front + [k], n, saved) <==>
            NeverPutToRest(w, s, front, n, saved) && !PutsToRest(w, Run(w, s, front), k, n, saved)
  {
    var ks := front + [k];
    assert ks[..|front|] == front && ks[|front|] == k;
    assert forall i :: 0 <= i < |front| ==> ks[..i] == front[..i] && ks[i] == front[i];
  }

  /**
   A stored record never changes: for every clock it stays, byte for byte, exactly as long as no
   reader whose clock is past its expiry has found it verifiable; then its tombstone replaces it.
   */
  lemma {:induction false} RecordIsImmutable(w: World, s: Store, ks: seq<Call>, n: Name, saved: Saved)
    requires Sound(w.c) && Good(w, s) && n in s.slots && s.slots[n] == Live(saved)
    ensures Good(w, Run(w, s, ks)) && Holds(Run(w, s, ks), n, saved)
    ensures Run(w, s, ks).slots[n] == Live(saved) <==> NeverPutToRest(w, s, ks, n, saved)
  {
    if ks != [] {
      var front, k := ks[..|ks| - 1], ks[|ks| - 1];
      assert ks == front + [k];
      RecordIsImmutable(w, s, front, n, saved);
      StepIsGood(w, Run(w, s, front), k);
      StepHolds(w, Run(w, s, front), k, n, saved);
      NeverPutToRestSnoc(w, s, front, k, n, saved);
    }
  }

  lemma {:induction false} KeysSurvive(w: World, s: Store, ks: seq<Call>, id: KeyId)
    requires Sound(w.c) && Good(w, s)
    ensures Good(w, Run(w, s, ks)) && KL.Preserved(s.ring, Run(w, s, ks).ring, id)
  {
    if ks != [] {
      var before := Run(w, s, ks[..|ks| - 1]);
      KeysSurvive(w, s, ks[..|ks| - 1], id);
      StepIsGood(w, before, ks[|ks| - 1]);
      RingAfter(w, before, ks[|ks| - 1], id);
      PreservedTransitively(s.ring, before.ring, Run(w, s, ks).ring, id);
    }
  }

  // ----- when a bundle verifies -------------------------------------------------------------------------

  /** A stored bundle verifies exactly when it is verifiable and its time has not come. */
  lemma VerifiesIff(w: World, s: Store, q: Call)
    requires Good(w, s) && (q.request.Verify? || q.request.Read?)
    requires var n := (q.p.scope, q.request.id); n in s.slots && s.slots[n].Live?
    ensures var saved := s.slots[(q.p.scope, q.request.id)].saved;
            EffectOf(w, s, q).denied.None? <==>
            Verifiable(w, s.ring, q.p.scope, saved) && q.t.first < saved.envelope.expiresAt
  {
    var n := (q.p.scope, q.request.id);
    var saved := s.slots[n].saved;
    assert Authentic(w, s.ring, n.0, n.1, saved);
    assert ValidSaved(w, s.ring, n.0, n.1, saved) <==> Verifiable(w, s.ring, n.0, saved);
  }

  /** The stamped payload and the envelope that an allowed certification creates stand under its name. */
  lemma CertifiedIsStored(w: World, s: Store, k: Call)
    requires Sound(w.c) && Good(w, s) && k.request.Certify? && EffectOf(w, s, k).denied.None?
    ensures SigningKeyAt(s.ring, k.t.first).Some? && SigningKeyAt(s.ring, k.t.first).value in s.ring.keys
    ensures var n, r := (k.p.scope, k.request.id), Step(w, s, k);
            var key := SigningKeyAt(s.ring, k.t.first).value;
            && n in r.slots && r.slots[n].Live? && r.ring == s.ring
            && var saved := r.slots[n].saved;
            && saved.payload == w.rules.stamp(k.request.payload, k.request.id, key)
            && saved.envelope == Issued(w, k.p, k.request.id, k.request.payload, saved.payload, key, s.ring.keys[key], k.t.issue)
            && (Verifiable(w, s.ring, k.p.scope, saved) <==> s.ring.keys[key].notBefore <= k.t.issue)
  {
    CertifyCreates(w, s, k, k.request.id, k.request.payload);
  }

  /** What an allowed certification leaves under its name. */
  lemma CertifiedIsVerifiable(w: World, s: Store, k: Call)
    requires Sound(w.c) && Good(w, s) && k.request.Certify? && EffectOf(w, s, k).denied.None?
    ensures var n, r := (k.p.scope, k.request.id), Step(w, s, k);
            && n in r.slots && r.slots[n].Live?
            && var saved := r.slots[n].saved;
            && saved.envelope.keyId in r.ring.keys && r.ring.keys[saved.envelope.keyId].revokedAt.None?
            && (Verifiable(w, r.ring, k.p.scope, saved) <==> r.ring.keys[saved.envelope.keyId].notBefore <= k.t.issue)
            && (k.t.first <= k.t.issue ==> Verifiable(w, r.ring, k.p.scope, saved))
  {
    CertifiedIsStored(w, s, k);
  }

  /** A record that was signed with an unrevoked key stays as verifiable as it was until that key is revoked. */
  lemma VerifiableLater(w: World, before: KL.Ring, after: KL.Ring, scope: Scope, saved: Saved)
    requires KL.Preserved(before, after, saved.envelope.keyId)
    requires saved.envelope.keyId in before.keys && before.keys[saved.envelope.keyId].revokedAt.None?
    ensures saved.envelope.keyId in after.keys
    ensures Verifiable(w, after, scope, saved) <==>
            Verifiable(w, before, scope, saved) && after.keys[saved.envelope.keyId].revokedAt.None?
  {
  }

  /** When a stored record signed with an unrevoked key verifies after any further requests. */
  lemma {:induction false} VerifiesLaterIff(w: World, s: Store, more: seq<Call>, n: Name, saved: Saved, q: Call)
    requires Sound(w.c) && Good(w, s) && n in s.slots && s.slots[n] == Live(saved)
    requires saved.envelope.keyId in s.ring.keys && s.ring.keys[saved.envelope.keyId].revokedAt.None?
    requires q.request == Verify(n.1) && q.p.scope == n.0
    ensures saved.envelope.keyId in Run(w, s, more).ring.keys
    ensures EffectOf(w, Run(w, s, more), q).denied.None? <==>
            && q.t.first < saved.envelope.expiresAt && Run(w, s, more).ring.keys[saved.envelope.keyId].revokedAt.None?
            && NeverPutToRest(w, s, more, n, saved) && Verifiable(w, s.ring, n.0, saved)
  {
    RecordIsImmutable(w, s, more, n, saved);
    KeysSurvive(w, s, more, saved.envelope.keyId);
    var r := Run(w, s, more);
    VerifiableLater(w, s.ring, r.ring, n.0, saved);
    if r.slots[n].Live? {
      VerifiesIff(w, r, q);
    }
  }

  /**
   For every clock, a bundle issued by `certify` verifies for its scope after any other requests,
   exactly when the verifier's clock is before its expiry, its key has not been revoked, nobody
   whose clock was past the expiry has put it to rest in between, and the clock did not run back
   behind the start of the key's window while it was issued.
   */
  lemma {:induction false} CertifiedBundleVerifiesIff(w: World, ks: seq<Call>, k: Call, more: seq<Call>, q: Call)
    requires Sound(w.c)
    requires k.request.Certify? && EffectOf(w, Run(w, START, ks), k).denied.None?
    requires q.request == Verify(k.request.id) && q.p.scope == k.p.scope
    ensures var s := Step(w, Run(w, START, ks), k);
            var r, n := Run(w, s, more), (k.p.scope, k.request.id);
            && n in s.slots && s.slots[n].Live?
            && var saved := s.slots[n].saved;
            var e := saved.envelope;
            && e.keyId in s.ring.keys && e.keyId in r.ring.keys
            && (EffectOf(w, r, q).denied.None? <==>
                && q.t.first < e.expiresAt && r.ring.keys[e.keyId].revokedAt.None?
                && NeverPutToRest(w, s, more, n, saved) && s.ring.keys[e.keyId].notBefore <= k.t.issue)
  {
    RunIsGood(w, START, ks);
    StepIsGood(w, Run(w, START, ks), k);
    CertifiedIsVerifiable(w, Run(w, START, ks), k);
    var s, n := Step(w, Run(w, START, ks), k), (k.p.scope, k.request.id);
    var saved := s.slots[n].saved;
    VerifiesLaterIff(w, s, more, n, saved, q);
  }

  /**
   So with a clock that does not run backwards while the bundle is issued, nor from any later
   request to the one that verifies, the bundle verifies exactly while its expiry has not passed
   and its key has not been revoked.
   */
  lemma {:induction false} CertifiedBundleVerifies(w: World, ks: seq<Call>, k: Call, more: seq<Call>, q: Call)
    requires Sound(w.c)
    requires k.request.Certify? && EffectOf(w, Run(w, START, ks), k).denied.None?
    requires q.request == Verify(k.request.id) && q.p.scope == k.p.scope
    requires k.t.first <= k.t.issue && forall i :: 0 <= i < |more| ==> more[i].t.first <= q.t.first
    ensures var s := Step(w, Run(w, START, ks), k);
            var r, n := Run(w, s, more), (k.p.scope, k.request.id);
            && n in s.slots && s.slots[n].Live?
            && var e := s.slots[n].saved.envelope;
            && e.keyId in r.ring.keys
            && (EffectOf(w, r, q).denied.None? <==> q.t.first < e.expiresAt && r.ring.keys[e.keyId].revokedAt.None?)
  {
    CertifiedBundleVerifiesIff(w, ks, k, more, q);
    RunIsGood(w, START, ks);
    CertifiedIsVerifiable(w, Run(w, START, ks), k);
  }

  /** A clock set back between two readers: the first puts the bundle to rest, the second is denied before the expiry. */
  lemma {:induction false} ClockSetBackDeniesBundle(w: World, ks: seq<Call>, k: Call, late: Call, q: Call)
    requires Sound(w.c) && k.request.Certify? && EffectOf(w, Run(w, START, ks), k).denied.None? && k.t.first <= k.t.issue
    requires late.request == Verify(k.request.id) && late.p.scope == k.p.scope
    requires q.request == Verify(k.request.id) && q.p.scope == k.p.scope
    requires var slot := Get(Step(w, Run(w, START, ks), k).slots, (k.p.scope, k.request.id));
             slot.Some? && slot.value.Live? && q.t.first < slot.value.saved.envelope.expiresAt <= late.t.first
    ensures EffectOf(w, Run(w, Step(w, Run(w, START, ks), k), [late]), q).denied.Some?
  {
    var s, n := Step(w, Run(w, START, ks), k), (k.p.scope, k.request.id);
    RunIsGood(w, START, ks);
    CertifiedIsVerifiable(w, Run(w, START, ks), k);
    CertifiedBundleVerifiesIff(w, ks, k, [late], q);
    assert [late][..0] == [] && PutsToRest(w, Run(w, s, [late][..0]), [late][0], n, s.slots[n].saved);
  }

  /** What `create` alone does not ensure: the exact condition for a created bundle to verify right away. */
  lemma {:induction false} CreatedBundleVerifiesIff(w: World, ks: seq<Call>, k: Call, q: Call)
    requires Sound(w.c)
    requires k.request.Create? && EffectOf(w, Run(w, START, ks), k).denied.None?
    requires q.request == Verify(k.request.id) && q.p.scope == k.p.scope
    ensures var s := Run(w, START, ks);
            var e := k.request.envelope;
            && e.keyId in s.ring.keys
            && (EffectOf(w, Step(w, s, k), q).denied.None? <==>
                && w.rules.validates(k.request.payload, e.scenarioId)
                && e.run == w.rules.runOfScope(k.p.scope)
                && s.ring.keys[e.keyId].notBefore <= k.t.create
                && q.t.first < e.expiresAt)
  {
    var s := Run(w, START, ks);
    RunIsGood(w, START, ks);
    StepIsGood(w, s, k);
    CreatedIsStored(w, s, k);
    VerifiesIff(w, Step(w, s, k), q);
  }

  lemma CreatedIsStored(w: World, s: Store, k: Call)
    requires Sound(w.c) && Good(w, s) && k.request.Create? && EffectOf(w, s, k).denied.None?
    ensures var n, r, e := (k.p.scope, k.request.id), Step(w, s, k), k.request.envelope;
            && n in r.slots && r.slots[n].Live?
            && r.slots[n].saved.envelope == e && r.slots[n].saved.payload == k.request.payload
            && r.ring == s.ring && e.createdAt == k.t.create
            && e.keyId in s.ring.keys && s.ring.keys[e.keyId].revokedAt.None?
  {
    CreateIsAuthentic(w, s, k, k.request.id, k.request.payload, k.request.envelope);
  }

  // ----- ends are final -----------------------------------------------------------------------------------

  lemma {:induction false} TombstoneStays(w: World, s: Store, ks: seq<Call>, n: Name)
    requires Sound(w.c) && Good(w, s) && n in s.slots && s.slots[n].Tombstone?
    ensures Good(w, Run(w, s, ks)) && Get(Run(w, s, ks).slots, n) == Some(s.slots[n])
  {
    if ks != [] {
      var before, k := Run(w, s, ks[..|ks| - 1]), ks[|ks| - 1];
      TombstoneStays(w, s, ks[..|ks| - 1], n);
      StepIsGood(w, before, k);
      if EffectOf(w, before, k).put.Some? {
        PutIsSound(w, before, k);
      }
    }
  }

  /** Once tombstoned, a name is never read, verified or created again. */
  lemma TombstoneIsFinal(w: World, ks: seq<Call>, more: seq<Call>, q: Call)
    requires Sound(w.c) && Names(q.request)
    requires var s := Run(w, START, ks); var n := (q.p.scope, q.request.id); n in s.slots && s.slots[n].Tombstone?
    ensures EffectOf(w, Run(w, Run(w, START, ks), more), q).denied.Some?
    ensures EffectOf(w, Run(w, Run(w, START, ks), more), q).put.None?
  {
    RunIsGood(w, START, ks);
    var n := (q.p.scope, q.request.id);
    TombstoneStays(w, Run(w, START, ks), more, n);
    DeadNameIsRefused(w, Run(w, Run(w, START, ks), more), q);
  }

  lemma DeadNameIsRefused(w: World, s: Store, q: Call)
    requires Names(q.request)
    requires var n := (q.p.scope, q.request.id); n in s.slots && s.slots[n].Tombstone?
    ensures EffectOf(w, s, q).denied.Some? && EffectOf(w, s, q).put.None?
  {
    match q.request
    case Create(_, _, _) =>
    case Certify(_, _) =>
    case Read(_) =>
    case Verify(_) =>
  }

  lemma RevokedIsDenied(w: World, s: Store, q: Call, id: KeyId)
    requires (q.request.Read? || q.request.Verify?) && id in s.ring.keys && s.ring.keys[id].revokedAt.Some?
    requires var n := (q.p.scope, q.request.id); n in s.slots && s.slots[n].Live? && s.slots[n].saved.envelope.keyId == id
    ensures EffectOf(w, s, q).denied.Some? && EffectOf(w, s, q).put.None?
  {
  }

  lemma {:induction false} RevokedStaysAsIs(w: World, s: Store, ks: seq<Call>, n: Name)
    requires Sound(w.c) && Good(w, s) && n in s.slots && s.slots[n].Live?
    requires var id := s.slots[n].saved.envelope.keyId; id in s.ring.keys && s.ring.keys[id].revokedAt.Some?
    ensures var r := Run(w, s, ks);
            && Good(w, r)
            && Get(r.slots, n) == Some(s.slots[n])
            && var id := s.slots[n].saved.envelope.keyId; id in r.ring.keys && r.ring.keys[id].revokedAt.Some?
  {
    if ks != [] {
      var before, k := Run(w, s, ks[..|ks| - 1]), ks[|ks| - 1];
      RevokedStaysAsIs(w, s, ks[..|ks| - 1], n);
      StepIsGood(w, before, k);
      RingAfter(w, before, k, s.slots[n].saved.envelope.keyId);
      if EffectOf(w, before, k).put.Some? {
        PutIsSound(w, before, k);
      }
    }
  }

  /**
   Once its key is revoked, a bundle is denied for ever; and since only a valid bundle is
   expired, its record is then kept for ever too, past its expiry.
   */
  lemma RevocationIsFinal(w: World, ks: seq<Call>, more: seq<Call>, q: Call)
    requires Sound(w.c) && (q.request.Read? || q.request.Verify?)
    requires var s := Run(w, START, ks);
             var n := (q.p.scope, q.request.id);
             && n in s.slots && s.slots[n].Live?
             && var id := s.slots[n].saved.envelope.keyId; id in s.ring.keys && s.ring.keys[id].revokedAt.Some?
    ensures var s := Run(w, START, ks);
            var r, n := Run(w, s, more), (q.p.scope, q.request.id);
            && EffectOf(w, r, q).denied.Some?
            && Get(r.slots, n) == Some(s.slots[n])
  {
    RunIsGood(w, START, ks);
    var n := (q.p.scope, q.request.id);
    var s := Run(w, START, ks);
    RevokedStaysAsIs(w, s, more, n);
    RevokedIsDenied(w, Run(w, s, more), q, s.slots[n].saved.envelope.keyId);
  }
}
