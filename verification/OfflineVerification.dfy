/** Verifying a retained bundle from public material alone (scripts/proof_bundle_governance.py, `verify_public_artifacts`). */
module OfflineVerification {
  import opened Common
  import opened Signing
  import opened AuditLog
  import KL = KeyLifecycle
  import opened ProofBundles
  import opened BundleGuarantees

  /** The governance block that certification stamps into a payload. */
  datatype Stamp = Stamp(artifactId: ArtifactId, contentHash: Hash, keyId: KeyId, trustRoot: Hash)

  /** Accessors of a stamped payload, and how a trust root is named. */
  datatype Public = Public(
    stampOf: Payload -> Stamp,
    unstampedHash: Payload -> Hash,
    fingerprint: PublicKey -> Hash,
    rootName: Hash -> KeyId)

  datatype TrustRoot = TrustRoot(keyId: KeyId, fingerprint: Hash, publicKey: PublicKey)

  /** A key as it is published, with its id inside. */
  datatype KeyRecord = KeyRecord(keyId: KeyId, key: KL.SigningKey)

  datatype Metadata = Metadata(trustRoot: TrustRoot, active: Option<KeyRecord>, keys: map<KeyId, KeyRecord>)

  /** What the service publishes. */
  function Published(w: World, o: Public, s: Store): Metadata {
    var public := w.c.pub(w.root.private);
    var keys := map id | id in s.ring.keys :: KeyRecord(id, s.ring.keys[id]);
    Metadata(TrustRoot(w.root.keyId, o.fingerprint(public), public),
             if s.ring.active.Some? then Get(keys, s.ring.active.value) else None, keys)
  }

  predicate BundleAccepted(w: World, o: Public, m: Metadata, saved: Saved) {
    var e, stamp := saved.envelope, o.stampOf(saved.payload);
    && w.rules.validates(saved.payload, e.scenarioId)
    && e.keyId in m.keys
    && m.keys[e.keyId].keyId == e.keyId
    && var key := m.keys[e.keyId].key;
    && key.revokedAt.None?
    && e.contentHash == w.c.payloadDigest(saved.payload)
    && key.notBefore <= e.createdAt < key.notAfter
    && e.expiresAt <= key.notAfter
    && stamp == Stamp(e.artifactId, o.unstampedHash(saved.payload), e.keyId, m.trustRoot.fingerprint)
    && w.c.verify(key.publicKey, saved.signature, OfBundle(e, saved.payload))
  }

  /** The whole check, but for the scan for secrets at its end. */
  predicate Accepted(w: World, o: Public, m: Metadata, saved: Saved, audit: seq<AuditRecord>) {
    && (m.active.Some? ==> Get(m.keys, m.active.value.keyId) == m.active)
    && o.fingerprint(m.trustRoot.publicKey) == m.trustRoot.fingerprint
    && m.trustRoot.keyId == o.rootName(m.trustRoot.fingerprint)
    && BundleAccepted(w, o, m, saved)
    && ChainValid(w.c, m.trustRoot.publicKey, m.trustRoot.keyId, audit)
  }

  method VerifyPublicArtifacts(w: World, o: Public, m: Metadata, saved: Saved, audit: seq<AuditRecord>) returns (accepted: bool)
    ensures accepted <==> Accepted(w, o, m, saved, audit)
  {
    if m.active.Some? && Get(m.keys, m.active.value.keyId) != m.active {
      return false;
    }
    if o.fingerprint(m.trustRoot.publicKey) != m.trustRoot.fingerprint
       || m.trustRoot.keyId != o.rootName(m.trustRoot.fingerprint) {
      return false;
    }
    if !BundleAccepted(w, o, m, saved) {
      return false;
    }
    accepted := VerifyChain(w.c, m.trustRoot.publicKey, m.trustRoot.keyId, audit);
  }

  /** Stamping writes the block it is named after, and the root is named after its key. */
  ghost predicate Stamping(w: World, o: Public) {
    var fingerprint := o.fingerprint(w.c.pub(w.root.private));
    && w.root.keyId == o.rootName(fingerprint)
    && forall p: Payload, id: ArtifactId, key: KeyId {:trigger w.rules.stamp(p, id, key)} ::
         var result := w.rules.stamp(p, id, key);
         o.stampOf(result) == Stamp(id, o.unstampedHash(result), key, fingerprint)
  }

  lemma CertifiedStamp(w: World, o: Public, s: Store, k: Call)
    requires Sound(w.c) && Good(w, s) && k.request.Certify? && EffectOf(w, s, k).denied.None?
    requires Stamping(w, o)
    ensures var n, r := (k.p.scope, k.request.id), Step(w, s, k);
            && n in r.slots && r.slots[n].Live?
            && var saved := r.slots[n].saved;
            && saved.envelope.createdAt == k.t.issue && w.rules.validates(saved.payload, saved.envelope.scenarioId)
            && o.stampOf(saved.payload) == Stamp(saved.envelope.artifactId, o.unstampedHash(saved.payload), saved.envelope.keyId,
                                                 o.fingerprint(w.c.pub(w.root.private)))
  {
    CertifiedIsStored(w, s, k);
  }

  /**
   A certified bundle, kept by a reader, passes the offline check against the metadata and the
   audit log that the service publishes at any later point, exactly while its key is
   unrevoked, unless the clock ran back behind the start of the key's window while the bundle
   was issued.  Its expiry plays no part: the offline check has no clock.
   */
  lemma {:induction false} CertifiedBundleIsAcceptedOffline(w: World, o: Public, ks: seq<Call>, k: Call, more: seq<Call>)
    requires Sound(w.c) && Stamping(w, o)
    requires k.request.Certify? && EffectOf(w, Run(w, START, ks), k).denied.None?
    ensures var s := Step(w, Run(w, START, ks), k);
            var r, n := Run(w, s, more), (k.p.scope, k.request.id);
            && n in s.slots && s.slots[n].Live?
            && var saved := s.slots[n].saved;
            && saved.envelope.keyId in r.ring.keys
            && (Accepted(w, o, Published(w, o, r), saved, LogOf(r, k.p.scope)) <==>
                r.ring.keys[saved.envelope.keyId].revokedAt.None? && r.ring.keys[saved.envelope.keyId].notBefore <= k.t.issue)
  {
    var s0 := Run(w, START, ks);
    RunIsGood(w, START, ks);
    StepIsGood(w, s0, k);
    CertifiedStamp(w, o, s0, k);
    var s := Step(w, s0, k);
    var saved := s.slots[(k.p.scope, k.request.id)].saved;
    assert Authentic(w, s.ring, k.p.scope, k.request.id, saved);
    KeysSurvive(w, s, more, saved.envelope.keyId);
    LaterLogsVerify(w, ks, k, more);
    assert ChainValid(w.c, w.c.pub(w.root.private), w.root.keyId, LogOf(Run(w, s, more), k.p.scope));
    KeptBundleAccepted(w, o, s, Run(w, s, more), (k.p.scope, k.request.id), saved);
  }

  lemma KeptBundleAccepted(w: World, o: Public, s: Store, r: Store, n: Name, saved: Saved)
    requires Authentic(w, s.ring, n.0, n.1, saved) && KL.Preserved(s.ring, r.ring, saved.envelope.keyId)
    requires w.rules.validates(saved.payload, saved.envelope.scenarioId)
    requires o.stampOf(saved.payload) == Stamp(saved.envelope.artifactId, o.unstampedHash(saved.payload), saved.envelope.keyId,
                                               o.fingerprint(w.c.pub(w.root.private)))
    ensures saved.envelope.keyId in r.ring.keys
    ensures BundleAccepted(w, o, Published(w, o, r), saved) <==>
            r.ring.keys[saved.envelope.keyId].revokedAt.None? && r.ring.keys[saved.envelope.keyId].notBefore <= saved.envelope.createdAt
  {
  }

  lemma {:induction false} LaterLogsVerify(w: World, ks: seq<Call>, k: Call, more: seq<Call>)
    requires Sound(w.c)
    ensures LogsVerify(w, Run(w, Step(w, Run(w, START, ks), k), more))
  {
    if more == [] {
      RunLogsVerify(w, ks);
      StepExtendsLogs(w, Run(w, START, ks), k, 0);
    } else {
      LaterLogsVerify(w, ks, k, more[..|more| - 1]);
      StepExtendsLogs(w, Run(w, Step(w, Run(w, START, ks), k), more[..|more| - 1]), more[|more| - 1], 0);
    }
  }
}
