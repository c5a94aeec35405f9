/**
 What altering a bundle or an audit log leads to (scripts/proof_bundle_governance.py).  The store's
 private keys sign nothing but the bundles it creates and the records it appends; whoever presents
 material made without them can only present signatures that were made that way.
 */
module TamperEvidence {
  import opened Common
  import opened Signing
  import opened AuditLog
  import KL = KeyLifecycle
  import opened ProofBundles
  import opened BundleGuarantees
  import opened OfflineVerification

  /** The request signs the message with this private key. */
  ghost predicate Signs(w: World, s: Store, k: Call, key: PrivateKey, m: Message) {
    match m
    case OfBundle(e, payload) =>
      Get(s.ring.privates, e.keyId) == Some(key) && EffectOf(w, s, k).put == Some(Live(Saved(e, payload, w.c.sign(key, m))))
    case OfAudit(body) =>
      && key == w.root.private
      && exists i: nat :: Appended(w, s, k, i) && LogOf(Step(w, s, k), k.p.scope)[i].body == body
  }

  /** The request appends the record at position `i` of its scope's log. */
  predicate Appended(w: World, s: Store, k: Call, i: nat) {
    |LogOf(s, k.p.scope)| <= i < |LogOf(Step(w, s, k), k.p.scope)|
  }

  ghost predicate WasSigned(w: World, ks: seq<Call>, key: PrivateKey, m: Message) {
    exists i :: 0 <= i < |ks| && Signs(w, Run(w, START, ks[..i]), ks[i], key, m)
  }

  /** A signature is no forgery: if it verifies under the key, the store made it, for this very message. */
  ghost predicate NoForgery(w: World, ks: seq<Call>, key: PrivateKey, signature: Signature, m: Message) {
    w.c.verify(w.c.pub(key), signature, m) ==> signature == w.c.sign(key, m) && WasSigned(w, ks, key, m)
  }

  ghost predicate NoForgedBundle(w: World, ks: seq<Call>, saved: Saved) {
    forall key: PrivateKey :: NoForgery(w, ks, key, saved.signature, OfBundle(saved.envelope, saved.payload))
  }

  ghost predicate NoForgedRecord(w: World, ks: seq<Call>, r: AuditRecord) {
    NoForgery(w, ks, w.root.private, r.signature, OfAudit(r.body))
  }

  /** Some request of the run has stored this very record: envelope, payload and signature. */
  ghost predicate WasStored(w: World, ks: seq<Call>, saved: Saved) {
    exists i :: 0 <= i < |ks| && EffectOf(w, Run(w, START, ks[..i]), ks[i]).put == Some(Live(saved))
  }

  /** What the offline check has made sure of when it accepts, whoever made the material. */
  lemma AcceptanceBinds(w: World, o: Public, m: Metadata, saved: Saved, audit: seq<AuditRecord>)
    requires Accepted(w, o, m, saved, audit)
    ensures var e, stamp := saved.envelope, o.stampOf(saved.payload);
            && e.keyId in m.keys && m.keys[e.keyId].keyId == e.keyId
            && var key := m.keys[e.keyId].key;
            && key.revokedAt.None? && key.notBefore <= e.createdAt < key.notAfter && e.expiresAt <= key.notAfter
            && w.c.verify(key.publicKey, saved.signature, OfBundle(e, saved.payload))
            && e.contentHash == w.c.payloadDigest(saved.payload) && w.rules.validates(saved.payload, e.scenarioId)
            && stamp.artifactId == e.artifactId && stamp.keyId == e.keyId
            && stamp.contentHash == o.unstampedHash(saved.payload) && stamp.trustRoot == m.trustRoot.fingerprint
    ensures o.fingerprint(m.trustRoot.publicKey) == m.trustRoot.fingerprint
            && m.trustRoot.keyId == o.rootName(m.trustRoot.fingerprint)
    ensures m.active.Some? ==> m.active.value.keyId in m.keys && m.keys[m.active.value.keyId] == m.active.value
    ensures forall i :: 0 <= i < |audit| ==> Links(w.c, m.trustRoot.publicKey, m.trustRoot.keyId, audit, i)
  {
    ChainValidIff(w.c, m.trustRoot.publicKey, m.trustRoot.keyId, audit);
  }

  // ----- bundles ----------------------------------------------------------------------------------

  lemma {:induction false} VerifiedWasStored(w: World, ks: seq<Call>, saved: Saved)
    requires Sound(w.c) && NoForgedBundle(w, ks, saved)
    requires var ring, id := Run(w, START, ks).ring, saved.envelope.keyId;
             && id in ring.keys && ring.keys[id].revokedAt.None?
             && w.c.verify(ring.keys[id].publicKey, saved.signature, OfBundle(saved.envelope, saved.payload))
    ensures WasStored(w, ks, saved)
  {
    RunIsGood(w, START, ks);
    var key := Run(w, START, ks).ring.privates[saved.envelope.keyId];
    var m := OfBundle(saved.envelope, saved.payload);
    assert NoForgery(w, ks, key, saved.signature, m);
    var i :| 0 <= i < |ks| && Signs(w, Run(w, START, ks[..i]), ks[i], key, m);
    assert saved == Saved(saved.envelope, saved.payload, w.c.sign(key, m));
  }

  /**
   Nothing but a record that the store itself has signed and stored is accepted against the
   material it publishes: a change to the envelope, the payload or the signature is refused.
   */
  lemma {:induction false} AcceptedBundleWasStored(w: World, o: Public, ks: seq<Call>, saved: Saved, audit: seq<AuditRecord>)
    requires Sound(w.c) && NoForgedBundle(w, ks, saved)
    requires Accepted(w, o, Published(w, o, Run(w, START, ks)), saved, audit)
    ensures WasStored(w, ks, saved)
  {
    VerifiedWasStored(w, ks, saved);
  }

  /** The same inside the service: a record altered on disk is denied, unless it is one the store has stored. */
  lemma {:induction false} AlteredRecordIsDenied(w: World, ks: seq<Call>, altered: Saved, q: Call)
    requires Sound(w.c) && NoForgedBundle(w, ks, altered) && !WasStored(w, ks, altered)
    requires q.request.Read? || q.request.Verify?
    ensures var s := Run(w, START, ks);
            EffectOf(w, s.(slots := s.slots[(q.p.scope, q.request.id) := Live(altered)]), q).denied.Some?
  {
    var s := Run(w, START, ks);
    if ValidSaved(w, s.ring, q.p.scope, q.request.id, altered) {
      VerifiedWasStored(w, ks, altered);
    }
  }

  /** What an allowed read or verification has made sure of, whatever is on disk. */
  lemma ReadingBinds(w: World, s: Store, q: Call)
    requires (q.request.Read? || q.request.Verify?) && EffectOf(w, s, q).denied.None?
    ensures var n := (q.p.scope, q.request.id);
            && w.rules.validArtifactId(n.1) && n in s.slots && s.slots[n].Live?
            && var saved := s.slots[n].saved;
            var e := saved.envelope;
            && q.t.first < e.expiresAt && e.scope == n.0 && e.artifactId == n.1 && e.run == w.rules.runOfScope(n.0)
            && e.governanceSchema && e.sourceSchema && e.algorithm
            && e.contentHash == w.c.payloadDigest(saved.payload) && w.rules.validates(saved.payload, e.scenarioId)
            && e.keyId in s.ring.keys
            && var key := s.ring.keys[e.keyId];
            && key.revokedAt.None? && key.notBefore <= e.createdAt < key.notAfter && e.expiresAt <= key.notAfter
            && w.c.verify(key.publicKey, saved.signature, OfBundle(e, saved.payload))
  {
  }

  lemma {:induction false} RunAppend(w: World, s: Store, a: seq<Call>, b: seq<Call>)
    ensures Run(w, s, a + b) == Run(w, Run(w, s, a), b)
  {
    if b == [] {
      assert a + b == a;
    } else {
      assert (a + b)[..|a + b| - 1] == a + b[..|b| - 1];
      RunAppend(w, s, a, b[..|b| - 1]);
    }
  }

  lemma {:induction false} KeySurvivesFrom(w: World, ks: seq<Call>, i: nat, id: KeyId)
    requires Sound(w.c) && i < |ks|
    ensures KL.Preserved(Run(w, START, ks[..i]).ring, Run(w, START, ks).ring, id)
  {
    var done, more := ks[..i], ks[i..];
    assert ks == done + more;
    RunAppend(w, START, done, more);
    RunIsGood(w, START, done);
    KeysSurvive(w, Run(w, START, done), more, id);
  }

  lemma PutIsAuthentic(w: World, s: Store, k: Call, saved: Saved)
    requires Sound(w.c) && Good(w, s) && EffectOf(w, s, k).put == Some(Live(saved))
    ensures Authentic(w, s.ring, saved.envelope.scope, saved.envelope.artifactId, saved)
    ensures Names(k.request) && k.p.scope == saved.envelope.scope && k.request.id == saved.envelope.artifactId
  {
    PutIsSound(w, s, k);
  }

  /** A stored record is authentic, under the name it was stored under, in every later state. */
  lemma {:induction false} StoredIsAuthentic(w: World, ks: seq<Call>, i: nat, saved: Saved)
    requires Sound(w.c) && i < |ks| && EffectOf(w, Run(w, START, ks[..i]), ks[i]).put == Some(Live(saved))
    ensures Authentic(w, Run(w, START, ks).ring, saved.envelope.scope, saved.envelope.artifactId, saved)
  {
    var s := Run(w, START, ks[..i]);
    RunIsGood(w, START, ks[..i]);
    PutIsAuthentic(w, s, ks[i], saved);
    KeySurvivesFrom(w, ks, i, saved.envelope.keyId);
    AuthenticSurvives(w, s.ring, Run(w, START, ks).ring, saved.envelope.scope, saved.envelope.artifactId, saved);
  }

  /** What a stored record must fulfil to be accepted. */
  ghost predicate Acceptable(w: World, o: Public, ring: KL.Ring, saved: Saved) {
    var e := saved.envelope;
    && e.keyId in ring.keys && ring.keys[e.keyId].revokedAt.None? && ring.keys[e.keyId].notBefore <= e.createdAt
    && w.rules.validates(saved.payload, e.scenarioId)
    && o.stampOf(saved.payload) == Stamp(e.artifactId, o.unstampedHash(saved.payload), e.keyId,
                                         o.fingerprint(w.c.pub(w.root.private)))
  }

  lemma AuthenticIsAccepted(w: World, o: Public, s: Store, saved: Saved)
    requires Authentic(w, s.ring, saved.envelope.scope, saved.envelope.artifactId, saved)
    ensures BundleAccepted(w, o, Published(w, o, s), saved) <==> Acceptable(w, o, s.ring, saved)
  {
  }

  lemma {:induction false} StoredIsAcceptedIff(w: World, o: Public, ks: seq<Call>, saved: Saved)
    requires Sound(w.c) && WasStored(w, ks, saved)
    ensures BundleAccepted(w, o, Published(w, o, Run(w, START, ks)), saved) <==> Acceptable(w, o, Run(w, START, ks).ring, saved)
  {
    var i :| 0 <= i < |ks| && EffectOf(w, Run(w, START, ks[..i]), ks[i]).put == Some(Live(saved));
    StoredIsAuthentic(w, ks, i, saved);
    AuthenticIsAccepted(w, o, Run(w, START, ks), saved);
  }

  lemma PublishedIsConsistent(w: World, o: Public, s: Store, saved: Saved, audit: seq<AuditRecord>)
    requires KL.Sane(w.c, w.rules.validKeyId, s.ring)
    requires w.root.keyId == o.rootName(o.fingerprint(w.c.pub(w.root.private)))
    requires ChainValid(w.c, w.c.pub(w.root.private), w.root.keyId, audit)
    ensures Accepted(w, o, Published(w, o, s), saved, audit) <==> BundleAccepted(w, o, Published(w, o, s), saved)
  {
  }

  /**
   Exactly the stored records are accepted whose key is unrevoked, whose payload validates and
   carries the stamp of its envelope, and which were not created before the start of the key's window.
   */
  lemma {:induction false} AcceptedIff(w: World, o: Public, ks: seq<Call>, saved: Saved, scope: Scope)
    requires Sound(w.c) && NoForgedBundle(w, ks, saved)
    requires w.root.keyId == o.rootName(o.fingerprint(w.c.pub(w.root.private)))
    ensures var r := Run(w, START, ks);
            Accepted(w, o, Published(w, o, r), saved, LogOf(r, scope)) <==>
            WasStored(w, ks, saved) && Acceptable(w, o, r.ring, saved)
  {
    var r := Run(w, START, ks);
    RunIsGood(w, START, ks);
    RunLogsVerify(w, ks);
    assert ChainValid(w.c, w.c.pub(w.root.private), w.root.keyId, LogOf(r, scope));
    PublishedIsConsistent(w, o, r, saved, LogOf(r, scope));
    if WasStored(w, ks, saved) {
      StoredIsAcceptedIff(w, o, ks, saved);
    } else if Accepted(w, o, Published(w, o, r), saved, LogOf(r, scope)) {
      AcceptedBundleWasStored(w, o, ks, saved, LogOf(r, scope));
    }
  }

  // ----- audit logs ------------------------------------------------------------------------------------

  lemma {:induction false} AppendedAreSigned(c: Crypto, root: Root, log: seq<AuditRecord>, es: seq<Entry>, i: nat)
    requires |log| <= i < |AppendAll(c, root, log, es)| == |log| + |es|
    ensures var r := AppendAll(c, root, log, es)[i];
            && r.signature == c.sign(root.private, OfAudit(r.body))
            && r.body.scope == es[i - |log|].scope
  {
    var front := es[..|es| - 1];
    AppendedCount(c, root, log, front);
    if i < |log| + |es| - 1 {
      AppendedAreSigned(c, root, log, front, i);
    }
  }

  lemma {:induction false} AppendedCount(c: Crypto, root: Root, log: seq<AuditRecord>, es: seq<Entry>)
    ensures |AppendAll(c, root, log, es)| == |log| + |es|
  {
    if es != [] {
      AppendedCount(c, root, log, es[..|es| - 1]);
    }
  }

  lemma AppendedRecord(w: World, s: Store, k: Call, i: nat)
    requires Appended(w, s, k, i)
    ensures var r := LogOf(Step(w, s, k), k.p.scope)[i];
            r.signature == w.c.sign(w.root.private, OfAudit(r.body)) && r.body.scope == k.p.scope
  {
    var es := EffectOf(w, s, k).entries;
    LogAfter(w, s, k, es);
    AppendedCount(w.c, w.root, LogOf(s, k.p.scope), es);
    AppendedAreSigned(w.c, w.root, LogOf(s, k.p.scope), es, i);
    RequestIsRecorded(w, s, k);
  }

  lemma SignedIsAppended(w: World, s: Store, k: Call, r: AuditRecord) returns (j: nat)
    requires Signs(w, s, k, w.root.private, OfAudit(r.body)) && r.signature == w.c.sign(w.root.private, OfAudit(r.body))
    ensures Appended(w, s, k, j) && LogOf(Step(w, s, k), k.p.scope)[j] == r && r.body.scope == k.p.scope
  {
    j :| Appended(w, s, k, j) && LogOf(Step(w, s, k), k.p.scope)[j].body == r.body;
    AppendedRecord(w, s, k, j);
  }

  /** What a request has appended stays in the log, at its position. */
  lemma {:induction false} AppendedStays(w: World, ks: seq<Call>, i: nat, j: nat)
    requires Sound(w.c) && i < |ks| && Appended(w, Run(w, START, ks[..i]), ks[i], j)
    ensures var log, scope := LogOf(Run(w, START, ks), ks[i].p.scope), ks[i].p.scope;
            j < |log| && log[j] == LogOf(Step(w, Run(w, START, ks[..i]), ks[i]), scope)[j]
  {
    LogOnlyGrows(w, ks, i, ks[i].p.scope);
    SameBeginning(LogOf(Step(w, Run(w, START, ks[..i]), ks[i]), ks[i].p.scope), LogOf(Run(w, START, ks), ks[i].p.scope), j);
  }

  lemma SameBeginning(a: seq<AuditRecord>, b: seq<AuditRecord>, j: nat)
    requires a <= b && j < |a|
    ensures b[j] == a[j]
  {
  }

  lemma {:induction false} LogOnlyGrows(w: World, ks: seq<Call>, i: nat, scope: Scope)
    requires Sound(w.c) && i < |ks|
    ensures LogOf(Step(w, Run(w, START, ks[..i]), ks[i]), scope) <= LogOf(Run(w, START, ks), scope)
  {
    var done, more := ks[..i] + [ks[i]], ks[i + 1..];
    assert ks == done + more;
    RunSnoc(w, START, ks[..i], ks[i]);
    AuditLogVerifiesAndGrows(w, done, more, scope);
  }

  /** A record that verifies under the root key stands in the log of its scope. */
  lemma {:induction false} VerifiedRecordIsLogged(w: World, ks: seq<Call>, r: AuditRecord)
    requires Sound(w.c) && NoForgedRecord(w, ks, r)
    requires w.c.verify(w.c.pub(w.root.private), r.signature, OfAudit(r.body))
    ensures r in LogOf(Run(w, START, ks), r.body.scope)
  {
    var i :| 0 <= i < |ks| && Signs(w, Run(w, START, ks[..i]), ks[i], w.root.private, OfAudit(r.body));
    var j := SignedIsAppended(w, Run(w, START, ks[..i]), ks[i], r);
    AppendedStays(w, ks, i, j);
  }

  lemma {:induction false} AcceptedRecordsAreLogged(w: World, ks: seq<Call>, audit: seq<AuditRecord>)
    requires Sound(w.c) && ChainValid(w.c, w.c.pub(w.root.private), w.root.keyId, audit)
    requires forall i :: 0 <= i < |audit| ==> NoForgedRecord(w, ks, audit[i])
    ensures forall i :: 0 <= i < |audit| ==> audit[i] in LogOf(Run(w, START, ks), audit[i].body.scope)
  {
    ChainValidIff(w.c, w.c.pub(w.root.private), w.root.keyId, audit);
    forall i | 0 <= i < |audit| ensures audit[i] in LogOf(Run(w, START, ks), audit[i].body.scope) {
      assert Links(w.c, w.c.pub(w.root.private), w.root.keyId, audit, i);
      VerifiedRecordIsLogged(w, ks, audit[i]);
    }
  }

  /**
   An accepted log is the beginning of one of the store's own logs, unless some record of either
   hashes to the 64 zeros.
   */
  lemma {:induction false} AcceptedLogIsAPrefix(w: World, ks: seq<Call>, audit: seq<AuditRecord>)
    requires Sound(w.c) && Injective(w.c) && audit != []
    requires ChainValid(w.c, w.c.pub(w.root.private), w.root.keyId, audit)
    requires forall i :: 0 <= i < |audit| ==> NoForgedRecord(w, ks, audit[i])
    ensures forall i :: 0 <= i < |audit| ==> audit[i] in LogOf(Run(w, START, ks), audit[i].body.scope)
    ensures var log := LogOf(Run(w, START, ks), audit[|audit| - 1].body.scope);
            || audit <= log
            || (exists r :: (r in audit || r in log) && w.c.digest(r) == GENESIS)
  {
    AcceptedRecordsAreLogged(w, ks, audit);
    var last := audit[|audit| - 1];
    RunLogsVerify(w, ks);
    SameEndIsPrefix(w.c, w.c.pub(w.root.private), w.root.keyId, audit, LogOf(Run(w, START, ks), last.body.scope));
  }

  lemma SameEndIsPrefix(c: Crypto, public: PublicKey, keyId: KeyId, audit: seq<AuditRecord>, log: seq<AuditRecord>)
    requires Injective(c) && ChainValid(c, public, keyId, audit) && ChainValid(c, public, keyId, log)
    requires audit != [] && audit[|audit| - 1] in log
    ensures audit <= log || exists r :: (r in audit || r in log) && c.digest(r) == GENESIS
  {
    var n :| 0 <= n < |log| && log[n] == audit[|audit| - 1];
    var prefix := log[..n + 1];
    PrefixIsValid(c, public, keyId, log, n + 1);
    SameEndSameChain(c, public, keyId, audit, prefix);
    if |audit| < |prefix| {
      assert prefix[|prefix| - |audit| - 1] in log;
    } else if |prefix| < |audit| {
      assert audit[|audit| - |prefix| - 1] in audit;
    }
  }
}
