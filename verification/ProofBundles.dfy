/**
 The bundle store of the governance service (scripts/proof_bundle_governance.py): creating,
 certifying, reading and verifying signed proof bundles, their expiry into tombstones, and the
 audit record every request leaves.  A request holds the store's lock, so it is one step; it
 may read the clock several times on the way, and nothing is assumed about the readings.
 */
module ProofBundles {
  import opened Common
  import opened Signing
  import opened AuditLog
  import opened KeyLifecycle

  datatype Role = KeyAdmin | BundleWriter | OtherRole

  datatype Principal = Principal(subject: nat, role: Role, scope: Scope)

  /** The checks and accessors on payloads and names that this model does not look into. */
  datatype Rules = Rules(
    validKeyId: KeyId -> bool,
    validArtifactId: ArtifactId -> bool,
    redacted: Payload -> bool,
    redactedEnvelope: Envelope -> bool,
    isResult: Payload -> bool,
    hasScenario: Payload -> bool,
    scenarioOf: Payload -> nat,
    runOf: Payload -> nat,
    runOfScope: Scope -> nat,
    validates: (Payload, nat) -> bool,
    stamp: (Payload, ArtifactId, KeyId) -> Payload)

  datatype Saved = Saved(envelope: Envelope, payload: Payload, signature: Signature)

  datatype Slot = Live(saved: Saved) | Tombstone(contentHash: Hash, keyId: KeyId, expiresAt: int)

  type Name = (Scope, ArtifactId)

  datatype Store = Store(ring: Ring, slots: map<Name, Slot>, logs: map<Scope, seq<AuditRecord>>)

  const START: Store := Store(KeyLifecycle.EMPTY, map[], map[])

  datatype Request =
    | ManageKey(op: KeyOp)
    | Create(id: ArtifactId, payload: Payload, envelope: Envelope)
    | Certify(id: ArtifactId, payload: Payload)
    | Read(id: ArtifactId)
    | Verify(id: ArtifactId)
    | AuditRequest
    | FetchTrustRoot
    | FetchMetadata

  /** The clock readings of one request, in the order in which the code takes them. */
  datatype Readings = Readings(first: int, issue: int, create: int, key: int, audit: int)

  datatype Call = Call(p: Principal, request: Request, t: Readings, uuid: nat, uuid2: nat)

  datatype Effect = Effect(ring: Ring, put: Option<Slot>, entries: seq<Entry>, denied: Option<Reason>)

  /** The fixed surroundings of a store. */
  datatype World = World(c: Crypto, root: Root, rules: Rules)

  const DAY := 86400

  function Record(k: Call, action: Action, id: Option<ArtifactId>, hash: Option<Hash>, denied: Option<Reason>): Entry {
    Entry(k.uuid, k.t.audit, k.p.subject, action, id, hash, k.p.scope, denied)
  }

  function Deny(s: Store, k: Call, action: Action, reason: Reason): Effect {
    Effect(s.ring, None, [Record(k, action, None, None, Some(reason))], Some(reason))
  }

  // ----- creating ------------------------------------------------------------------------------

  /** The active key, if it can sign at this time. */
  function SigningKeyAt(ring: Ring, now: int): Option<KeyId> {
    if ring.active.Some? && ring.active.value in ring.keys && Usable(ring.keys[ring.active.value], now)
    then ring.active else None
  }

  /** What an envelope must say before the keys and the store are looked at. */
  function EnvelopeRefusal(w: World, p: Principal, id: ArtifactId, payload: Payload, e: Envelope, now: int): Option<Reason> {
    if !w.rules.redacted(payload) || !w.rules.redactedEnvelope(e) then Some(RedactionInvalid)
    else if !w.rules.isResult(payload) then Some(NotAResult)
    else if !e.governanceSchema || e.artifactId != id then Some(IdentityInvalid)
    else if e.contentHash != w.c.payloadDigest(payload) || !e.sourceSchema then Some(ContentHashInvalid)
    else if e.scope != p.scope || e.createdAt != now then Some(TimeInvalid)
    else if e.expiresAt <= now then Some(AlreadyExpired)
    else None
  }

  function KeyRefusal(ring: Ring, e: Envelope, now: int): Option<Reason> {
    var key := SigningKeyAt(ring, now);
    if key.None? then Some(KeyUnavailable)
    else if !e.algorithm || e.keyId != key.value then Some(KeyNotActive)
    else if e.expiresAt > ring.keys[key.value].notAfter then Some(ExceedsKey)
    else None
  }

  /** A name that is taken may only be asked for again with the very same record. */
  function SlotRefusal(w: World, s: Store, scope: Scope, id: ArtifactId, payload: Payload, e: Envelope): Option<Reason> {
    if !w.rules.validArtifactId(id) then Some(ArtifactInvalid)
    else if (scope, id) !in s.slots then None
    else if s.slots[(scope, id)].Tombstone? then Some(RecordUnreadable)
    else
      var saved := s.slots[(scope, id)].saved;
      if saved.envelope != e || saved.payload != payload then Some(DifferentBytes) else None
  }

  function CreateRefusal(w: World, s: Store, k: Call, id: ArtifactId, payload: Payload, e: Envelope): Option<Reason> {
    if !k.p.role.BundleWriter? then Some(RoleNotAuthorized)
    else
      var first := EnvelopeRefusal(w, k.p, id, payload, e, k.t.create);
      if first.Some? then first
      else
        var second := KeyRefusal(s.ring, e, k.t.key);
        if second.Some? then second else SlotRefusal(w, s, k.p.scope, id, payload, e)
  }

  function Signed(w: World, ring: Ring, payload: Payload, e: Envelope): Saved
    requires e.keyId in ring.privates
  {
    Saved(e, payload, w.c.sign(ring.privates[e.keyId], OfBundle(e, payload)))
  }

  function CreateEffect(w: World, s: Store, k: Call, id: ArtifactId, payload: Payload, e: Envelope): Effect {
    var refusal := CreateRefusal(w, s, k, id, payload, e);
    if refusal.Some? then Deny(s, k, CreateBundle, refusal.value)
    else
      var entry := Record(k, CreateBundle, Some(id), Some(e.contentHash), None);
      if (k.p.scope, id) in s.slots || e.keyId !in s.ring.privates then Effect(s.ring, None, [entry], None)
      else Effect(s.ring, Some(Live(Signed(w, s.ring, payload, e))), [entry], None)
  }

  /** The envelope that `certify` fills in by itself. */
  function Issued(w: World, p: Principal, id: ArtifactId, payload: Payload, result: Payload, keyId: KeyId, key: SigningKey, now: int): Envelope {
    Envelope(true, true, true, id, w.rules.scenarioOf(payload), w.rules.runOf(payload), w.c.payloadDigest(result), now,
             if now + DAY < key.notAfter then now + DAY else key.notAfter, p.scope, keyId)
  }

  function CertifyEffect(w: World, s: Store, k: Call, id: ArtifactId, payload: Payload): Effect {
    if !k.p.role.BundleWriter? then Deny(s, k, CreateBundle, RoleNotAuthorized)
    else if !w.rules.redacted(payload) then Deny(s, k, CreateBundle, PayloadInvalid)
    else if !w.rules.isResult(payload) || w.rules.runOf(payload) != w.rules.runOfScope(k.p.scope)
    then Deny(s, k, CreateBundle, ScopeInvalid)
    else if !w.rules.hasScenario(payload) then Deny(s, k, CreateBundle, PayloadInvalid)
    else
      var key := SigningKeyAt(s.ring, k.t.first);
      if key.None? then Deny(s, k, CreateBundle, KeyUnavailable)
      else
        var result := w.rules.stamp(payload, id, key.value);
        if !w.rules.validates(result, w.rules.scenarioOf(payload)) then Deny(s, k, CreateBundle, PayloadInvalid)
        else CreateEffect(w, s, k, id, result, Issued(w, k.p, id, payload, result, key.value, s.ring.keys[key.value], k.t.issue))
  }

  // ----- reading and verifying -----------------------------------------------------------------

  predicate ValidSaved(w: World, ring: Ring, scope: Scope, id: ArtifactId, saved: Saved) {
    var e := saved.envelope;
    && w.rules.validates(saved.payload, e.scenarioId)
    && e.keyId in ring.keys
    && e.governanceSchema && e.sourceSchema && e.algorithm
    && e.artifactId == id && e.scope == scope && e.run == w.rules.runOfScope(scope)
    && e.contentHash == w.c.payloadDigest(saved.payload)
    && ring.keys[e.keyId].revokedAt.None?
    && ring.keys[e.keyId].notBefore <= e.createdAt < ring.keys[e.keyId].notAfter
    && e.expiresAt <= ring.keys[e.keyId].notAfter
    && w.c.verify(ring.keys[e.keyId].publicKey, saved.signature, OfBundle(e, saved.payload))
  }

  /** The common part of reading and verifying. */
  function LoadRefusal(w: World, s: Store, scope: Scope, id: ArtifactId, now: int): Option<Reason> {
    if !w.rules.validArtifactId(id) then Some(ArtifactInvalid)
    else if (scope, id) !in s.slots then Some(NotFound)
    else if s.slots[(scope, id)].Tombstone? then Some(Expired)
    else
      var saved := s.slots[(scope, id)].saved;
      if !ValidSaved(w, s.ring, scope, id, saved) then Some(VerificationInvalid)
      else if saved.envelope.expiresAt <= now then Some(Expired)
      else None
  }

  /** A valid bundle whose time has passed is replaced by its tombstone. */
  predicate Expires(w: World, s: Store, scope: Scope, id: ArtifactId, now: int) {
    && w.rules.validArtifactId(id) && (scope, id) in s.slots && s.slots[(scope, id)].Live?
    && ValidSaved(w, s.ring, scope, id, s.slots[(scope, id)].saved)
    && s.slots[(scope, id)].saved.envelope.expiresAt <= now
  }

  function Stone(e: Envelope): Slot {
    Tombstone(e.contentHash, e.keyId, e.expiresAt)
  }

  function LoadEffect(w: World, s: Store, k: Call, id: ArtifactId, action: Action): Effect {
    var refusal := LoadRefusal(w, s, k.p.scope, id, k.t.first);
    if Expires(w, s, k.p.scope, id, k.t.first) then
      var e := s.slots[(k.p.scope, id)].saved.envelope;
      Effect(s.ring, Some(Stone(e)),
             [Record(k, TombstoneBundle, Some(id), Some(e.contentHash), None),
              Record(k, action, None, None, Some(Expired)).(id := k.uuid2)], Some(Expired))
    else if refusal.Some? then Deny(s, k, action, refusal.value)
    else
      Effect(s.ring, None, [Record(k, action, Some(id), Some(s.slots[(k.p.scope, id)].saved.envelope.contentHash), None)], None)
  }

  // ----- every request ----------------------------------------------------------------------------

  function KeyEffect(w: World, s: Store, k: Call, op: KeyOp): Effect {
    var refusal := Refusal(s.ring, w.rules.validKeyId, op, k.t.first);
    if !k.p.role.KeyAdmin? then Deny(s, k, KeyAction(op), RoleNotAuthorized)
    else if refusal.Some? then Deny(s, k, KeyAction(op), refusal.value)
    else Effect(KeyLifecycle.Step(w.c, w.rules.validKeyId, s.ring, op, k.t.first), None,
                [Record(k, KeyAction(op), None, None, None)], None)
  }

  function LogOf(s: Store, scope: Scope): seq<AuditRecord> {
    if scope in s.logs then s.logs[scope] else []
  }

  function ReadEffect(s: Store, k: Call, action: Action): Effect {
    if !k.p.role.BundleWriter? then Deny(s, k, action, RoleNotAuthorized)
    else Effect(s.ring, None, [Record(k, action, None, None, None)], None)
  }

  function AuditEffect(w: World, s: Store, k: Call): Effect {
    if k.p.role.BundleWriter? && !ChainValid(w.c, w.c.pub(w.root.private), w.root.keyId, LogOf(s, k.p.scope))
    then Deny(s, k, ReadAudit, ContinuityInvalid)
    else ReadEffect(s, k, ReadAudit)
  }

  function EffectOf(w: World, s: Store, k: Call): Effect {
    match k.request
    case ManageKey(op) => KeyEffect(w, s, k, op)
    case Create(id, payload, e) => CreateEffect(w, s, k, id, payload, e)
    case Certify(id, payload) => CertifyEffect(w, s, k, id, payload)
    case Read(id) => LoadEffect(w, s, k, id, ReadBundle)
    case Verify(id) => LoadEffect(w, s, k, id, VerifyBundle)
    case AuditRequest => AuditEffect(w, s, k)
    case FetchTrustRoot => ReadEffect(s, k, ReadTrustRoot)
    case FetchMetadata => ReadEffect(s, k, ReadMetadata)
  }

  predicate Names(r: Request) {
    r.Create? || r.Certify? || r.Read? || r.Verify?
  }

  function SlotsAfter(slots: map<Name, Slot>, k: Call, put: Option<Slot>): map<Name, Slot> {
    if put.Some? && Names(k.request) then slots[(k.p.scope, k.request.id) := put.value] else slots
  }

  function Step(w: World, s: Store, k: Call): Store {
    var f := EffectOf(w, s, k);
    Store(f.ring, SlotsAfter(s.slots, k, f.put),
          s.logs[k.p.scope := AppendAll(w.c, w.root, LogOf(s, k.p.scope), f.entries)])
  }

  function Run(w: World, s: Store, ks: seq<Call>): Store {
    if ks == [] then s else Step(w, Run(w, s, ks[..|ks| - 1]), ks[|ks| - 1])
  }

  // ----- roles ----------------------------------------------------------------------------------------

  /** Keys are managed by key administrators only; bundles are written and logs read by bundle writers only. */
  lemma RolesAreEnforced(w: World, s: Store, k: Call)
    requires EffectOf(w, s, k).denied.None?
    ensures k.request.ManageKey? ==> k.p.role.KeyAdmin?
    ensures !k.request.ManageKey? && !k.request.Read? && !k.request.Verify? ==> k.p.role.BundleWriter?
  {
    match k.request
    case ManageKey(_) =>
    case Create(_, _, _) =>
    case Certify(_, _) =>
    case Read(_) =>
    case Verify(_) =>
    case AuditRequest =>
    case FetchTrustRoot =>
    case FetchMetadata =>
  }

  /** A denied request changes neither keys nor bundles, except that it may put an expired bundle to rest. */
  lemma DenialChangesNothing(w: World, s: Store, k: Call)
    requires EffectOf(w, s, k).denied.Some?
    ensures EffectOf(w, s, k).ring == s.ring
    ensures EffectOf(w, s, k).put.Some? ==>
              && (k.request.Read? || k.request.Verify?)
              && EffectOf(w, s, k).denied == Some(Expired)
              && Expires(w, s, k.p.scope, k.request.id, k.t.first)
  {
    match k.request
    case ManageKey(_) =>
    case Create(_, _, _) =>
    case Certify(_, _) =>
    case Read(_) =>
    case Verify(_) =>
    case AuditRequest =>
    case FetchTrustRoot =>
    case FetchMetadata =>
  }

  // ----- what is allowed ------------------------------------------------------------------------------

  /** The active key is known, unrevoked and inside its window. */
  predicate SignsAt(ring: Ring, id: KeyId, now: int) {
    && ring.active == Some(id) && id in ring.keys
    && ring.keys[id].revokedAt.None? && ring.keys[id].notBefore <= now < ring.keys[id].notAfter
  }

  /** The envelope fits the caller, the payload, the active key and the clock. */
  predicate Fitting(w: World, s: Store, k: Call, id: ArtifactId, payload: Payload, e: Envelope) {
    && w.rules.redacted(payload) && w.rules.redactedEnvelope(e) && w.rules.isResult(payload)
    && e.governanceSchema && e.sourceSchema && e.algorithm && e.artifactId == id && e.scope == k.p.scope
    && e.contentHash == w.c.payloadDigest(payload)
    && e.createdAt == k.t.create && k.t.create < e.expiresAt
    && SignsAt(s.ring, e.keyId, k.t.key) && e.expiresAt <= s.ring.keys[e.keyId].notAfter
  }

  /** The name is free, or holds this very envelope and payload. */
  predicate Vacant(w: World, s: Store, n: Name, payload: Payload, e: Envelope) {
    && w.rules.validArtifactId(n.1)
    && (n in s.slots ==> s.slots[n].Live? && s.slots[n].saved.envelope == e && s.slots[n].saved.payload == payload)
  }

  /** A creation is allowed exactly for a bundle writer with a fitting envelope under a vacant name; then the bundle is stored, once. */
  lemma CreateIsAllowedIff(w: World, s: Store, k: Call, id: ArtifactId, payload: Payload, e: Envelope)
    ensures var f, n := CreateEffect(w, s, k, id, payload, e), (k.p.scope, id);
            && (f.denied.None? <==> k.p.role.BundleWriter? && Fitting(w, s, k, id, payload, e) && Vacant(w, s, n, payload, e))
            && (f.denied.None? && n !in s.slots && e.keyId in s.ring.privates ==>
                  f.put == Some(Live(Saved(e, payload, w.c.sign(s.ring.privates[e.keyId], OfBundle(e, payload))))))
            && (f.denied.Some? || n in s.slots ==> f.put.None?)
  {
  }

  /**
   A certification is allowed exactly for a bundle writer's redacted result of the scope's own run with
   a scenario, if the active key can sign, the stamped payload validates, and storing it under the
   envelope that the service fills in is allowed: for a day, or until the key's window ends.
   */
  lemma CertifyIsAllowedIff(w: World, s: Store, k: Call, id: ArtifactId, payload: Payload)
    ensures var f := CertifyEffect(w, s, k, id, payload);
            f.denied.None? <==>
              && k.p.role.BundleWriter? && w.rules.redacted(payload) && w.rules.isResult(payload)
              && w.rules.runOf(payload) == w.rules.runOfScope(k.p.scope) && w.rules.hasScenario(payload)
              && s.ring.active.Some? && SignsAt(s.ring, s.ring.active.value, k.t.first)
              && var key := s.ring.active.value;
                 var result := w.rules.stamp(payload, id, key);
                 var e := Envelope(true, true, true, id, w.rules.scenarioOf(payload), w.rules.runOf(payload), w.c.payloadDigest(result),
                                   k.t.issue, Least(k.t.issue + 86400, s.ring.keys[key].notAfter), k.p.scope, key);
                 && w.rules.validates(result, w.rules.scenarioOf(payload))
                 && Fitting(w, s, k, id, result, e) && Vacant(w, s, (k.p.scope, id), result, e)
  {
    var key := SigningKeyAt(s.ring, k.t.first);
    if key.Some? {
      var result := w.rules.stamp(payload, id, key.value);
      CreateIsAllowedIff(w, s, k, id, result, Issued(w, k.p, id, payload, result, key.value, s.ring.keys[key.value], k.t.issue));
    }
  }

  function Least(a: int, b: int): int {
    if a < b then a else b
  }

  /** The remaining requests: keys are managed by administrators, logs and metadata read by writers, and logs only while they verify. */
  lemma OthersAreAllowedIff(w: World, s: Store, k: Call)
    ensures var f := EffectOf(w, s, k);
            && (k.request.ManageKey? ==>
                  (f.denied.None? <==> k.p.role.KeyAdmin? && Refusal(s.ring, w.rules.validKeyId, k.request.op, k.t.first).None?)
                  && f.ring == (if f.denied.None? then KeyLifecycle.Step(w.c, w.rules.validKeyId, s.ring, k.request.op, k.t.first) else s.ring))
            && (k.request.FetchTrustRoot? || k.request.FetchMetadata? ==> (f.denied.None? <==> k.p.role.BundleWriter?))
            && (k.request.AuditRequest? ==>
                  (f.denied.None? <==>
                   k.p.role.BundleWriter? && ChainValid(w.c, w.c.pub(w.root.private), w.root.keyId, LogOf(s, k.p.scope))))
  {
  }

  // ----- the audit log --------------------------------------------------------------------------------

  ghost predicate LogsVerify(w: World, s: Store) {
    forall scope :: ChainValid(w.c, w.c.pub(w.root.private), w.root.keyId, LogOf(s, scope))
  }

  /** Every request records something, and only in its own scope. */
  lemma RequestIsRecorded(w: World, s: Store, k: Call)
    ensures EffectOf(w, s, k).entries != []
    ensures forall i :: 0 <= i < |EffectOf(w, s, k).entries| ==> EffectOf(w, s, k).entries[i].scope == k.p.scope
  {
  }

  /** The action a request is recorded under. */
  function ActionOf(r: Request): Action {
    match r
    case ManageKey(op) =>
      (match op
       case Bootstrap(_, _, _, _) => BootstrapKey
       case Stage(_, _, _, _) => StageKey
       case Promote(_) => PromoteKey
       case Retire(_) => RetireKey
       case Revoke(_) => RevokeKey)
    case Create(_, _, _) => CreateBundle
    case Certify(_, _) => CreateBundle
    case Read(_) => ReadBundle
    case Verify(_) => VerifyBundle
    case AuditRequest => ReadAudit
    case FetchTrustRoot => ReadTrustRoot
    case FetchMetadata => ReadMetadata
  }

  /**
   The last entry of a request says who made it, when, for which scope, what was asked and whether
   and why it was denied, and names the bundle exactly if it was allowed; it is the only entry,
   unless the request puts an expired bundle to rest, which is recorded before it.
   */
  lemma RequestIsTold(w: World, s: Store, k: Call)
    ensures var f := EffectOf(w, s, k);
            && f.entries != []
            && var last := f.entries[|f.entries| - 1];
            && last.actor == k.p.subject && last.at == k.t.audit && last.scope == k.p.scope
            && last.action == ActionOf(k.request) && last.denied == f.denied
            && last.artifactId == (if Names(k.request) && f.denied.None? then Some(k.request.id) else None)
            && (last.contentHash.Some? <==> last.artifactId.Some?)
            && last.id == (if |f.entries| == 2 then k.uuid2 else k.uuid) && f.entries[0].id == k.uuid
            && (if f.put.Some? && f.put.value.Tombstone? then
                  && |f.entries| == 2 && f.entries[0].action.TombstoneBundle? && f.entries[0].denied.None?
                  && f.entries[0].actor == k.p.subject && f.entries[0].artifactId == Some(k.request.id)
                  && f.entries[0].contentHash == Some(f.put.value.contentHash)
                else |f.entries| == 1)
  {
    match k.request
    case ManageKey(_) =>
    case Create(id, payload, e) => CreationIsTold(w, s, k, id, payload, e);
    case Certify(id, payload) => CertificationIsTold(w, s, k, id, payload);
    case Read(id) => LoadingIsTold(w, s, k, id, ReadBundle);
    case Verify(id) => LoadingIsTold(w, s, k, id, VerifyBundle);
    case AuditRequest =>
    case FetchTrustRoot =>
    case FetchMetadata =>
  }

  /** What every effect of a request that stores a bundle records. */
  predicate ToldOnce(f: Effect, k: Call, action: Action, id: ArtifactId) {
    && |f.entries| == 1 && (f.put.Some? ==> f.put.value.Live?) && f.entries[0].id == k.uuid
    && f.entries[0].actor == k.p.subject && f.entries[0].at == k.t.audit && f.entries[0].scope == k.p.scope
    && f.entries[0].action == action && f.entries[0].denied == f.denied
    && f.entries[0].artifactId == (if f.denied.None? then Some(id) else None)
    && (f.entries[0].contentHash.Some? <==> f.denied.None?)
  }

  lemma CreationIsTold(w: World, s: Store, k: Call, id: ArtifactId, payload: Payload, e: Envelope)
    ensures ToldOnce(CreateEffect(w, s, k, id, payload, e), k, CreateBundle, id)
  {
  }

  lemma CertificationIsTold(w: World, s: Store, k: Call, id: ArtifactId, payload: Payload)
    ensures ToldOnce(CertifyEffect(w, s, k, id, payload), k, CreateBundle, id)
  {
    var key := SigningKeyAt(s.ring, k.t.first);
    if key.Some? {
      var result := w.rules.stamp(payload, id, key.value);
      CreationIsTold(w, s, k, id, result, Issued(w, k.p, id, payload, result, key.value, s.ring.keys[key.value], k.t.issue));
    }
  }

  lemma LoadingIsTold(w: World, s: Store, k: Call, id: ArtifactId, action: Action)
    ensures var f := LoadEffect(w, s, k, id, action);
            var last := if f.entries != [] then f.entries[|f.entries| - 1] else Record(k, action, None, None, None);
            && f.entries != []
            && last.actor == k.p.subject && last.at == k.t.audit && last.scope == k.p.scope
            && last.action == action && last.denied == f.denied
            && last.artifactId == (if f.denied.None? then Some(id) else None)
            && (last.contentHash.Some? <==> f.denied.None?)
            && last.id == (if |f.entries| == 2 then k.uuid2 else k.uuid) && f.entries[0].id == k.uuid
            && (if f.put.Some? then
                  && f.put.value.Tombstone?
                  && |f.entries| == 2 && f.entries[0].action.TombstoneBundle? && f.entries[0].denied.None?
                  && f.entries[0].actor == k.p.subject && f.entries[0].artifactId == Some(id)
                  && f.entries[0].contentHash == Some(f.put.value.contentHash)
                else |f.entries| == 1)
  {
  }

  /** A request, allowed or denied, extends its scope's log, leaves the others alone, and all logs still verify. */
  lemma StepExtendsLogs(w: World, s: Store, k: Call, scope: Scope)
    requires Sound(w.c) && LogsVerify(w, s)
    ensures LogsVerify(w, Step(w, s, k))
    ensures LogOf(s, scope) <= LogOf(Step(w, s, k), scope)
    ensures scope != k.p.scope ==> LogOf(Step(w, s, k), scope) == LogOf(s, scope)
    ensures scope == k.p.scope ==> |LogOf(Step(w, s, k), scope)| > |LogOf(s, scope)|
  {
    var es := EffectOf(w, s, k).entries;
    RequestIsRecorded(w, s, k);
    assert ChainValid(w.c, w.c.pub(w.root.private), w.root.keyId, LogOf(s, k.p.scope));
    AppendAllIsValid(w.c, w.root, LogOf(s, k.p.scope), es);
    LogAfter(w, s, k, es);
  }

  /** The newest record of the scope's log is the request's: it says who asked for what, and what came of it. */
  lemma NewestRecordTells(w: World, s: Store, k: Call)
    ensures var log, f := LogOf(Step(w, s, k), k.p.scope), EffectOf(w, s, k);
            && log != []
            && var body := log[|log| - 1].body;
            && body.actor == k.p.subject && body.at == k.t.audit && body.scope == k.p.scope
            && body.action == ActionOf(k.request) && body.denied == f.denied
            && body.artifactId == (if Names(k.request) && f.denied.None? then Some(k.request.id) else None)
            && body.contentHash == f.entries[|f.entries| - 1].contentHash
            && body.keyId == w.root.keyId
  {
    RequestIsTold(w, s, k);
    LogAfter(w, s, k, EffectOf(w, s, k).entries);
  }

  lemma LogAfter(w: World, s: Store, k: Call, es: seq<Entry>)
    requires es == EffectOf(w, s, k).entries
    ensures LogOf(Step(w, s, k), k.p.scope) == AppendAll(w.c, w.root, LogOf(s, k.p.scope), es)
    ensures forall scope :: scope != k.p.scope ==> LogOf(Step(w, s, k), scope) == LogOf(s, scope)
  {
  }

  lemma {:induction false} RunLogsVerify(w: World, ks: seq<Call>)
    requires Sound(w.c)
    ensures LogsVerify(w, Run(w, START, ks))
  {
    if ks != [] {
      RunLogsVerify(w, ks[..|ks| - 1]);
      StepExtendsLogs(w, Run(w, START, ks[..|ks| - 1]), ks[|ks| - 1], 0);
    }
  }

  lemma RunSnoc(w: World, s: Store, ks: seq<Call>, k: Call)
    ensures Run(w, s, ks + [k]) == Step(w, Run(w, s, ks), k)
  {
    assert (ks + [k])[..|ks + [k]| - 1] == ks;
  }

  lemma Longer(a: seq<AuditRecord>, b: seq<AuditRecord>, c: seq<AuditRecord>)
    requires a <= b <= c
    ensures a <= c
  {
  }

  /** Over every run, the audit log of every scope verifies after every request and has only grown. */
  lemma {:induction false} AuditLogVerifiesAndGrows(w: World, ks: seq<Call>, more: seq<Call>, scope: Scope)
    requires Sound(w.c)
    ensures LogsVerify(w, Run(w, START, ks + more))
    ensures LogOf(Run(w, START, ks), scope) <= LogOf(Run(w, START, ks + more), scope)
  {
    if more == [] {
      assert ks + more == ks;
      RunLogsVerify(w, ks);
    } else {
      var less, k := more[..|more| - 1], more[|more| - 1];
      assert ks + more == (ks + less) + [k];
      AuditLogVerifiesAndGrows(w, ks, less, scope);
      RunSnoc(w, START, ks + less, k);
      StepExtendsLogs(w, Run(w, START, ks + less), k, scope);
      Longer(LogOf(Run(w, START, ks), scope), LogOf(Run(w, START, ks + less), scope), LogOf(Run(w, START, ks + more), scope));
    }
  }
}
