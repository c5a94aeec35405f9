/**
 Cryptography as the governance store uses it (scripts/proof_bundle_governance.py): SHA-256 is
 some function on records, and Ed25519 (section 5.1 of RFC 8032) is a sign/verify pair of which
 only this much is assumed, that a signature verifies under the matching public key.
 */
module Signing {
  import opened Common

  type Hash = nat
  type PrivateKey = nat
  type PublicKey = nat
  type Signature = nat
  type KeyId = nat
  type Scope = nat
  type ArtifactId = nat

  /** The `previousHash` of a first record, 64 zeros. */
  const GENESIS: Hash := 0

  datatype Action =
    | BootstrapKey | StageKey | PromoteKey | RetireKey | RevokeKey
    | CreateBundle | ReadBundle | VerifyBundle | TombstoneBundle | ReadAudit | ReadTrustRoot | ReadMetadata

  datatype Reason =
    | RoleNotAuthorized | KeyIdInvalid | KeyWindowInvalid | BootstrapInvalid | StageInvalid | NotEligible
    | CannotRetire | CannotRevoke | PayloadInvalid | ScopeInvalid | RedactionInvalid | NotAResult | IdentityInvalid
    | ContentHashInvalid | TimeInvalid | AlreadyExpired | KeyUnavailable | KeyNotActive | ExceedsKey | ArtifactInvalid
    | RecordUnreadable | DifferentBytes | Expired | NotFound | VerificationInvalid | ContinuityInvalid

  /** An audit record without its signature. */
  datatype AuditBody = AuditBody(
    id: nat, at: int, actor: nat, action: Action, artifactId: Option<ArtifactId>, contentHash: Option<Hash>,
    scope: Scope, denied: Option<Reason>, previousHash: Hash, keyId: KeyId)

  datatype AuditRecord = AuditRecord(body: AuditBody, signature: Signature)

  type Payload = nat

  datatype Envelope = Envelope(
    governanceSchema: bool, sourceSchema: bool, algorithm: bool,      // whether each has its one accepted value
    artifactId: ArtifactId, scenarioId: nat, run: nat, contentHash: Hash,
    createdAt: int, expiresAt: int, scope: Scope, keyId: KeyId)

  datatype Message = OfAudit(body: AuditBody) | OfBundle(envelope: Envelope, payload: Payload)

  datatype Crypto = Crypto(
    pub: PrivateKey -> PublicKey,
    sign: (PrivateKey, Message) -> Signature,
    verify: (PublicKey, Signature, Message) -> bool,
    digest: AuditRecord -> Hash,
    payloadDigest: Payload -> Hash)

  ghost predicate Sound(c: Crypto) {
    forall k: PrivateKey, m: Message :: c.verify(c.pub(k), c.sign(k, m), m)
  }

  ghost predicate Injective(c: Crypto) {
    forall a: AuditRecord, b: AuditRecord :: c.digest(a) == c.digest(b) ==> a == b
  }
}
