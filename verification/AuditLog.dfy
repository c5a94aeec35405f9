/** The signed, hash-chained audit log of one scope (scripts/proof_bundle_governance.py). */
module AuditLog {
  import opened Common
  import opened Signing

  /** What an operation asks to be recorded; the chain fields are added when it is appended. */
  datatype Entry = Entry(id: nat, at: int, actor: nat, action: Action, artifactId: Option<ArtifactId>,
                         contentHash: Option<Hash>, scope: Scope, denied: Option<Reason>)

  datatype Root = Root(private: PrivateKey, keyId: KeyId)

  function LastHash(c: Crypto, log: seq<AuditRecord>): Hash {
    if log == [] then GENESIS else c.digest(log[|log| - 1])
  }

  function Append(c: Crypto, root: Root, log: seq<AuditRecord>, e: Entry): seq<AuditRecord> {
    var body := AuditBody(e.id, e.at, e.actor, e.action, e.artifactId, e.contentHash, e.scope, e.denied,
                          LastHash(c, log), root.keyId);
    log + [AuditRecord(body, c.sign(root.private, OfAudit(body)))]
  }

  function AppendAll(c: Crypto, root: Root, log: seq<AuditRecord>, es: seq<Entry>): seq<AuditRecord> {
    if es == [] then log else Append(c, root, AppendAll(c, root, log, es[..|es| - 1]), es[|es| - 1])
  }

  /** A record that continues a log whose last hash is `previous`. */
  predicate Continues(c: Crypto, public: PublicKey, keyId: KeyId, previous: Hash, r: AuditRecord) {
    r.body.previousHash == previous && r.body.keyId == keyId && c.verify(public, r.signature, OfAudit(r.body))
  }

  predicate ChainValid(c: Crypto, public: PublicKey, keyId: KeyId, log: seq<AuditRecord>) {
    log != [] ==>
      && ChainValid(c, public, keyId, log[..|log| - 1])
      && Continues(c, public, keyId, LastHash(c, log[..|log| - 1]), log[|log| - 1])
  }

  /** Record `i` carries the key, a signature of its own body and the hash of the record before it. */
  predicate Links(c: Crypto, public: PublicKey, keyId: KeyId, log: seq<AuditRecord>, i: nat)
    requires i < |log|
  {
    && log[i].body.keyId == keyId
    && c.verify(public, log[i].signature, OfAudit(log[i].body))
    && log[i].body.previousHash == if i == 0 then GENESIS else c.digest(log[i - 1])
  }

  /** A chain is valid exactly when every record links to the one before. */
  lemma {:induction false} ChainValidIff(c: Crypto, public: PublicKey, keyId: KeyId, log: seq<AuditRecord>)
    ensures ChainValid(c, public, keyId, log) <==>
            forall i :: 0 <= i < |log| ==> Links(c, public, keyId, log, i)
  {
    if log != [] {
      var n := |log| - 1;
      ChainValidIff(c, public, keyId, log[..n]);
      assert forall i :: 0 <= i < n ==> (Links(c, public, keyId, log[..n], i) <==> Links(c, public, keyId, log, i));
      assert Continues(c, public, keyId, LastHash(c, log[..n]), log[n]) <==> Links(c, public, keyId, log, n);
    }
  }

  /** The verification loop, which carries the hash of the record before. */
  method VerifyChain(c: Crypto, public: PublicKey, keyId: KeyId, log: seq<AuditRecord>) returns (valid: bool)
    ensures valid <==> ChainValid(c, public, keyId, log)
  {
    var predecessor := GENESIS;
    var i := 0;
    while i < |log|
      invariant 0 <= i <= |log|
      invariant predecessor == LastHash(c, log[..i])
      invariant ChainValid(c, public, keyId, log[..i])
    {
      assert log[..i + 1][..i] == log[..i];
      if !Continues(c, public, keyId, predecessor, log[i]) {
        InvalidPrefix(c, public, keyId, log, i + 1);
        return false;
      }
      predecessor := c.digest(log[i]);
      i := i + 1;
    }
    assert log[..i] == log;
    return true;
  }

  /** Cutting records off the end goes unnoticed: every prefix of a valid chain is valid. */
  lemma {:induction false} PrefixIsValid(c: Crypto, public: PublicKey, keyId: KeyId, log: seq<AuditRecord>, n: nat)
    requires ChainValid(c, public, keyId, log) && n <= |log|
    ensures ChainValid(c, public, keyId, log[..n])
  {
    if n == |log| {
      assert log[..n] == log;
    } else {
      var prefix := log[..|log| - 1];
      PrefixIsValid(c, public, keyId, prefix, n);
      assert prefix[..n] == log[..n];
    }
  }

  lemma InvalidPrefix(c: Crypto, public: PublicKey, keyId: KeyId, log: seq<AuditRecord>, n: nat)
    requires n <= |log| && !ChainValid(c, public, keyId, log[..n])
    ensures !ChainValid(c, public, keyId, log)
  {
    if ChainValid(c, public, keyId, log) {
      PrefixIsValid(c, public, keyId, log, n);
    }
  }

  lemma AppendIsValid(c: Crypto, root: Root, log: seq<AuditRecord>, e: Entry)
    requires Sound(c) && ChainValid(c, c.pub(root.private), root.keyId, log)
    ensures ChainValid(c, c.pub(root.private), root.keyId, Append(c, root, log, e))
  {
    var after := Append(c, root, log, e);
    assert after[..|after| - 1] == log;
  }

  /** Whatever is recorded, the log still verifies, and what was there before is still its beginning. */
  lemma {:induction false} AppendAllIsValid(c: Crypto, root: Root, log: seq<AuditRecord>, es: seq<Entry>)
    requires Sound(c) && ChainValid(c, c.pub(root.private), root.keyId, log)
    ensures ChainValid(c, c.pub(root.private), root.keyId, AppendAll(c, root, log, es))
    ensures log <= AppendAll(c, root, log, es) && |AppendAll(c, root, log, es)| == |log| + |es|
  {
    if es != [] {
      var es' := es[..|es| - 1];
      AppendAllIsValid(c, root, log, es');
      AppendIsValid(c, root, AppendAll(c, root, log, es'), es[|es| - 1]);
    }
  }

  // ----- tamper evidence ----------------------------------------------------------------------

  /** `tail` is how `log` ends. */
  predicate EndsWith<T(==)>(log: seq<T>, tail: seq<T>) {
    |tail| <= |log| && log[|log| - |tail|..] == tail
  }

  lemma EndsWithSnoc<T>(a: seq<T>, b: seq<T>, x: T)
    requires EndsWith(a, b)
    ensures EndsWith(a + [x], b + [x])
  {
    assert (a + [x])[|a| - |b|..] == a[|a| - |b|..] + [x];
  }

  lemma {:induction false} PreviousHash(c: Crypto, public: PublicKey, keyId: KeyId, log: seq<AuditRecord>, n: nat)
    requires ChainValid(c, public, keyId, log) && n < |log|
    ensures log[n].body.previousHash == if n == 0 then GENESIS else c.digest(log[n - 1])
  {
    PrefixIsValid(c, public, keyId, log, n + 1);
    assert log[..n + 1][..n] == log[..n];
  }

  /**
   With an injective digest, two valid chains that end in the same record agree as far back as
   the shorter one reaches.
   */
  lemma {:induction false} SameEndSamePast(c: Crypto, public: PublicKey, keyId: KeyId, a: seq<AuditRecord>, b: seq<AuditRecord>)
    requires Injective(c) && ChainValid(c, public, keyId, a) && ChainValid(c, public, keyId, b)
    requires a != [] && b != [] && |b| <= |a| && a[|a| - 1] == b[|b| - 1]
    ensures EndsWith(a, b)
  {
    var a', b' := a[..|a| - 1], b[..|b| - 1];
    var last := b[|b| - 1];
    assert a == a' + [last] && b == b' + [last];
    if b' == [] {
      assert EndsWith(a', b');
    } else {
      PreviousHash(c, public, keyId, a, |a| - 1);
      PreviousHash(c, public, keyId, b, |b| - 1);
      assert c.digest(a'[|a'| - 1]) == c.digest(b'[|b'| - 1]);
      SameEndSamePast(c, public, keyId, a', b');
    }
    EndsWithSnoc(a', b', last);
  }

  /**
   Two such chains are equal exactly when they are equally long; otherwise the record of the longer
   one that stands before the beginning of the shorter one hashes to the 64 zeros.
   */
  lemma {:induction false} SameEndSameChain(c: Crypto, public: PublicKey, keyId: KeyId, a: seq<AuditRecord>, b: seq<AuditRecord>)
    requires Injective(c) && ChainValid(c, public, keyId, a) && ChainValid(c, public, keyId, b)
    requires a != [] && b != [] && a[|a| - 1] == b[|b| - 1]
    ensures a == b <==> |a| == |b|
    ensures |b| < |a| ==> c.digest(a[|a| - |b| - 1]) == GENESIS
    ensures |a| < |b| ==> c.digest(b[|b| - |a| - 1]) == GENESIS
  {
    if |b| <= |a| {
      SameEndSamePast(c, public, keyId, a, b);
      BeforeTheBeginning(c, public, keyId, a, b);
    } else {
      SameEndSamePast(c, public, keyId, b, a);
      BeforeTheBeginning(c, public, keyId, b, a);
    }
  }

  lemma {:induction false} BeforeTheBeginning(c: Crypto, public: PublicKey, keyId: KeyId, long: seq<AuditRecord>, short: seq<AuditRecord>)
    requires ChainValid(c, public, keyId, long) && ChainValid(c, public, keyId, short) && short != [] && EndsWith(long, short)
    ensures |long| == |short| ==> long == short
    ensures |short| < |long| ==> c.digest(long[|long| - |short| - 1]) == GENESIS
  {
    var n := |long| - |short|;
    assert long[n..][0] == short[0];
    PreviousHash(c, public, keyId, long, n);
    PreviousHash(c, public, keyId, short, 0);
    assert n == 0 ==> long[n..] == long;
  }

  /** A record that did hash to the zeros could be cut off the front without a trace. */
  lemma ZeroDigestHidesTheFirstRecord(c: Crypto, public: PublicKey, keyId: KeyId, first: AuditRecord, second: AuditRecord)
    requires Continues(c, public, keyId, GENESIS, first) && Continues(c, public, keyId, GENESIS, second)
    requires c.digest(first) == GENESIS
    ensures ChainValid(c, public, keyId, [first, second]) && ChainValid(c, public, keyId, [second])
  {
    assert [first, second][..1] == [first];
    assert [first][..0] == [] && [second][..0] == [];
    assert ChainValid(c, public, keyId, [first]);
  }
}
