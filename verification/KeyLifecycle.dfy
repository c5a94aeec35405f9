/** The signing keys of the governance store and how they are kept on disk (scripts/proof_bundle_governance.py). */
module KeyLifecycle {
  import opened Common
  import opened Signing

  datatype SigningKey = SigningKey(publicKey: PublicKey, notBefore: int, notAfter: int,
                                   revokedAt: Option<int>, retiredAt: Option<int>)

  datatype Ring = Ring(keys: map<KeyId, SigningKey>, privates: map<KeyId, PrivateKey>, active: Option<KeyId>)

  const EMPTY: Ring := Ring(map[], map[], None)

  /** `generated` is the private key that a new signing key is made from. */
  datatype KeyOp =
    | Bootstrap(id: KeyId, notBefore: int, notAfter: int, generated: PrivateKey)
    | Stage(id: KeyId, notBefore: int, notAfter: int, generated: PrivateKey)
    | Promote(id: KeyId)
    | Retire(id: KeyId)
    | Revoke(id: KeyId)

  predicate Usable(key: SigningKey, now: int) {
    key.revokedAt.None? && key.notBefore <= now < key.notAfter
  }

  function KeyAction(op: KeyOp): Action {
    match op
    case Bootstrap(_, _, _, _) => BootstrapKey
    case Stage(_, _, _, _) => StageKey
    case Promote(_) => PromoteKey
    case Retire(_) => RetireKey
    case Revoke(_) => RevokeKey
  }

  /** Why an operation is refused, if it is; `valid` is the accepted shape of a key id. */
  function Refusal(ring: Ring, valid: KeyId -> bool, op: KeyOp, now: int): Option<Reason> {
    if !valid(op.id) then Some(KeyIdInvalid)
    else
      match op
      case Bootstrap(id, notBefore, notAfter, _) =>
        if notBefore >= notAfter then Some(KeyWindowInvalid)
        else if ring.active.Some? || id in ring.keys || !(notBefore <= now < notAfter) then Some(BootstrapInvalid)
        else None
      case Stage(id, notBefore, notAfter, _) =>
        if notBefore >= notAfter then Some(KeyWindowInvalid) else if id in ring.keys then Some(StageInvalid) else None
      case Promote(id) => if id in ring.keys && Usable(ring.keys[id], now) then None else Some(NotEligible)
      case Retire(id) => if id in ring.keys && ring.keys[id].revokedAt.None? then None else Some(CannotRetire)
      case Revoke(id) => if id in ring.keys && ring.keys[id].revokedAt.None? then None else Some(CannotRevoke)
  }

  function Deactivated(active: Option<KeyId>, id: KeyId): Option<KeyId> {
    if active == Some(id) then None else active
  }

  function Added(c: Crypto, ring: Ring, id: KeyId, notBefore: int, notAfter: int, generated: PrivateKey): Ring {
    ring.(keys := ring.keys[id := SigningKey(c.pub(generated), notBefore, notAfter, None, None)],
          privates := ring.privates[id := generated])
  }

  /** The effect of an operation that is not refused. */
  function Performed(c: Crypto, ring: Ring, op: KeyOp, now: int): Ring
    requires !op.Bootstrap? && !op.Stage? ==> op.id in ring.keys
  {
    match op
    case Bootstrap(id, notBefore, notAfter, generated) => Added(c, ring, id, notBefore, notAfter, generated).(active := Some(id))
    case Stage(id, notBefore, notAfter, generated) => Added(c, ring, id, notBefore, notAfter, generated)
    case Promote(id) => ring.(active := Some(id))
    case Retire(id) =>
      ring.(keys := ring.keys[id := ring.keys[id].(retiredAt := Some(now))], active := Deactivated(ring.active, id))
    case Revoke(id) =>
      ring.(keys := ring.keys[id := ring.keys[id].(revokedAt := Some(now), retiredAt := Some(now))],
            privates := Pop(ring.privates, id), active := Deactivated(ring.active, id))
  }

  function Step(c: Crypto, valid: KeyId -> bool, ring: Ring, op: KeyOp, now: int): Ring {
    if Refusal(ring, valid, op, now).Some? then ring else Performed(c, ring, op, now)
  }

  function Run(c: Crypto, valid: KeyId -> bool, ring: Ring, ops: seq<(KeyOp, int)>): Ring {
    if ops == [] then ring
    else Step(c, valid, Run(c, valid, ring, ops[..|ops| - 1]), ops[|ops| - 1].0, ops[|ops| - 1].1)
  }

  // ----- the invariant --------------------------------------------------------------------------

  /** The active key is known and unrevoked; private material exists for exactly the unrevoked keys, and matches. */
  ghost predicate Sane(c: Crypto, valid: KeyId -> bool, ring: Ring) {
    && (ring.active.Some? ==> ring.active.value in ring.keys && ring.keys[ring.active.value].revokedAt.None?)
    && (forall id :: id in ring.privates <==> id in ring.keys && ring.keys[id].revokedAt.None?)
    && (forall id :: id in ring.privates ==> ring.keys[id].publicKey == c.pub(ring.privates[id]))
    && (forall id :: id in ring.keys ==> valid(id))
  }

  lemma StepIsSane(c: Crypto, valid: KeyId -> bool, ring: Ring, op: KeyOp, now: int)
    requires Sane(c, valid, ring)
    ensures Sane(c, valid, Step(c, valid, ring, op, now))
  {
    if Refusal(ring, valid, op, now).None? {
      match op
      case Bootstrap(_, _, _, _) =>
      case Stage(_, _, _, _) =>
      case Promote(_) =>
      case Retire(_) =>
      case Revoke(_) =>
    }
  }

  lemma {:induction false} RunIsSane(c: Crypto, valid: KeyId -> bool, ops: seq<(KeyOp, int)>)
    ensures Sane(c, valid, Run(c, valid, EMPTY, ops))
  {
    if ops != [] {
      var n := |ops| - 1;
      RunIsSane(c, valid, ops[..n]);
      StepIsSane(c, valid, Run(c, valid, EMPTY, ops[..n]), ops[n].0, ops[n].1);
    }
  }

  /** A key is never forgotten, keeps its public key and window, and once revoked stays revoked. */
  ghost predicate Preserved(before: Ring, after: Ring, id: KeyId) {
    id in before.keys ==>
      && id in after.keys
      && after.keys[id].publicKey == before.keys[id].publicKey
      && after.keys[id].notBefore == before.keys[id].notBefore
      && after.keys[id].notAfter == before.keys[id].notAfter
      && (before.keys[id].revokedAt.Some? ==> after.keys[id] == before.keys[id])
  }

  lemma StepPreserves(c: Crypto, valid: KeyId -> bool, ring: Ring, op: KeyOp, now: int, id: KeyId)
    ensures Preserved(ring, Step(c, valid, ring, op, now), id)
  {
  }

  lemma {:induction false} RevocationIsForEver(c: Crypto, valid: KeyId -> bool, ring: Ring, ops: seq<(KeyOp, int)>, id: KeyId)
    ensures Preserved(ring, Run(c, valid, ring, ops), id)
  {
    if ops != [] {
      var n := |ops| - 1;
      RevocationIsForEver(c, valid, ring, ops[..n], id);
      StepPreserves(c, valid, Run(c, valid, ring, ops[..n]), ops[n].0, ops[n].1, id);
    }
  }

  /** What each operation is refused for; a malformed id is refused before anything else. */
  lemma RefusedIff(ring: Ring, valid: KeyId -> bool, op: KeyOp, now: int)
    ensures Refusal(ring, valid, op, now).None? <==>
            && valid(op.id)
            && match op
               case Bootstrap(id, notBefore, notAfter, _) => notBefore <= now < notAfter && ring.active.None? && id !in ring.keys
               case Stage(id, notBefore, notAfter, _) => notBefore < notAfter && id !in ring.keys
               case Promote(id) =>
                 id in ring.keys && ring.keys[id].revokedAt.None? && ring.keys[id].notBefore <= now < ring.keys[id].notAfter
               case Retire(id) => id in ring.keys && ring.keys[id].revokedAt.None?
               case Revoke(id) => id in ring.keys && ring.keys[id].revokedAt.None?
    ensures !valid(op.id) <==> Refusal(ring, valid, op, now) == Some(KeyIdInvalid)
    ensures Refusal(ring, valid, op, now) == Some(KeyWindowInvalid) <==>
            valid(op.id) && (op.Bootstrap? || op.Stage?) && op.notAfter <= op.notBefore
  {
  }

  /** An allowed operation has its effect: new keys and promoted ones are usable, retired and revoked ones inactive. */
  lemma OperationTakesEffect(c: Crypto, valid: KeyId -> bool, ring: Ring, op: KeyOp, now: int)
    requires Sane(c, valid, ring) && Refusal(ring, valid, op, now).None?
    ensures var r := Step(c, valid, ring, op, now);
            && op.id in r.keys
            && (op.Bootstrap? || op.Promote? ==> r.active == Some(op.id) && Usable(r.keys[op.id], now))
            && (op.Stage? ==> r.active == ring.active && op.id !in ring.keys && r.keys[op.id].revokedAt.None?)
            && (op.Retire? || op.Revoke? ==> r.active != Some(op.id) && r.keys[op.id].retiredAt == Some(now))
            && (op.Revoke? ==> r.keys[op.id].revokedAt == Some(now) && op.id !in r.privates)
            && (forall id :: id in ring.keys && id != op.id ==> id in r.keys && r.keys[id] == ring.keys[id])
  {
  }

  /** Promotion looks at revocation and the window only, so a retired key may become active again. */
  lemma RetiredKeyMayBePromoted(c: Crypto, valid: KeyId -> bool, ring: Ring, id: KeyId, now: int, later: int)
    requires valid(id) && id in ring.keys && Usable(ring.keys[id], later)
    ensures var r := Step(c, valid, Step(c, valid, ring, Retire(id), now), Promote(id), later);
            r.active == Some(id) && id in r.keys && r.keys[id].retiredAt == Some(now)
  {
  }

  ghost predicate ActiveIsUnretired(ring: Ring) {
    ring.active.Some? ==> ring.active.value in ring.keys && ring.keys[ring.active.value].retiredAt.None?
  }

  /** The operation is an allowed promotion of a key that was retired before. */
  predicate PromotesRetired(ring: Ring, valid: KeyId -> bool, op: KeyOp, now: int) {
    op.Promote? && Refusal(ring, valid, op, now).None? && ring.keys[op.id].retiredAt.Some?
  }

  lemma UnretiredStep(c: Crypto, valid: KeyId -> bool, ring: Ring, op: KeyOp, now: int)
    requires Sane(c, valid, ring) && ActiveIsUnretired(ring)
    ensures ActiveIsUnretired(Step(c, valid, ring, op, now)) <==> !PromotesRetired(ring, valid, op, now)
  {
    if Refusal(ring, valid, op, now).None? {
      match op
      case Bootstrap(_, _, _, _) =>
      case Stage(_, _, _, _) =>
      case Promote(_) =>
      case Retire(_) =>
      case Revoke(_) =>
    }
  }

  ghost predicate AlwaysUnretired(c: Crypto, valid: KeyId -> bool, ops: seq<(KeyOp, int)>) {
    forall k :: 0 <= k <= |ops| ==> ActiveIsUnretired(Run(c, valid, EMPTY, ops[..k]))
  }

  ghost predicate NeverPromotesRetired(c: Crypto, valid: KeyId -> bool, ops: seq<(KeyOp, int)>) {
    forall k :: 0 <= k < |ops| ==> !PromotesRetired(Run(c, valid, EMPTY, ops[..k]), valid, ops[k].0, ops[k].1)
  }

  lemma UnretiredPrefix(c: Crypto, valid: KeyId -> bool, ops: seq<(KeyOp, int)>)
    requires ops != []
    ensures var front := ops[..|ops| - 1];
            && (AlwaysUnretired(c, valid, ops) <==> AlwaysUnretired(c, valid, front) && ActiveIsUnretired(Run(c, valid, EMPTY, ops)))
            && (NeverPromotesRetired(c, valid, ops) <==>
                && NeverPromotesRetired(c, valid, front)
                && !PromotesRetired(Run(c, valid, EMPTY, front), valid, ops[|ops| - 1].0, ops[|ops| - 1].1))
  {
    var front := ops[..|ops| - 1];
    assert ops[..|ops|] == ops;
    assert forall k :: 0 <= k <= |front| ==> front[..k] == ops[..k];
    assert forall k :: 0 <= k < |front| ==> front[k] == ops[k];
  }

  /**
   Over every run of operations the active key is never a retired one, exactly when no allowed
   promotion of the run names a key that is retired by then.
   */
  lemma {:induction false} ActiveIsUnretiredIff(c: Crypto, valid: KeyId -> bool, ops: seq<(KeyOp, int)>)
    ensures AlwaysUnretired(c, valid, ops) <==> NeverPromotesRetired(c, valid, ops)
  {
    if ops != [] {
      var n := |ops| - 1;
      var front := ops[..n];
      UnretiredPrefix(c, valid, ops);
      ActiveIsUnretiredIff(c, valid, front);
      if AlwaysUnretired(c, valid, front) {
        assert front[..n] == front;
        RunIsSane(c, valid, front);
        UnretiredStep(c, valid, Run(c, valid, EMPTY, front), ops[n].0, ops[n].1);
      }
    }
  }

  // ----- persistence --------------------------------------------------------------------------------

  datatype Lifecycle = Lifecycle(active: Option<KeyId>, keys: map<KeyId, SigningKey>)

  /** The key namespace: the lifecycle file and one private key file per key id. */
  datatype Disk = Disk(lifecycle: Option<Lifecycle>, files: map<KeyId, PrivateKey>)

  /** The key files after persisting; the files of other ids are left as they are. */
  ghost predicate FilesFollow(ring: Ring, before: map<KeyId, PrivateKey>, after: map<KeyId, PrivateKey>) {
    && (forall id :: id in ring.keys ==> Get(after, id) == Get(ring.privates, id))
    && (forall id :: id !in ring.keys ==> Get(after, id) == Get(before, id))
  }

  predicate Loadable(c: Crypto, valid: KeyId -> bool, disk: Disk, id: KeyId)
    requires disk.lifecycle.Some? && id in disk.lifecycle.value.keys
  {
    var key := disk.lifecycle.value.keys[id];
    valid(id) && (key.revokedAt.None? ==> id in disk.files && c.pub(disk.files[id]) == key.publicKey)
  }

  function LoadedPrivates(keys: map<KeyId, SigningKey>, files: map<KeyId, PrivateKey>): map<KeyId, PrivateKey>
    requires forall id :: id in keys && keys[id].revokedAt.None? ==> id in files
  {
    map id | id in keys && keys[id].revokedAt.None? :: files[id]
  }

  function Load(c: Crypto, valid: KeyId -> bool, disk: Disk): Result<Ring, string> {
    if disk.lifecycle.None? then Ok(EMPTY)
    else
      var state := disk.lifecycle.value;
      if exists id <- state.keys.Keys :: !Loadable(c, valid, disk, id) then Err("governance key lifecycle is unreadable")
      else if state.active.Some? && state.active.value !in state.keys then Err("governance key lifecycle is unreadable")
      else 
        assert forall id :: id in state.keys ==> Loadable(c, valid, disk, id);
        Ok(Ring(state.keys, LoadedPrivates(state.keys, disk.files), state.active))
  }

  /**
   What is on disk is accepted exactly if every key has a well-formed id, every unrevoked one its
   matching private key and the active key is one of them; what is loaded is just that, and the
   private keys of revoked keys are left where they are.
   */
  lemma LoadAcceptsIff(c: Crypto, valid: KeyId -> bool, disk: Disk)
    ensures disk.lifecycle.None? ==> Load(c, valid, disk) == Ok(EMPTY)
    ensures disk.lifecycle.Some? ==>
              var state := disk.lifecycle.value;
              && (Load(c, valid, disk).Ok? <==>
                  && (forall id :: id in state.keys ==> valid(id))
                  && (forall id :: id in state.keys && state.keys[id].revokedAt.None? ==>
                        id in disk.files && c.pub(disk.files[id]) == state.keys[id].publicKey)
                  && (state.active.Some? ==> state.active.value in state.keys))
              && (Load(c, valid, disk).Ok? ==>
                  var ring := Load(c, valid, disk).value;
                  && ring.keys == state.keys && ring.active == state.active
                  && forall id :: Get(ring.privates, id) == if id in state.keys && state.keys[id].revokedAt.None?
                                                            then Get(disk.files, id) else None)
  {
    if disk.lifecycle.Some? {
      var state := disk.lifecycle.value;
      assert forall id :: id in state.keys.Keys <==> id in state.keys;
    }
  }

  /** Loading what was persisted is accepted and restores the same state, whatever was on disk before. */
  lemma LoadRestores(c: Crypto, valid: KeyId -> bool, ring: Ring, disk: Disk, before: map<KeyId, PrivateKey>)
    requires Sane(c, valid, ring) && FilesFollow(ring, before, disk.files)
    requires disk.lifecycle == Some(Lifecycle(ring.active, ring.keys))
    ensures Load(c, valid, disk) == Ok(ring)
  {
    forall id | id in ring.keys ensures Loadable(c, valid, disk, id) {
      assert Get(disk.files, id) == Get(ring.privates, id);
    }
    var privates := LoadedPrivates(ring.keys, disk.files);
    forall id | id in privates ensures id in ring.privates && privates[id] == ring.privates[id] {
      assert Get(disk.files, id) == Get(ring.privates, id);
    }
    assert privates == ring.privates;
  }

  /** The files that persisting `done` of the keys has produced so far. */
  ghost predicate FilesSoFar(ring: Ring, done: set<KeyId>, before: map<KeyId, PrivateKey>, now: map<KeyId, PrivateKey>) {
    && (forall id :: id in done && id in ring.keys ==> Get(now, id) == Get(ring.privates, id))
    && (forall id :: id !in done ==> Get(now, id) == Get(before, id))
  }

  class KeyStore {
    const crypto: Crypto
    const valid: KeyId -> bool
    var keys: map<KeyId, SigningKey>
    var privates: map<KeyId, PrivateKey>
    var active: Option<KeyId>
    var files: map<KeyId, PrivateKey>
    var lifecycle: Option<Lifecycle>

    ghost function View(): Ring
      reads this
    {
      Ring(keys, privates, active)
    }

    /** What is on disk loads back to what is in memory. */
    ghost predicate InStep()
      reads this
    {
      Load(crypto, valid, Disk(lifecycle, files)) == Ok(View())
    }

    constructor (crypto: Crypto, valid: KeyId -> bool)
      ensures this.crypto == crypto && this.valid == valid
      ensures View() == EMPTY && Sane(crypto, valid, View()) && InStep()
    {
      this.crypto := crypto;
      this.valid := valid;
      keys, privates, active, files, lifecycle := map[], map[], None, map[], None;
    }

    /** Private key files are written for unrevoked keys and removed for revoked ones; then the lifecycle file. */
    method Persist()
      requires Sane(crypto, valid, View())
      modifies this`files, this`lifecycle
      ensures FilesFollow(View(), old(files), files)
      ensures lifecycle == Some(Lifecycle(active, keys))
      ensures InStep()
    {
      var rest := keys.Keys;
      while rest != {}
        invariant rest <= keys.Keys
        invariant FilesSoFar(View(), keys.Keys - rest, old(files), files)
        decreases rest
      {
        var id :| id in rest;
        if keys[id].revokedAt.Some? {
          files := Pop(files, id);
        } else {
          files := files[id := privates[id]];
        }
        rest := rest - {id};
      }
      lifecycle := Some(Lifecycle(active, keys));
      assert FilesFollow(View(), old(files), files);
      LoadRestores(crypto, valid, View(), Disk(lifecycle, files), old(files));
    }

    method BootstrapActive(id: KeyId, notBefore: int, notAfter: int, generated: PrivateKey, now: int)
      returns (refused: Option<Reason>)
      requires Sane(crypto, valid, View()) && InStep()
      modifies this
      ensures refused == Refusal(old(View()), valid, Bootstrap(id, notBefore, notAfter, generated), now)
      ensures View() == Step(crypto, valid, old(View()), Bootstrap(id, notBefore, notAfter, generated), now)
      ensures Sane(crypto, valid, View()) && InStep()
    {
      if !valid(id) { return Some(KeyIdInvalid); }
      if notBefore >= notAfter { return Some(KeyWindowInvalid); }
      if active.Some? || id in keys || !(notBefore <= now < notAfter) { return Some(BootstrapInvalid); }
      StepIsSane(crypto, valid, View(), Bootstrap(id, notBefore, notAfter, generated), now);
      keys := keys[id := SigningKey(crypto.pub(generated), notBefore, notAfter, None, None)];
      privates := privates[id := generated];
      active := Some(id);
      Persist();
      return None;
    }

    method StageNext(id: KeyId, notBefore: int, notAfter: int, generated: PrivateKey, now: int)
      returns (refused: Option<Reason>)
      requires Sane(crypto, valid, View()) && InStep()
      modifies this
      ensures refused == Refusal(old(View()), valid, Stage(id, notBefore, notAfter, generated), now)
      ensures View() == Step(crypto, valid, old(View()), Stage(id, notBefore, notAfter, generated), now)
      ensures Sane(crypto, valid, View()) && InStep()
    {
      if !valid(id) { return Some(KeyIdInvalid); }
      if notBefore >= notAfter { return Some(KeyWindowInvalid); }
      if id in keys { return Some(StageInvalid); }
      StepIsSane(crypto, valid, View(), Stage(id, notBefore, notAfter, generated), now);
      keys := keys[id := SigningKey(crypto.pub(generated), notBefore, notAfter, None, None)];
      privates := privates[id := generated];
      Persist();
      return None;
    }

    method PromoteStaged(id: KeyId, now: int) returns (refused: Option<Reason>)
      requires Sane(crypto, valid, View()) && InStep()
      modifies this
      ensures refused == Refusal(old(View()), valid, Promote(id), now)
      ensures View() == Step(crypto, valid, old(View()), Promote(id), now)
      ensures Sane(crypto, valid, View()) && InStep()
    {
      if !valid(id) { return Some(KeyIdInvalid); }
      if id !in keys || keys[id].revokedAt.Some? || !(keys[id].notBefore <= now < keys[id].notAfter) { return Some(NotEligible); }
      StepIsSane(crypto, valid, View(), Promote(id), now);
      active := Some(id);
      Persist();
      return None;
    }

    method RetireKnown(id: KeyId, now: int) returns (refused: Option<Reason>)
      requires Sane(crypto, valid, View()) && InStep()
      modifies this
      ensures refused == Refusal(old(View()), valid, Retire(id), now)
      ensures View() == Step(crypto, valid, old(View()), Retire(id), now)
      ensures Sane(crypto, valid, View()) && InStep()
    {
      if !valid(id) { return Some(KeyIdInvalid); }
      if id !in keys || keys[id].revokedAt.Some? { return Some(CannotRetire); }
      StepIsSane(crypto, valid, View(), Retire(id), now);
      keys := keys[id := keys[id].(retiredAt := Some(now))];
      if active == Some(id) {
        active := None;
      }
      Persist();
      return None;
    }

    method RevokeKnown(id: KeyId, now: int) returns (refused: Option<Reason>)
      requires Sane(crypto, valid, View()) && InStep()
      modifies this
      ensures refused == Refusal(old(View()), valid, Revoke(id), now)
      ensures View() == Step(crypto, valid, old(View()), Revoke(id), now)
      ensures Sane(crypto, valid, View()) && InStep()
    {
      if !valid(id) { return Some(KeyIdInvalid); }
      if id !in keys || keys[id].revokedAt.Some? { return Some(CannotRevoke); }
      StepIsSane(crypto, valid, View(), Revoke(id), now);
      keys := keys[id := keys[id].(revokedAt := Some(now), retiredAt := Some(now))];
      privates := Pop(privates, id);
      if active == Some(id) {
        active := None;
      }
      Persist();
      return None;
    }
  }
}
