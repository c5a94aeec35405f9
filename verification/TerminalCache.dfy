/**
 The edge's cache of task terminals (backend/agent_server.py): a bounded dictionary whose
 entries live for an hour and which is pruned only from its front.  `EdgeTerminals` is the
 cache as the edge updates it; the functions above it are its specification, and the lemmas
 are about every history of operations against a clock that never runs backwards.
 */
module TerminalCache {
  import opened Common
  import opened OrderedDict

  const TERMINAL_LIMIT: nat := 1024
  const TERMINAL_TTL_SECONDS: real := 3600.0

  /** An identifier as far as the cache looks at it: which one it is, and how long its text is. */
  datatype Id = Id(key: nat, length: nat)

  /** The bounded evidence the edge keeps of a finished task. */
  datatype Kind = Done | Error | OtherKind(name: string)

  datatype Terminal = Terminal(kind: Kind, taskId: Id, cleanupComplete: bool, errorType: Option<string>)

  /** A task result as `_send_result` builds it; the optional fields may be absent or of another type. */
  datatype TaskResult =
    TaskResult(kind: Kind, taskId: Id, cleanupComplete: Option<bool>, errorType: Option<string>)

  datatype Cached = Cached(expiresAt: real, terminal: Terminal)

  type Cache = Dict<Id, Cached>

  // The asyncio task that runs a request: an identity.
  type TaskHandle = nat

  datatype Status = Running | Unknown | Known(terminal: Terminal)

  predicate IdentifierStart(c: char) {
    'A' <= c <= 'Z' || 'a' <= c <= 'z' || c == '_'
  }

  /** The error-type pattern: an identifier of at most 128 characters. */
  predicate SafeErrorType(s: string) {
    && 0 < |s| <= 128
    && IdentifierStart(s[0])
    && forall i :: 0 < i < |s| ==> IdentifierStart(s[i]) || '0' <= s[i] <= '9'
  }

  predicate Identifier(id: Id) {
    0 < id.length <= 256
  }

  predicate Cacheable(id: Id, result: TaskResult) {
    && Identifier(id)
    && (result.kind.Done? || result.kind.Error?)
    && result.taskId == id
    && result.cleanupComplete.Some?
  }

  function Redacted(id: Id, result: TaskResult): Terminal
    requires Cacheable(id, result)
  {
    var errorType := if result.errorType.Some? && SafeErrorType(result.errorType.value) then result.errorType else None;
    Terminal(result.kind, id, result.cleanupComplete.value, errorType)
  }

  function Live(now: real): Entry<Id, Cached> -> bool {
    (e: Entry<Id, Cached>) => e.val.expiresAt > now
  }

  /** How many entries the pruning loop pops: the expired ones that stand before the first live one. */
  function ExpiredPrefix(c: Cache, now: real): (k: nat)
    ensures k <= |c|
    ensures forall i :: 0 <= i < k ==> c[i].val.expiresAt <= now
    ensures k < |c| ==> c[k].val.expiresAt > now
  {
    if c == [] || c[0].val.expiresAt > now then 0
    else
      assert forall i :: 1 <= i < |c| ==> c[i] == c[1..][i - 1];
      ExpiredPrefix(c[1..], now) + 1
  }

  datatype Pruning = Front | Scan

  /** Popping expired entries off the front, or the reference: a scan of the whole dictionary. */
  function Prune(c: Cache, now: real, how: Pruning): (r: Cache) {
    match how
    case Front => c[ExpiredPrefix(c, now)..]
    case Scan => Keep(c, Live(now))
  }

  /** An error type is cached exactly if it is an identifier of 1 to 128 ASCII characters: no digit comes first. */
  lemma ErrorTypesAre(s: string)
    ensures SafeErrorType(s) <==>
            && 1 <= |s| <= 128
            && forall i :: 0 <= i < |s| ==>
                 'A' <= s[i] <= 'Z' || 'a' <= s[i] <= 'z' || s[i] == '_' || (i > 0 && '0' <= s[i] <= '9')
  {
  }

  // ----- histories ---------------------------------------------------------------------

  datatype Op =
    | Store(now: real, id: Id, result: TaskResult)
    | Restart(now: real, id: Id)
    | Query(now: real, id: Id)

  /** One operation, with the given way of pruning. */
  function Apply(c: Cache, op: Op, how: Pruning): Cache {
    match op
    case Store(now, id, result) =>
      if Cacheable(id, result) then
        Newest(Remove(Prune(c, now, how), id)
               + [Entry(id, Cached(now + TERMINAL_TTL_SECONDS, Redacted(id, result)))], TERMINAL_LIMIT)
      else c
    case Restart(_, id) => Remove(c, id)
    case Query(now, _) => Prune(c, now, how)
  }

  function Run(ops: seq<Op>, how: Pruning): Cache {
    if ops == [] then [] else Apply(Run(ops[..|ops| - 1], how), ops[|ops| - 1], how)
  }

  ghost predicate ClockMonotone(ops: seq<Op>) {
    forall i, j :: 0 <= i < j < |ops| ==> ops[i].now <= ops[j].now
  }

  ghost predicate SortedByExpiry(c: Cache) {
    forall i, j :: 0 <= i < j < |c| ==> c[i].val.expiresAt <= c[j].val.expiresAt
  }

  ghost predicate Wellformed(c: Cache, clock: real) {
    && Unique(c)
    && SortedByExpiry(c)
    && |c| <= TERMINAL_LIMIT
    && forall i :: 0 <= i < |c| ==> c[i].val.expiresAt <= clock + TERMINAL_TTL_SECONDS
  }

  lemma {:induction false} KeepSorted(c: Cache, p: Entry<Id, Cached> -> bool)
    requires SortedByExpiry(c)
    ensures SortedByExpiry(Keep(c, p))
  {
    if c != [] {
      var front := c[..|c| - 1];
      KeepSorted(front, p);
      KeepMembers(front, p);
      forall i | 0 <= i < |Keep(front, p)| ensures Keep(front, p)[i].val.expiresAt <= c[|c| - 1].val.expiresAt {
        assert Keep(front, p)[i] in front;
      }
    }
  }

  /** In a sorted cache everything behind the first live entry is live. */
  lemma LiveBehindPrefix(c: Cache, now: real)
    requires SortedByExpiry(c)
    ensures forall i :: 0 <= i < |c[ExpiredPrefix(c, now)..]| ==> Live(now)(c[ExpiredPrefix(c, now)..][i])
  {
  }

  /** On a sorted cache, popping from the front deletes exactly what a full scan deletes. */
  lemma FrontIsScan(c: Cache, now: real)
    requires SortedByExpiry(c)
    ensures Prune(c, now, Front) == Prune(c, now, Scan)
  {
    var k := ExpiredPrefix(c, now);
    assert c == c[..k] + c[k..];
    KeepAppend(c[..k], c[k..], Live(now));
    KeepNone(c[..k], Live(now));
    LiveBehindPrefix(c, now);
    KeepAll(c[k..], Live(now));
  }

  lemma KeepWellformed(c: Cache, p: Entry<Id, Cached> -> bool, clock: real, now: real)
    requires Wellformed(c, clock) && clock <= now
    ensures Wellformed(Keep(c, p), now)
  {
    KeepUnique(c, p);
    KeepSorted(c, p);
    KeepMembers(c, p);
    forall i | 0 <= i < |Keep(c, p)| ensures Keep(c, p)[i].val.expiresAt <= now + TERMINAL_TTL_SECONDS {
      assert Keep(c, p)[i] in c;
    }
  }

  lemma LaterWellformed(c: Cache, clock: real, now: real)
    requires Wellformed(c, clock) && clock <= now
    ensures Wellformed(c, now)
  {
  }

  lemma AppendWellformed(c: Cache, e: Entry<Id, Cached>, now: real)
    requires Wellformed(c, now) && e.val.expiresAt == now + TERMINAL_TTL_SECONDS
    requires forall i :: 0 <= i < |c| ==> c[i].key != e.key
    ensures Unique(c + [e])
    ensures SortedByExpiry(c + [e])
  {
    forall i, j | 0 <= i < j < |c + [e]|
      ensures (c + [e])[i].key != (c + [e])[j].key
      ensures (c + [e])[i].val.expiresAt <= (c + [e])[j].val.expiresAt
    {
      assert (c + [e])[i] == c[i];
    }
  }

  lemma SuffixWellformed(c: Cache, k: nat, now: real)
    requires Unique(c) && SortedByExpiry(c) && k <= |c| && |c| - k <= TERMINAL_LIMIT
    requires forall i :: 0 <= i < |c| ==> c[i].val.expiresAt <= now + TERMINAL_TTL_SECONDS
    ensures Wellformed(c[k..], now)
  {
  }

  lemma InsertWellformed(c: Cache, e: Entry<Id, Cached>, now: real)
    requires Wellformed(c, now) && e.val.expiresAt == now + TERMINAL_TTL_SECONDS
    requires forall i :: 0 <= i < |c| ==> c[i].key != e.key
    ensures Wellformed(Newest(c + [e], TERMINAL_LIMIT), now)
  {
    AppendWellformed(c, e, now);
    var all := c + [e];
    forall i | 0 <= i < |all| ensures all[i].val.expiresAt <= now + TERMINAL_TTL_SECONDS {
      assert i < |c| ==> all[i] == c[i];
    }
    var k := |all| - |Newest(all, TERMINAL_LIMIT)|;
    assert all[k..] == Newest(all, TERMINAL_LIMIT);
    SuffixWellformed(all, k, now);
  }

  lemma StoreWellformed(c: Cache, now: real, id: Id, t: Terminal)
    requires Wellformed(c, now)
    ensures Wellformed(Newest(Remove(c, id) + [Entry(id, Cached(now + TERMINAL_TTL_SECONDS, t))], TERMINAL_LIMIT), now)
  {
    KeepWellformed(c, Other(id), now, now);
    KeepMembers(c, Other(id));
    var kept := Remove(c, id);
    forall i | 0 <= i < |kept| ensures kept[i].key != id {
      assert kept[i] in kept;
    }
    InsertWellformed(kept, Entry(id, Cached(now + TERMINAL_TTL_SECONDS, t)), now);
  }

  /**
   A `done` or `error` result of its own task with a cleanup verdict, under a bounded id, becomes the
   newest entry for an hour, and keeps its kind, its verdict and a safe error type; nothing else is cached.
   */
  lemma ResultIsCached(c: Cache, now: real, id: Id, result: TaskResult, how: Pruning)
    ensures var after := Apply(c, Store(now, id, result), how);
            if 0 < id.length <= 256 && result.kind in {Done, Error} && result.taskId == id && result.cleanupComplete.Some? then
              && after != []
              && after[|after| - 1] == Entry(id, Cached(now + 3600.0, Terminal(result.kind, id, result.cleanupComplete.value,
                   if result.errorType.Some? && SafeErrorType(result.errorType.value) then result.errorType else None)))
            else after == c
  {
  }

  lemma ApplyWellformed(c: Cache, op: Op, clock: real)
    requires Wellformed(c, clock) && clock <= op.now
    ensures Wellformed(Apply(c, op, Scan), op.now)
  {
    match op
    case Restart(now, id) => KeepWellformed(c, Other(id), clock, now);
    case Query(now, _) => KeepWellformed(c, Live(now), clock, now);
    case Store(now, id, result) => ApplyStoreWellformed(c, now, id, result, clock);
  }

  lemma ApplyStoreWellformed(c: Cache, now: real, id: Id, result: TaskResult, clock: real)
    requires Wellformed(c, clock) && clock <= now
    ensures Wellformed(Apply(c, Store(now, id, result), Scan), now)
  {
    if Cacheable(id, result) {
      KeepWellformed(c, Live(now), clock, now);
      StoreWellformed(Keep(c, Live(now)), now, id, Redacted(id, result));
    } else {
      LaterWellformed(c, clock, now);
    }
  }

  /**
   Over every history with a non-decreasing clock the cache stays sorted by expiry and
   within its bound, and it is at all times the cache that full scans would have produced.
   */
  lemma {:induction false} FrontPruningIsExact(ops: seq<Op>, clock: real)
    requires ClockMonotone(ops)
    requires ops != [] ==> clock == ops[|ops| - 1].now
    ensures Wellformed(Run(ops, Front), clock)
    ensures Run(ops, Front) == Run(ops, Scan)
  {
    if ops != [] {
      var before := ops[..|ops| - 1];
      var earlier := if before == [] then clock else before[|before| - 1].now;
      FrontPruningIsExact(before, earlier);
      FrontIsScan(Run(before, Front), clock);
      ApplyWellformed(Run(before, Front), ops[|ops| - 1], earlier);
    }
  }

  // ----- what a status query can see -----------------------------------------------------

  /** The terminal last stored for `id` and not followed by a restart of `id`, with its expiry. */
  function Latest(ops: seq<Op>, id: Id): Option<Cached> {
    if ops == [] then None
    else
      var op := ops[|ops| - 1];
      match op
      case Store(now, i, result) =>
        if i == id && Cacheable(id, result) then Some(Cached(now + TERMINAL_TTL_SECONDS, Redacted(id, result)))
        else Latest(ops[..|ops| - 1], id)
      case Restart(_, i) => if i == id then None else Latest(ops[..|ops| - 1], id)
      case Query(_, _) => Latest(ops[..|ops| - 1], id)
  }

  /** How many terminals were stored after the one that `Latest` names. */
  function StoredSince(ops: seq<Op>, id: Id): nat {
    if ops == [] then 0
    else
      var op := ops[|ops| - 1];
      if op.Store? && Cacheable(op.id, op.result) then
        if op.id == id then 0 else StoredSince(ops[..|ops| - 1], id) + 1
      else StoredSince(ops[..|ops| - 1], id)
  }

  /** Storing a terminal of the task itself starts the count again, storing another one raises it, and nothing else does. */
  lemma StoredSinceCounts(ops: seq<Op>, op: Op, id: Id)
    ensures StoredSince(ops + [op], id)
            == if !op.Store? || !Cacheable(op.id, op.result) then StoredSince(ops, id)
               else if op.id == id then 0 else StoredSince(ops, id) + 1
  {
    assert (ops + [op])[..|ops + [op]| - 1] == ops;
  }

  /** The entry for `id` is `cached`, and at most `newer` entries follow it. */
  ghost predicate HeldBefore(c: Cache, id: Id, cached: Cached, newer: nat) {
    exists i :: 0 <= i < |c| && c[i] == Entry(id, cached) && |c| - 1 - i <= newer
  }

  lemma RemoveKeepsHeld(c: Cache, id: Id, other: Id, cached: Cached, newer: nat)
    requires HeldBefore(c, id, cached, newer) && other != id
    ensures HeldBefore(Remove(c, other), id, cached, newer)
  {
    var p := Other(other);
    var i :| 0 <= i < |c| && c[i] == Entry(id, cached) && |c| - 1 - i <= newer;
    assert c == c[..i] + [c[i]] + c[i + 1..];
    KeepAppend(c[..i] + [c[i]], c[i + 1..], p);
    KeepAppend(c[..i], [c[i]], p);
    KeepAll([c[i]], p);
    assert Remove(c, other)[|Keep(c[..i], p)|] == Entry(id, cached);
  }

  lemma PruneKeepsHeld(c: Cache, id: Id, cached: Cached, newer: nat, now: real)
    requires HeldBefore(c, id, cached, newer) && now < cached.expiresAt
    ensures HeldBefore(Prune(c, now, Front), id, cached, newer)
  {
    var k := ExpiredPrefix(c, now);
    var i :| 0 <= i < |c| && c[i] == Entry(id, cached) && |c| - 1 - i <= newer;
    assert c[k..][i - k] == Entry(id, cached);
  }

  lemma StoreKeepsHeld(c: Cache, id: Id, cached: Cached, newer: nat, e: Entry<Id, Cached>)
    requires HeldBefore(c, id, cached, newer) && newer + 1 < TERMINAL_LIMIT
    ensures HeldBefore(Newest(c + [e], TERMINAL_LIMIT), id, cached, newer + 1)
  {
    var i :| 0 <= i < |c| && c[i] == Entry(id, cached) && |c| - 1 - i <= newer;
    var all := c + [e];
    var r := Newest(all, TERMINAL_LIMIT);
    assert r[i - (|all| - |r|)] == all[i];
  }

  /** An operation on another task keeps an unexpired entry, behind which at most one more is stored. */
  lemma OpKeepsHeld(c: Cache, op: Op, id: Id, cached: Cached, newer: nat)
    requires HeldBefore(c, id, cached, newer) && op.now < cached.expiresAt
    requires op.Restart? || (op.Store? && Cacheable(op.id, op.result)) ==> op.id != id
    requires op.Store? && Cacheable(op.id, op.result) ==> newer + 1 < TERMINAL_LIMIT
    ensures HeldBefore(Apply(c, op, Front), id, cached, if op.Store? && Cacheable(op.id, op.result) then newer + 1 else newer)
  {
    PruneKeepsHeld(c, id, cached, newer, op.now);
    if op.Restart? {
      RemoveKeepsHeld(c, id, op.id, cached, newer);
    } else if op.Store? && Cacheable(op.id, op.result) {
      var pruned := Prune(c, op.now, Front);
      RemoveKeepsHeld(pruned, id, op.id, cached, newer);
      StoreKeepsHeld(Remove(pruned, op.id), id, cached, newer,
                     Entry(op.id, Cached(op.now + TERMINAL_TTL_SECONDS, Redacted(op.id, op.result))));
    }
  }

  /** Soundness: a cached entry is always the latest terminal of that task since its last start. */
  lemma {:induction false} NeverStale(ops: seq<Op>, id: Id, cached: Cached)
    requires Entry(id, cached) in Run(ops, Front)
    ensures Latest(ops, id) == Some(cached)
  {
    var op := ops[|ops| - 1];
    var c := Run(ops[..|ops| - 1], Front);
    var pruned := Prune(c, op.now, Front);
    assert forall e :: e in pruned ==> e in c;
    KeepMembers(pruned, Other(op.id));
    KeepMembers(c, Other(op.id));
    if op.Store? && Cacheable(op.id, op.result) {
      var all := Remove(pruned, op.id)
        + [Entry(op.id, Cached(op.now + TERMINAL_TTL_SECONDS, Redacted(op.id, op.result)))];
      assert forall e :: e in Newest(all, TERMINAL_LIMIT) ==> e in all;
      if id != op.id {
        NeverStale(ops[..|ops| - 1], id, cached);
      }
    } else {
      NeverStale(ops[..|ops| - 1], id, cached);
    }
  }

  /** A query leaves nothing in the cache that has expired, and nothing live is lost by it. */
  lemma {:induction false} QueryForgetsTheExpired(ops: seq<Op>, now: real, id: Id, e: Entry<Id, Cached>)
    requires ClockMonotone(ops + [Query(now, id)])
    ensures e in Run(ops + [Query(now, id)], Front) <==> e in Run(ops, Front) && now < e.val.expiresAt
  {
    var all := ops + [Query(now, id)];
    assert all[..|all| - 1] == ops && all[|all| - 1] == Query(now, id);
    forall i, j | 0 <= i < j < |ops| ensures ops[i].now <= ops[j].now { assert all[i] == ops[i] && all[j] == ops[j]; }
    var clock := if ops == [] then now else ops[|ops| - 1].now;
    if ops != [] {
      assert all[|ops| - 1] == ops[|ops| - 1];
    }
    FrontPruningIsExact(ops, clock);
    FrontIsScan(Run(ops, Front), now);
    KeepMembers(Run(ops, Front), Live(now));
  }

  /**
   Retention: the latest terminal of a task stays visible until it expires, unless the task
   is restarted or at least 1024 other terminals are stored after it.
   */
  lemma {:induction false} RetainedUntilExpiry(ops: seq<Op>, id: Id)
    requires ClockMonotone(ops) && ops != []
    requires Latest(ops, id).Some? && ops[|ops| - 1].now < Latest(ops, id).value.expiresAt
    requires StoredSince(ops, id) < TERMINAL_LIMIT
    ensures HeldBefore(Run(ops, Front), id, Latest(ops, id).value, StoredSince(ops, id))
    ensures Entry(id, Latest(ops, id).value) in Run(ops, Front)
  {
    var op, before := ops[|ops| - 1], ops[..|ops| - 1];
    var c := Run(before, Front);
    var cached := Latest(ops, id).value;
    if op.Store? && op.id == id && Cacheable(id, op.result) {
      var all := Remove(Prune(c, op.now, Front), id) + [Entry(id, cached)];
      assert Newest(all, TERMINAL_LIMIT)[|Newest(all, TERMINAL_LIMIT)| - 1] == Entry(id, cached);
    } else {
      assert before != [] && before[|before| - 1].now <= op.now;
      RetainedUntilExpiry(before, id);
      OpKeepsHeld(c, op, id, cached, StoredSince(before, id));
    }
  }

  /** What a status query can answer was stored, and its task has not been started again since. */
  lemma {:induction false} LatestWasStored(ops: seq<Op>, id: Id)
    requires Latest(ops, id).Some?
    ensures exists i :: 0 <= i < |ops| && StoredAt(ops, i, id, Latest(ops, id).value)
  {
    var n := |ops| - 1;
    var front, op := ops[..n], ops[n];
    if op.Store? && op.id == id && Cacheable(id, op.result) {
      assert StoredAt(ops, n, id, Latest(ops, id).value);
    } else {
      LatestWasStored(front, id);
      var i :| 0 <= i < |front| && StoredAt(front, i, id, Latest(front, id).value);
      assert forall j :: 0 <= j < n ==> front[j] == ops[j];
      assert StoredAt(ops, i, id, Latest(ops, id).value);
    }
  }

  lemma CachedWasStored(ops: seq<Op>, id: Id)
    requires Find(Run(ops, Front), id).Some?
    ensures exists i :: 0 <= i < |ops| && StoredAt(ops, i, id, Find(Run(ops, Front), id).value)
  {
    NeverStale(ops, id, Find(Run(ops, Front), id).value);
    LatestWasStored(ops, id);
  }

  ghost predicate StoredAt(ops: seq<Op>, i: int, id: Id, cached: Cached) {
    && 0 <= i < |ops| && ops[i].Store? && ops[i].id == id && Cacheable(id, ops[i].result)
    && cached == Cached(ops[i].now + TERMINAL_TTL_SECONDS, Redacted(id, ops[i].result))
    && forall j :: i < j < |ops| ==> !(ops[j].Restart? && ops[j].id == id)
  }

  // ----- the cache as the edge updates it ---------------------------------------------------

  class EdgeTerminals {
    var terminals: Cache
    var active: map<Id, TaskHandle>

    var done: set<TaskHandle>

    constructor ()
      ensures terminals == [] && active == map[] && done == {}
    {
      terminals, active, done := [], map[], {};
    }

    /** The task registered for `id` is still running. */
    predicate IsRunning(id: Id)
      reads this
    {
      id in active && active[id] !in done
    }

    method PruneExpired(now: real)
      modifies this`terminals
      ensures terminals == Prune(old(terminals), now, Front)
    {
      while terminals != []
        invariant Prune(terminals, now, Front) == Prune(old(terminals), now, Front)
        decreases |terminals|
      {
        if terminals[0].val.expiresAt > now { return; }
        terminals := terminals[1..];
      }
    }

    method DropOldest()
      modifies this`terminals
      ensures terminals == Newest(old(terminals), TERMINAL_LIMIT)
    {
      while |terminals| > TERMINAL_LIMIT
        invariant Newest(terminals, TERMINAL_LIMIT) == Newest(old(terminals), TERMINAL_LIMIT)
      {
        terminals := terminals[1..];
      }
    }

    method CacheTerminal(id: Id, result: TaskResult, now: real)
      modifies this`terminals
      ensures terminals == Apply(old(terminals), Store(now, id, result), Front)
    {
      if !Cacheable(id, result) { return; }
      PruneExpired(now);
      terminals := Remove(terminals, id);
      terminals := terminals + [Entry(id, Cached(now + TERMINAL_TTL_SECONDS, Redacted(id, result)))];
      DropOldest();
    }

    /** A start clears the previous terminal of the same task and puts its own handle in place. */
    method StartTask(id: Id, task: TaskHandle, now: real)
      modifies this`terminals, this`active
      ensures terminals == Apply(old(terminals), Restart(now, id), Front)
      ensures active == old(active)[id := task]
    {
      terminals := Remove(terminals, id);
      active := active[id := task];
    }

    /** A task ends before its callback has run: from then on it does not count as running, whatever it is registered for. */
    method CompleteTask(task: TaskHandle)
      modifies this`done
      ensures done == old(done) + {task}
      ensures forall id :: IsRunning(id) <==> old(IsRunning(id)) && active[id] != task
    {
      done := done + {task};
    }

    /** A finished task only forgets itself, not a later start under the same id. */
    method FinishTask(id: Id, task: TaskHandle)
      modifies this`active
      ensures active == if Get(old(active), id) == Some(task) then Pop(old(active), id) else old(active)
    {
      if id in active && active[id] == task {
        active := Pop(active, id);
      }
    }

    /** A query with an identifier out of bounds is dropped without a trace. */
    method QueryStatus(requestId: Id, id: Id, now: real) returns (answer: Option<Status>)
      modifies this`terminals
      ensures answer.Some? <==> Identifier(requestId) && Identifier(id)
      ensures terminals == if answer.Some? then Apply(old(terminals), Query(now, id), Front) else old(terminals)
      ensures answer.Some? ==>
                var status, cached := answer.value, Find(terminals, id);
                && (status == Running <==> IsRunning(id) && (cached.None? || !cached.value.terminal.cleanupComplete))
                && (status.Known? ==> cached.Some? && status.terminal == cached.value.terminal)
                && (status == Unknown <==> !IsRunning(id) && cached.None?)
    {
      if !Identifier(requestId) || !Identifier(id) {
        return None;
      }
      PruneExpired(now);
      var cached := Find(terminals, id);
      if cached.Some? && cached.value.terminal.cleanupComplete {
        answer := Some(Known(cached.value.terminal));
      } else if id in active && active[id] !in done {
        answer := Some(Running);
      } else if cached.Some? {
        answer := Some(Known(cached.value.terminal));
      } else {
        answer := Some(Unknown);
      }
    }
  }
}
