/**
 The lease protocol of managed acquisitions (backend/acquisition/runner.py and the requests of
 backend/services/acquisition_service.py): one durable row and the workers, sweepers and
 requests that update it.  Claim, heartbeat, requeue and fail are single conditional updates.
 The finish of a worker, a cancel request and the queueing of a new submission each read the row,
 decide, and commit in a later step, keyed by the row alone and writing only the columns they
 changed.  Times are microseconds.
 */
module AcquisitionLease {
  import opened Common

  type Worker = nat
  type SweepId = nat
  type RequestId = nat

  const LEASE := 30_000_000

  datatype Status = Accepted | Queued | Running | Succeeded | Failed | Cancelled

  datatype Row = Row(status: Status, owner: Option<Worker>, expires: Option<int>)

  /** What a sweep selected: the status it saw and the clock it read before looking. */
  datatype Seen = Seen(status: Status, now: int)

  // ----- the conditional updates ---------------------------------------------------------

  predicate OwnedBy(row: Row, w: Worker) {
    row.status.Running? && row.owner == Some(w)
  }

  function Released(status: Status): Row {
    Row(status, None, None)
  }

  function Claimed(row: Row, w: Worker, now: int): Row {
    if row.status.Queued? then Row(Running, Some(w), Some(now + LEASE)) else row
  }

  function Beaten(row: Row, w: Worker, now: int): Row {
    if OwnedBy(row, w) then row.(expires := Some(now + LEASE)) else row
  }

  function FailedBy(row: Row, w: Worker): Row {
    if OwnedBy(row, w) then Released(Failed) else row
  }

  predicate Expired(row: Row, now: int) {
    row.status.Running? && (row.expires.None? || row.expires.value <= now)
  }

  /** The statuses a sweep selects for requeueing. */
  predicate Selected(row: Row, now: int) {
    row.status.Accepted? || Expired(row, now)
  }

  function Requeued(row: Row, seen: Seen): Row {
    if (if seen.status.Running? then Expired(row, seen.now) else row.status.Accepted?)
    then Released(Queued) else row
  }

  // ----- read, decide, commit --------------------------------------------------------------

  /** A commit writes the columns in which the object differs from the row that was read, and no others. */
  function Overwritten(row: Row, seen: Row, target: Row): Row {
    Row(if target.status != seen.status then target.status else row.status,
        if target.owner != seen.owner then target.owner else row.owner,
        if target.expires != seen.expires then target.expires else row.expires)
  }

  predicate Cancellable(status: Status) {
    status.Accepted? || status.Queued? || status.Running?
  }

  /** A request between its read and its commit. */
  datatype Edit = Cancelling(seen: Row) | Queueing(seen: Row)

  function Committed(row: Row, edit: Edit): Row {
    match edit
    case Cancelling(seen) => Overwritten(row, seen, Released(Cancelled))
    case Queueing(seen) => Overwritten(row, seen, seen.(status := Queued))
  }

  function Outcome(success: bool): Status {
    if success then Succeeded else Failed
  }

  // ----- the transition system -------------------------------------------------------------

  /** `Checked` is a worker between the read that saw its own lease and the commit of its result. */
  datatype Stage = Working | Checked(seen: Row) | Gone

  /** `asked` says that the submission has read its new row in order to queue it, which it does once. */
  datatype State = State(row: Row, stages: map<Worker, Stage>, sweeps: map<SweepId, Seen>,
                         edits: map<RequestId, Edit>, asked: bool)

  datatype Label =
    | QueueRead(r: RequestId)
    | CancelRead(r: RequestId)
    | Commit(r: RequestId)
    | Claim(w: Worker, now: int)
    | Beat(w: Worker, now: int)
    | Fail(w: Worker)
    | Check(w: Worker)
    | Write(w: Worker, success: bool)
    | GiveUp(w: Worker)
    | SweepRead(sid: SweepId, now: int)
    | SweepUpdate(sid: SweepId)

  const START: State := State(Row(Accepted, None, None), map[], map[], map[], false)

  predicate At(s: State, w: Worker, stage: Stage) {
    w in s.stages && s.stages[w] == stage
  }

  /** The worker has seen its own lease and has yet to commit its result. */
  predicate Finishing(s: State, w: Worker) {
    w in s.stages && s.stages[w].Checked?
  }

  function RequestStep(s: State, l: Label): State
    requires l.QueueRead? || l.CancelRead? || l.Commit?
  {
    match l
    case QueueRead(r) =>
      if s.asked || r in s.edits then s
      else if s.row.status.Accepted? then s.(asked := true, edits := s.edits[r := Queueing(s.row)])
      else s.(asked := true)
    case CancelRead(r) =>
      if r !in s.edits && Cancellable(s.row.status) then s.(edits := s.edits[r := Cancelling(s.row)]) else s
    case Commit(r) =>
      if r in s.edits then s.(row := Committed(s.row, s.edits[r]), edits := s.edits - {r}) else s
  }

  /** A worker's lease owner string is a fresh UUID, so a claim is always made by a new worker. */
  function WorkerStep(s: State, l: Label): State
    requires l.Claim? || l.Beat? || l.Fail? || l.Check? || l.Write? || l.GiveUp?
  {
    match l
    case Claim(w, now) =>
      if w in s.stages then s
      else s.(row := Claimed(s.row, w, now), stages := s.stages[w := if s.row.status.Queued? then Working else Gone])
    case Beat(w, now) => if At(s, w, Working) then s.(row := Beaten(s.row, w, now)) else s
    case Fail(w) =>
      if At(s, w, Working) then s.(row := FailedBy(s.row, w), stages := s.stages[w := Gone]) else s
    case Check(w) =>
      if At(s, w, Working) then s.(stages := s.stages[w := if OwnedBy(s.row, w) then Checked(s.row) else Gone]) else s
    case Write(w, success) =>
      if Finishing(s, w)
      then s.(row := Overwritten(s.row, s.stages[w].seen, Released(Outcome(success))), stages := s.stages[w := Gone])
      else s
    case GiveUp(w) => if At(s, w, Working) then s.(stages := s.stages[w := Gone]) else s
  }

  function Step(s: State, l: Label): State {
    match l
    case SweepRead(sid, now) =>
      if Selected(s.row, now) then s.(sweeps := s.sweeps[sid := Seen(s.row.status, now)]) else s
    case SweepUpdate(sid) =>
      if sid in s.sweeps then s.(row := Requeued(s.row, s.sweeps[sid]), sweeps := s.sweeps - {sid}) else s
    case QueueRead(_) => RequestStep(s, l)
    case CancelRead(_) => RequestStep(s, l)
    case Commit(_) => RequestStep(s, l)
    case _ => WorkerStep(s, l)
  }

  function Run(s: State, ls: seq<Label>): State {
    if ls == [] then s else Step(Run(s, ls[..|ls| - 1]), ls[|ls| - 1])
  }

  /** No step of the run is of kind `p`. */
  ghost predicate Never(p: (State, Label) -> bool, ls: seq<Label>) {
    forall k :: 0 <= k < |ls| ==> !p(Run(START, ls[..k]), ls[k])
  }

  lemma RunOne(s: State, l: Label)
    ensures Run(s, [l]) == Step(s, l)
  {
    assert [l][..0] == [];
    assert Run(s, [l][..0]) == s;
  }

  // ----- what every run keeps -----------------------------------------------------------------

  /** Owner and expiry go together, a RUNNING row has them, and an ACCEPTED one has not. */
  predicate Sound(row: Row) {
    && (row.owner.Some? <==> row.expires.Some?)
    && (row.status.Running? ==> row.owner.Some?)
    && (row.status.Accepted? ==> row.owner.None?)
  }

  ghost predicate Held(s: State) {
    && Sound(s.row)
    && (s.row.owner.Some? ==> s.row.owner.value in s.stages)
    && (forall w :: Finishing(s, w) ==> Sound(s.stages[w].seen) && OwnedBy(s.stages[w].seen, w))
    && (forall r :: r in s.edits ==> Sound(s.edits[r].seen) && Cancellable(s.edits[r].seen.status))
    && (forall r :: r in s.edits && s.edits[r].Queueing? ==> s.edits[r].seen.status.Accepted?)
  }

  lemma RequestHeld(s: State, l: Label)
    requires Held(s) && (l.QueueRead? || l.CancelRead? || l.Commit?)
    ensures Held(RequestStep(s, l))
  {
    assert l.Commit? && l.r in s.edits ==> Sound(Committed(s.row, s.edits[l.r]));
  }

  /** A finishing worker saw its lease, so its commit writes every column. */
  lemma WriteReleases(s: State, w: Worker, success: bool)
    requires Held(s) && Finishing(s, w)
    ensures Step(s, Write(w, success)).row == Released(Outcome(success))
  {
  }

  lemma WorkerHeld(s: State, l: Label)
    requires Held(s) && (l.Claim? || l.Beat? || l.Fail? || l.Check? || l.Write? || l.GiveUp?)
    ensures Held(WorkerStep(s, l))
  {
    var r := WorkerStep(s, l);
    forall w | Finishing(r, w) ensures Sound(r.stages[w].seen) && OwnedBy(r.stages[w].seen, w) {
      assert Finishing(s, w) || l == Check(w);
    }
    if l.Write? && Finishing(s, l.w) {
      WriteReleases(s, l.w, l.success);
    }
  }

  lemma StepHeld(s: State, l: Label)
    requires Held(s)
    ensures Held(Step(s, l))
  {
    if l.QueueRead? || l.CancelRead? || l.Commit? {
      RequestHeld(s, l);
    } else if !l.SweepRead? && !l.SweepUpdate? {
      WorkerHeld(s, l);
    } else {
      assert forall w :: Finishing(Step(s, l), w) ==> Finishing(s, w);
    }
  }

  lemma {:induction false} RunHeld(ls: seq<Label>)
    ensures Held(Run(START, ls))
  {
    if ls != [] {
      RunHeld(ls[..|ls| - 1]);
      StepHeld(Run(START, ls[..|ls| - 1]), ls[|ls| - 1]);
    }
  }

  // ----- RUNNING exactly when leased -----------------------------------------------------------

  /** The row is RUNNING exactly when it has a lease owner and an expiry. */
  predicate Leased(row: Row) {
    (row.status.Running? <==> row.owner.Some?) && (row.status.Running? <==> row.expires.Some?)
  }

  /** A request commits over a RUNNING row that it read before the row was leased, and leaves the lease in place. */
  predicate Strands(s: State, l: Label) {
    l.Commit? && l.r in s.edits && s.row.status.Running? && s.edits[l.r].seen.owner.None?
  }

  lemma StepLeasedIff(s: State, l: Label)
    requires Held(s) && Leased(s.row)
    ensures Leased(Step(s, l).row) <==> !Strands(s, l)
  {
    if l.Write? && Finishing(s, l.w) {
      WriteReleases(s, l.w, l.success);
    }
  }

  ghost predicate AlwaysLeased(ls: seq<Label>) {
    forall k :: 0 <= k <= |ls| ==> Leased(Run(START, ls[..k]).row)
  }

  lemma RunStep(ls: seq<Label>, k: nat)
    requires k < |ls|
    ensures Run(START, ls[..k + 1]) == Step(Run(START, ls[..k]), ls[k])
  {
    assert ls[..k + 1][..k] == ls[..k];
  }

  lemma {:induction false} LeasedUpTo(ls: seq<Label>, k: nat)
    requires k <= |ls| && Never(Strands, ls)
    ensures Leased(Run(START, ls[..k]).row)
  {
    if k > 0 {
      LeasedUpTo(ls, k - 1);
      RunHeld(ls[..k - 1]);
      RunStep(ls, k - 1);
      StepLeasedIff(Run(START, ls[..k - 1]), ls[k - 1]);
    }
  }

  /**
   A RUNNING row always has an owner.  It is the only one that has, throughout a run, exactly
   when no request of the run commits over a lease that was taken after its read.
   */
  lemma {:induction false} RunningIffLeased(ls: seq<Label>)
    ensures Run(START, ls).row.status.Running? ==> Run(START, ls).row.owner.Some?
    ensures AlwaysLeased(ls) <==> Never(Strands, ls)
  {
    RunHeld(ls);
    if Never(Strands, ls) {
      forall k | 0 <= k <= |ls| ensures Leased(Run(START, ls[..k]).row) { LeasedUpTo(ls, k); }
    }
    if AlwaysLeased(ls) {
      forall k | 0 <= k < |ls| ensures !Strands(Run(START, ls[..k]), ls[k]) {
        RunHeld(ls[..k]);
        RunStep(ls, k);
        assert Leased(Run(START, ls[..k + 1]).row) && Leased(Run(START, ls[..k]).row);
        StepLeasedIff(Run(START, ls[..k]), ls[k]);
      }
    }
  }

  // ----- a requeued worker is fenced ------------------------------------------------------------

  predicate By(l: Label, w: Worker) {
    (l.Claim? || l.Beat? || l.Fail? || l.Check? || l.Write? || l.GiveUp?) && l.w == w
  }

  /** Step `l`, of a sweep or of a late request, takes the row away from worker `w` and puts it back into the queue. */
  predicate Requeues(s: State, l: Label, w: Worker) {
    OwnedBy(s.row, w) && Step(s, l).row.status.Queued?
  }

  predicate Fenced(s: State, w: Worker) {
    w in s.stages && !s.stages[w].Checked? && !OwnedBy(s.row, w)
  }

  lemma FencedStep(s: State, l: Label, w: Worker)
    requires Held(s) && Fenced(s, w)
    ensures Fenced(Step(s, l), w)
    ensures By(l, w) ==> Step(s, l).row == s.row
  {
    if l.Write? && Finishing(s, l.w) {
      WriteReleases(s, l.w, l.success);
    }
  }

  lemma {:induction false} FencedForEver(s: State, ls: seq<Label>, w: Worker)
    requires Held(s) && Fenced(s, w)
    ensures Held(Run(s, ls)) && Fenced(Run(s, ls), w)
  {
    if ls != [] {
      FencedForEver(s, ls[..|ls| - 1], w);
      StepHeld(Run(s, ls[..|ls| - 1]), ls[|ls| - 1]);
      FencedStep(Run(s, ls[..|ls| - 1]), ls[|ls| - 1], w);
    }
  }

  /** No later step of worker `w` changes the row. */
  ghost predicate Harmless(s: State, w: Worker) {
    forall more: seq<Label>, l: Label :: By(l, w) ==> Step(Run(s, more), l).row == Run(s, more).row
  }

  lemma FencedIsHarmless(s: State, w: Worker)
    requires Held(s) && Fenced(s, w)
    ensures Harmless(s, w)
  {
    forall more: seq<Label>, l: Label | By(l, w) ensures Step(Run(s, more), l).row == Run(s, more).row {
      FencedForEver(s, more, w);
      FencedStep(Run(s, more), l, w);
    }
  }

  lemma FinishingIsNotHarmless(s: State, w: Worker)
    requires Held(s) && Finishing(s, w) && s.row.status.Queued?
    ensures !Harmless(s, w)
  {
    assert Run(s, []) == s;
    WriteReleases(s, w, true);
    assert By(Write(w, true), w) && Step(Run(s, []), Write(w, true)).row != Run(s, []).row;
  }

  /**
   A worker whose row is requeued can never change that row again, exactly when the requeue
   did not fall between its finishing check and its commit.
   */
  lemma RequeuedWorkerIsFenced(ls: seq<Label>, l: Label, w: Worker)
    requires Requeues(Run(START, ls), l, w)
    ensures Harmless(Step(Run(START, ls), l), w) <==> !Finishing(Run(START, ls), w)
  {
    RunHeld(ls);
    StepHeld(Run(START, ls), l);
    var s := Step(Run(START, ls), l);
    RequeueKeepsStage(Run(START, ls), l, w);
    if Finishing(s, w) {
      FinishingIsNotHarmless(s, w);
    } else {
      FencedIsHarmless(s, w);
    }
  }

  lemma RequeueKeepsStage(s: State, l: Label, w: Worker)
    requires Held(s) && Requeues(s, l, w)
    ensures l.SweepUpdate? || l.Commit?
    ensures Step(s, l).stages == s.stages && w in s.stages
  {
    if l.Write? && Finishing(s, l.w) {
      WriteReleases(s, l.w, l.success);
    }
  }

  // ----- final statuses ---------------------------------------------------------------------------

  predicate Final(status: Status) {
    status.Succeeded? || status.Failed? || status.Cancelled?
  }

  ghost predicate NobodyFinishing(s: State) {
    forall w :: !Finishing(s, w)
  }

  /** The commit of this request would leave the row as it is: a repeated cancellation with no lease left to clear. */
  predicate Idle(row: Row, edit: Edit) {
    edit.Cancelling? && row.status.Cancelled? && (edit.seen.owner.Some? ==> row.owner.None?)
  }

  /** No worker and no request is between its read and a commit that would change the row. */
  ghost predicate NothingPending(s: State) {
    NobodyFinishing(s) && forall r :: r in s.edits ==> Idle(s.row, s.edits[r])
  }

  lemma FinalStep(s: State, l: Label)
    requires Held(s) && Final(s.row.status) && NothingPending(s)
    ensures NothingPending(Step(s, l)) && Step(s, l).row == s.row
  {
    var r := Step(s, l);
    assert !(l.Write? && Finishing(s, l.w));
    if l.Commit? && l.r in s.edits {
      assert Idle(s.row, s.edits[l.r]);
    }
    assert forall w :: Finishing(r, w) ==> Finishing(s, w);
  }

  lemma {:induction false} FinalForEver(s: State, ls: seq<Label>)
    requires Held(s) && Final(s.row.status) && NothingPending(s)
    ensures Held(Run(s, ls)) && NothingPending(Run(s, ls)) && Run(s, ls).row == s.row
  {
    if ls != [] {
      FinalForEver(s, ls[..|ls| - 1]);
      StepHeld(Run(s, ls[..|ls| - 1]), ls[|ls| - 1]);
      FinalStep(Run(s, ls[..|ls| - 1]), ls[|ls| - 1]);
    }
  }

  ghost predicate Absorbing(s: State) {
    forall more: seq<Label> :: Run(s, more).row == s.row
  }

  lemma PendingChanges(s: State) returns (l: Label)
    requires Held(s) && Final(s.row.status) && !NothingPending(s)
    ensures Step(s, l).row != s.row
  {
    if w :| Finishing(s, w) {
      l := Write(w, !s.row.status.Succeeded?);
      WriteReleases(s, w, l.success);
    } else {
      var r :| r in s.edits && !Idle(s.row, s.edits[r]);
      l := Commit(r);
    }
  }

  /**
   A final row never changes again exactly when no worker is between its check and its commit,
   and no request is between its read and a commit other than a repeated cancellation.
   */
  lemma FinalIsAbsorbingIff(ls: seq<Label>)
    requires Final(Run(START, ls).row.status)
    ensures Absorbing(Run(START, ls)) <==> NothingPending(Run(START, ls))
  {
    RunHeld(ls);
    var s := Run(START, ls);
    if NothingPending(s) {
      forall more: seq<Label> ensures Run(s, more).row == s.row { FinalForEver(s, more); }
    } else {
      var l := PendingChanges(s);
      RunOne(s, l);
      assert Run(s, [l]).row != s.row;
    }
  }

  // ----- guarded runs -------------------------------------------------------------------------------

  predicate Enters(s: State, l: Label) { !s.row.status.Queued? && Step(s, l).row.status.Queued? }

  ghost predicate SafeStep(s: State, l: Label) {
    Enters(s, l) ==> NobodyFinishing(s)
  }

  /** The row does not go back into the queue while a worker is between its check and its commit. */
  ghost predicate Guarded(ls: seq<Label>) {
    forall i :: 0 <= i < |ls| ==> SafeStep(Run(START, ls[..i]), ls[i])
  }

  /** In a guarded run a worker that passed its check still owns the row, unless it was cancelled. */
  ghost predicate CheckedOwns(s: State) {
    && (forall w :: Finishing(s, w) ==> OwnedBy(s.row, w) || s.row.status.Cancelled?)
    && (forall v, w :: Finishing(s, v) && Finishing(s, w) ==> v == w)
  }

  lemma CheckedStep(s: State, l: Label)
    requires Held(s) && CheckedOwns(s) && SafeStep(s, l)
    ensures CheckedOwns(Step(s, l))
  {
    var r := Step(s, l);
    forall w | Finishing(r, w) ensures Finishing(s, w) || l == Check(w) {
    }
    forall v, w | Finishing(r, v) && Finishing(r, w) ensures v == w {
      assert Finishing(s, v) || l == Check(v);
      assert Finishing(s, w) || l == Check(w);
    }
    forall w | Finishing(r, w) ensures OwnedBy(r.row, w) || r.row.status.Cancelled? {
      if Finishing(s, w) {
        CheckedKeepsRow(s, l, w);
      }
    }
  }

  lemma CheckedKeepsRow(s: State, l: Label, w: Worker)
    requires Held(s) && CheckedOwns(s) && SafeStep(s, l) && Finishing(s, w) && Finishing(Step(s, l), w)
    ensures OwnedBy(Step(s, l).row, w) || Step(s, l).row.status.Cancelled?
  {
    assert OwnedBy(s.row, w) || s.row.status.Cancelled?;
    assert !Enters(s, l);
    forall v | Finishing(s, v) ensures v == w { assert Finishing(s, w); }
  }

  lemma GuardedPrefix(ls: seq<Label>)
    requires ls != [] && Guarded(ls)
    ensures Guarded(ls[..|ls| - 1])
    ensures SafeStep(Run(START, ls[..|ls| - 1]), ls[|ls| - 1])
  {
    var prefix := ls[..|ls| - 1];
    forall i | 0 <= i < |prefix| ensures SafeStep(Run(START, prefix[..i]), prefix[i]) {
      assert prefix[..i] == ls[..i];
    }
  }

  lemma {:induction false} GuardedRun(ls: seq<Label>)
    requires Guarded(ls)
    ensures CheckedOwns(Run(START, ls))
  {
    if ls != [] {
      GuardedPrefix(ls);
      GuardedRun(ls[..|ls| - 1]);
      RunHeld(ls[..|ls| - 1]);
      CheckedStep(Run(START, ls[..|ls| - 1]), ls[|ls| - 1]);
    }
  }

  /** In a guarded run SUCCEEDED and FAILED are absorbing exactly while no request is between its read and its commit. */
  lemma {:induction false} ResultsAreAbsorbing(ls: seq<Label>)
    requires Guarded(ls)
    requires var status := Run(START, ls).row.status; status.Succeeded? || status.Failed?
    ensures Absorbing(Run(START, ls)) <==> Run(START, ls).edits == map[]
  {
    GuardedRun(ls);
    var s := Run(START, ls);
    assert NobodyFinishing(s);
    if s.edits != map[] {
      var r :| r in s.edits;
      assert !Idle(s.row, s.edits[r]);
    }
    FinalIsAbsorbingIff(ls);
  }

  /**
   Where results come from: in a guarded run the row only becomes SUCCEEDED or FAILED by a step
   of the worker that owns it, or that passed its check before a cancellation, and with the
   outcome that worker reports.
   */
  lemma {:induction false} ResultsComeFromTheOwner(ls: seq<Label>, l: Label)
    requires Guarded(ls)
    requires var s := Run(START, ls);
             Step(s, l).row != s.row && (Step(s, l).row.status.Succeeded? || Step(s, l).row.status.Failed?)
    ensures l.Fail? || l.Write?
    ensures var s := Run(START, ls);
            && (OwnedBy(s.row, l.w) || (l.Write? && s.row.status.Cancelled?))
            && Step(s, l).row == Released(if l.Write? && l.success then Succeeded else Failed)
  {
    RunHeld(ls);
    GuardedRun(ls);
    ResultStep(Run(START, ls), l);
  }

  lemma ResultStep(s: State, l: Label)
    requires Held(s) && CheckedOwns(s)
    requires Step(s, l).row != s.row && (Step(s, l).row.status.Succeeded? || Step(s, l).row.status.Failed?)
    ensures l.Fail? || l.Write?
    ensures OwnedBy(s.row, l.w) || (l.Write? && s.row.status.Cancelled?)
    ensures Step(s, l).row == Released(if l.Write? && l.success then Succeeded else Failed)
  {
    if l.Write? {
      assert Finishing(s, l.w);
      WriteReleases(s, l.w, l.success);
    }
  }

  // ----- failing runs ---------------------------------------------------------------------------------

  lemma Extend(ls: seq<Label>, l: Label, before: State, after: State)
    requires Run(START, ls) == before && Step(before, l) == after
    ensures Run(START, ls + [l]) == after
  {
    assert (ls + [l])[..|ls + [l]| - 1] == ls;
  }

  /** The row is queued by its submission and claimed by worker 1; `edits` may hold a request that has read before. */
  lemma ClaimedRun() returns (ls: seq<Label>)
    ensures Run(START, ls) == State(Row(Running, Some(1), Some(LEASE)), map[1 := Working], map[], map[], true)
  {
    var s1 := State(Released(Accepted), map[], map[], map[0 := Queueing(Released(Accepted))], true);
    Extend([], QueueRead(0), START, s1);
    var s2 := State(Released(Queued), map[], map[], map[], true);
    Extend([] + [QueueRead(0)], Commit(0), s1, s2);
    var s3 := State(Row(Running, Some(1), Some(LEASE)), map[1 := Working], map[], map[], true);
    Extend([] + [QueueRead(0)] + [Commit(0)], Claim(1, 0), s2, s3);
    ls := [] + [QueueRead(0)] + [Commit(0)] + [Claim(1, 0)];
  }

  const LEASED: Row := Row(Running, Some(1), Some(LEASE))

  /** Without the guard a late commit overwrites another worker's result. */
  lemma UnguardedFinishOverwrites() returns (ls: seq<Label>)
    ensures Run(START, ls).row.status.Failed?
    ensures Step(Run(START, ls), Write(1, true)).row.status.Succeeded?
  {
    ls := RequeuedAfterCheck();
    var s := State(Released(Queued), map[1 := Checked(LEASED)], map[], map[], true);
    var s1 := State(Row(Running, Some(2), Some(2 * LEASE)), map[1 := Checked(LEASED), 2 := Working], map[], map[], true);
    Extend(ls, Claim(2, LEASE), s, s1);
    var s2 := State(Released(Failed), map[1 := Checked(LEASED), 2 := Gone], map[], map[], true);
    Extend(ls + [Claim(2, LEASE)], Fail(2), s1, s2);
    ls := ls + [Claim(2, LEASE)] + [Fail(2)];
  }

  /** A run in which the sweep falls between a worker's check and its commit. */
  lemma RequeuedAfterCheck() returns (ls: seq<Label>)
    ensures Run(START, ls) == State(Released(Queued), map[1 := Checked(LEASED)], map[], map[], true)
  {
    ls := ClaimedRun();
    var s := State(LEASED, map[1 := Working], map[], map[], true);
    var s1 := s.(stages := map[1 := Checked(LEASED)]);
    Extend(ls, Check(1), s, s1);
    var s2 := s1.(sweeps := map[0 := Seen(Running, LEASE)]);
    Extend(ls + [Check(1)], SweepRead(0, LEASE), s1, s2);
    var s3 := State(Released(Queued), map[1 := Checked(LEASED)], map[], map[], true);
    Extend(ls + [Check(1)] + [SweepRead(0, LEASE)], SweepUpdate(0), s2, s3);
    ls := ls + [Check(1)] + [SweepRead(0, LEASE)] + [SweepUpdate(0)];
  }

  /** A cancel request that read RUNNING commits after the worker has succeeded: SUCCEEDED becomes CANCELLED. */
  lemma LateCancelOverwritesResult() returns (ls: seq<Label>)
    ensures var s := Run(START, ls);
            && s.row == Released(Succeeded) && NobodyFinishing(s)
            && Step(s, Commit(7)).row == Released(Cancelled)
  {
    ls := ClaimedRun();
    var s := State(LEASED, map[1 := Working], map[], map[], true);
    var s1 := s.(edits := map[7 := Cancelling(LEASED)]);
    Extend(ls, CancelRead(7), s, s1);
    var s2 := s1.(stages := map[1 := Checked(LEASED)]);
    Extend(ls + [CancelRead(7)], Check(1), s1, s2);
    var s3 := State(Released(Succeeded), map[1 := Gone], map[], map[7 := Cancelling(LEASED)], true);
    Extend(ls + [CancelRead(7)] + [Check(1)], Write(1, true), s2, s3);
    ls := ls + [CancelRead(7)] + [Check(1)] + [Write(1, true)];
  }

  /** A cancel request that read QUEUED commits after a claim: the row is CANCELLED and keeps its owner. */
  lemma LateCancelStrandsLease() returns (ls: seq<Label>)
    ensures Run(START, ls).row == Row(Cancelled, Some(1), Some(LEASE))
  {
    var s1 := State(Released(Accepted), map[], map[], map[0 := Queueing(Released(Accepted))], true);
    Extend([], QueueRead(0), START, s1);
    var s2 := State(Released(Queued), map[], map[], map[], true);
    Extend([] + [QueueRead(0)], Commit(0), s1, s2);
    ls := [] + [QueueRead(0)] + [Commit(0)];
    var s3 := s2.(edits := map[7 := Cancelling(Released(Queued))]);
    Extend(ls, CancelRead(7), s2, s3);
    var s4 := State(LEASED, map[1 := Working], map[], map[7 := Cancelling(Released(Queued))], true);
    Extend(ls + [CancelRead(7)], Claim(1, 0), s3, s4);
    Extend(ls + [CancelRead(7)] + [Claim(1, 0)], Commit(7), s4, Step(s4, Commit(7)));
    ls := ls + [CancelRead(7)] + [Claim(1, 0)] + [Commit(7)];
  }

  /** A submission that read ACCEPTED commits after a sweep and a claim: the row is QUEUED again, with its owner. */
  lemma LateQueueStrandsLease() returns (ls: seq<Label>)
    ensures Run(START, ls).row == Row(Queued, Some(1), Some(LEASE))
    ensures Get(Run(START, ls).stages, 1) == Some(Working)
  {
    var edits := map[0 := Queueing(Released(Accepted))];
    var s1 := State(Released(Accepted), map[], map[], edits, true);
    Extend([], QueueRead(0), START, s1);
    var s2 := s1.(sweeps := map[0 := Seen(Accepted, 0)]);
    Extend([] + [QueueRead(0)], SweepRead(0, 0), s1, s2);
    ls := [] + [QueueRead(0)] + [SweepRead(0, 0)];
    var s3 := State(Released(Queued), map[], map[], edits, true);
    Extend(ls, SweepUpdate(0), s2, s3);
    var s4 := State(LEASED, map[1 := Working], map[], edits, true);
    Extend(ls + [SweepUpdate(0)], Claim(1, 0), s3, s4);
    Extend(ls + [SweepUpdate(0)] + [Claim(1, 0)], Commit(0), s4, Step(s4, Commit(0)));
    ls := ls + [SweepUpdate(0)] + [Claim(1, 0)] + [Commit(0)];
  }

  // ----- conservation of queue entries ------------------------------------------------------------

  /** How a step takes the row out of the queue: a claim, a cancellation, or a worker's late commit. */
  predicate Takes(s: State, l: Label) { l.Claim? && s.row.status.Queued? && Step(s, l).row.status.Running? }

  predicate Withdraws(s: State, l: Label) {
    l.Commit? && l.r in s.edits && s.edits[l.r].Cancelling? && s.row.status.Queued?
  }

  predicate Clobbers(s: State, l: Label) { l.Write? && s.row.status.Queued? && Finishing(s, l.w) }

  function Times(p: (State, Label) -> bool, ls: seq<Label>): nat {
    if ls == [] then 0
    else Times(p, ls[..|ls| - 1]) + (if p(Run(START, ls[..|ls| - 1]), ls[|ls| - 1]) then 1 else 0)
  }

  function One(b: bool): nat { if b then 1 else 0 }

  lemma OneFate(s: State, l: Label)
    requires Held(s)
    ensures One(Enters(s, l)) + One(s.row.status.Queued?)
            == One(Takes(s, l)) + One(Withdraws(s, l)) + One(Clobbers(s, l)) + One(Step(s, l).row.status.Queued?)
  {
    if l.Write? && Finishing(s, l.w) {
      WriteReleases(s, l.w, l.success);
    }
  }

  /** Every entry into QUEUED is claimed, withdrawn, overwritten by a late commit, or still there. */
  lemma {:induction false} QueueEntriesAreAccountedFor(ls: seq<Label>)
    ensures Times(Enters, ls) == Times(Takes, ls) + Times(Withdraws, ls) + Times(Clobbers, ls)
                                 + One(Run(START, ls).row.status.Queued?)
  {
    if ls != [] {
      QueueEntriesAreAccountedFor(ls[..|ls| - 1]);
      RunHeld(ls[..|ls| - 1]);
      OneFate(Run(START, ls[..|ls| - 1]), ls[|ls| - 1]);
    }
  }

  lemma NeverSnoc(p: (State, Label) -> bool, ls: seq<Label>)
    requires ls != []
    ensures Never(p, ls) <==> Never(p, ls[..|ls| - 1]) && !p(Run(START, ls[..|ls| - 1]), ls[|ls| - 1])
  {
    var n := |ls| - 1;
    var front := ls[..n];
    if Never(p, ls) {
      assert !p(Run(START, ls[..n]), ls[n]);
      forall k | 0 <= k < n ensures !p(Run(START, front[..k]), front[k]) { assert front[..k] == ls[..k]; }
    }
    if Never(p, front) && !p(Run(START, front), ls[n]) {
      forall k | 0 <= k < |ls| ensures !p(Run(START, ls[..k]), ls[k]) {
        if k < n { assert front[..k] == ls[..k] && !p(Run(START, front[..k]), front[k]); }
      }
    }
  }

  lemma {:induction false} TimesIsZeroIff(p: (State, Label) -> bool, ls: seq<Label>)
    ensures Times(p, ls) == 0 <==> Never(p, ls)
  {
    if ls != [] {
      TimesIsZeroIff(p, ls[..|ls| - 1]);
      NeverSnoc(p, ls);
    }
  }

  /**
   Claims made plus the entry still queued are the entries into QUEUED, exactly when no cancel
   request and no late result commits over a QUEUED row.
   */
  lemma {:induction false} ClaimsMatchQueueEntriesIff(ls: seq<Label>)
    ensures Times(Takes, ls) + One(Run(START, ls).row.status.Queued?) == Times(Enters, ls) <==>
            Never(Withdraws, ls) && Never(Clobbers, ls)
  {
    QueueEntriesAreAccountedFor(ls);
    TimesIsZeroIff(Withdraws, ls);
    TimesIsZeroIff(Clobbers, ls);
  }

  lemma {:induction false} GuardedNeverClobbers(ls: seq<Label>)
    requires Guarded(ls)
    ensures Times(Clobbers, ls) == 0
  {
    if ls != [] {
      GuardedPrefix(ls);
      GuardedNeverClobbers(ls[..|ls| - 1]);
      GuardedRun(ls[..|ls| - 1]);
      var s, l := Run(START, ls[..|ls| - 1]), ls[|ls| - 1];
      if l.Write? && Finishing(s, l.w) {
        assert OwnedBy(s.row, l.w) || s.row.status.Cancelled?;
      }
    }
  }

  /** Over the lease steps alone, that is, in a guarded run without cancel requests, they always match. */
  lemma {:induction false} ClaimsMatchQueueEntries(ls: seq<Label>)
    requires Guarded(ls) && forall l :: l in ls ==> !l.CancelRead?
    ensures Times(Takes, ls) + One(Run(START, ls).row.status.Queued?) == Times(Enters, ls)
  {
    GuardedNeverClobbers(ls);
    QueueEntriesAreAccountedFor(ls);
    NeverWithdrawn(ls);
  }

  lemma {:induction false} NeverWithdrawn(ls: seq<Label>)
    requires forall l :: l in ls ==> !l.CancelRead?
    ensures Times(Withdraws, ls) == 0
    ensures forall r :: r in Run(START, ls).edits ==> Run(START, ls).edits[r].Queueing?
  {
    if ls != [] {
      NeverWithdrawn(ls[..|ls| - 1]);
      assert ls[|ls| - 1] in ls;
    }
  }
}
