/** The leases of `AcquisitionLease` in time: when a sweep takes a worker's row, and how late heartbeats may land. */
module AcquisitionTiming {
  import opened Common
  import opened AcquisitionLease

  /** Step `l` is a sweep that takes the row away from worker `w`. */
  predicate Sweeps(s: State, l: Label, w: Worker) {
    l.SweepUpdate? && Requeues(s, l, w)
  }

  /** Step `l` writes worker `w`'s lease, from the clock it read. */
  predicate LeaseWrite(s: State, l: Label, w: Worker) {
    (l == Claim(w, if l.Claim? then l.now else 0) && w !in s.stages && s.row.status.Queued?)
    || (l == Beat(w, if l.Beat? then l.now else 0) && At(s, w, Working) && OwnedBy(s.row, w))
  }

  /** The clock reading behind worker `w`'s latest lease write. */
  function LastReading(ls: seq<Label>, w: Worker): Option<int> {
    if ls == [] then None
    else
      var l := ls[|ls| - 1];
      if LeaseWrite(Run(START, ls[..|ls| - 1]), l, w) then Some(l.now) else LastReading(ls[..|ls| - 1], w)
  }

  lemma {:induction false} LeaseRunsFromLastReading(ls: seq<Label>, w: Worker)
    ensures OwnedBy(Run(START, ls).row, w) ==>
              && LastReading(ls, w).Some?
              && Run(START, ls).row.expires == Some(LastReading(ls, w).value + LEASE)
  {
    if ls != [] {
      LeaseRunsFromLastReading(ls[..|ls| - 1], w);
      RunHeld(ls[..|ls| - 1]);
      if OwnedBy(Run(START, ls).row, w) {
        LeaseAfter(Run(START, ls[..|ls| - 1]), ls[|ls| - 1], w);
      }
    }
  }

  lemma LeaseAfter(s: State, l: Label, w: Worker)
    requires Held(s) && OwnedBy(Step(s, l).row, w)
    ensures LeaseWrite(s, l, w) ==> Step(s, l).row.expires == Some(l.now + LEASE)
    ensures !LeaseWrite(s, l, w) ==> OwnedBy(s.row, w) && Step(s, l).row.expires == s.row.expires
  {
  }

  /** A sweep takes worker `w`'s row exactly when it read its clock 30 seconds or more after the last lease reading. */
  lemma SweepRequeuesIff(ls: seq<Label>, sid: SweepId, w: Worker)
    requires var s := Run(START, ls); OwnedBy(s.row, w) && sid in s.sweeps && s.sweeps[sid].status.Running?
    ensures LastReading(ls, w).Some?
    ensures Sweeps(Run(START, ls), SweepUpdate(sid), w) <==>
            Run(START, ls).sweeps[sid].now >= LastReading(ls, w).value + LEASE
  {
    LeaseRunsFromLastReading(ls, w);
  }

  /** A timed run: steps happen at non-decreasing times, and nobody reads a clock ahead of its step. */
  ghost predicate Clocked(ls: seq<Label>, at: seq<int>) {
    && |at| == |ls|
    && (forall i, j :: 0 <= i <= j < |at| ==> at[i] <= at[j])
    && (forall i :: 0 <= i < |ls| && (ls[i].Claim? || ls[i].Beat? || ls[i].SweepRead?) ==> ls[i].now <= at[i])
  }

  /** While `w` owns the row, less than 30 seconds ever pass since the reading of its last lease write. */
  ghost predicate Prompt(ls: seq<Label>, at: seq<int>, w: Worker)
    requires |at| == |ls|
  {
    ls != [] ==>
      var front, last := ls[..|ls| - 1], at[|at| - 1];
      && Prompt(front, at[..|at| - 1], w)
      && (OwnedBy(Run(START, front).row, w) ==> LastReading(front, w).Some? && last < LastReading(front, w).value + LEASE)
  }

  lemma {:induction false} PromptAt(ls: seq<Label>, at: seq<int>, w: Worker, i: nat)
    requires |at| == |ls| && Prompt(ls, at, w) && i < |ls| && OwnedBy(Run(START, ls[..i]).row, w)
    ensures LastReading(ls[..i], w).Some? && at[i] < LastReading(ls[..i], w).value + LEASE
  {
    var n := |ls| - 1;
    if i < n {
      assert ls[..n][..i] == ls[..i];
      PromptAt(ls[..n], at[..n], w, i);
    }
  }

  lemma ClockedPrefix(ls: seq<Label>, at: seq<int>, k: nat)
    requires Clocked(ls, at) && k <= |ls|
    ensures Clocked(ls[..k], at[..k])
  {
  }

  /** No sweep holds a clock reading later than the last step. */
  lemma {:induction false} SweepsReadThePast(ls: seq<Label>, at: seq<int>, sid: SweepId)
    requires Clocked(ls, at) && sid in Run(START, ls).sweeps
    ensures ls != [] && Run(START, ls).sweeps[sid].now <= at[|at| - 1]
  {
    if ls != [] {
      var prefix := ls[..|ls| - 1];
      var l := ls[|ls| - 1];
      ClockedPrefix(ls, at, |ls| - 1);
      if !(l.SweepRead? && l.sid == sid && Selected(Run(START, prefix).row, l.now)) {
        assert sid in Run(START, prefix).sweeps;
        SweepsReadThePast(prefix, at[..|at| - 1], sid);
      }
    }
  }

  /**
   A worker whose lease writes keep up is never requeued, by any sweep, in any timed run:
   also not by a sweep that read its clock before the latest heartbeat landed.
   */
  lemma PromptWorkerIsNeverRequeued(ls: seq<Label>, at: seq<int>, w: Worker, k: nat)
    requires Clocked(ls, at) && Prompt(ls, at, w) && k < |ls|
    ensures !Sweeps(Run(START, ls[..k]), ls[k], w)
  {
    var s, l := Run(START, ls[..k]), ls[k];
    if l.SweepUpdate? && l.sid in s.sweeps && OwnedBy(s.row, w) {
      LeaseRunsFromLastReading(ls[..k], w);
      PromptAt(ls, at, w, k);
      ClockedPrefix(ls, at, k);
      SweepsReadThePast(ls[..k], at[..k], l.sid);
      assert s.sweeps[l.sid].now < s.row.expires.value;
    }
  }

  /** When the latest lease write of `w` was applied. */
  function LastApplied(ls: seq<Label>, at: seq<int>, w: Worker): Option<int>
    requires |at| == |ls|
  {
    if ls == [] then None
    else if LeaseWrite(Run(START, ls[..|ls| - 1]), ls[|ls| - 1], w) then Some(at[|at| - 1])
    else LastApplied(ls[..|ls| - 1], at[..|at| - 1], w)
  }

  /** While `w` owns the row, less than `gap` ever passes since its last lease write was applied. */
  ghost predicate AppliedWithin(ls: seq<Label>, at: seq<int>, w: Worker, gap: int)
    requires |at| == |ls|
  {
    ls != [] ==>
      var before, times := ls[..|ls| - 1], at[..|at| - 1];
      && AppliedWithin(before, times, w, gap)
      && (OwnedBy(Run(START, before).row, w) ==>
            LastApplied(before, times, w).Some? && at[|at| - 1] < LastApplied(before, times, w).value + gap)
  }

  /** Every lease write of `w` lands at most `d` after it read its clock. */
  ghost predicate Delayed(ls: seq<Label>, at: seq<int>, w: Worker, d: int)
    requires |at| == |ls|
  {
    ls != [] ==>
      var front, l := ls[..|ls| - 1], ls[|ls| - 1];
      && Delayed(front, at[..|at| - 1], w, d)
      && (LeaseWrite(Run(START, front), l, w) ==> at[|at| - 1] <= l.now + d)
  }

  lemma {:induction false} ReadingsLagBehind(ls: seq<Label>, at: seq<int>, w: Worker, d: int)
    requires |at| == |ls| && Delayed(ls, at, w, d)
    ensures LastReading(ls, w).Some? <==> LastApplied(ls, at, w).Some?
    ensures LastReading(ls, w).Some? ==> LastApplied(ls, at, w).value <= LastReading(ls, w).value + d
  {
    if ls != [] {
      ReadingsLagBehind(ls[..|ls| - 1], at[..|at| - 1], w, d);
    }
  }

  lemma {:induction false} FrequentIsPrompt(ls: seq<Label>, at: seq<int>, w: Worker, d: int)
    requires |at| == |ls| && Delayed(ls, at, w, d) && AppliedWithin(ls, at, w, LEASE - d)
    ensures Prompt(ls, at, w)
  {
    if ls != [] {
      FrequentIsPrompt(ls[..|ls| - 1], at[..|at| - 1], w, d);
      ReadingsLagBehind(ls[..|ls| - 1], at[..|at| - 1], w, d);
    }
  }

  /**
   Heartbeats keep the lease if they land less than 30 seconds minus `d` apart, where `d` bounds
   how long after its clock reading a lease write lands.
   */
  lemma FrequentHeartbeatsKeepTheLease(ls: seq<Label>, at: seq<int>, w: Worker, d: int, k: nat)
    requires Clocked(ls, at) && Delayed(ls, at, w, d) && AppliedWithin(ls, at, w, LEASE - d) && k < |ls|
    ensures !Sweeps(Run(START, ls[..k]), ls[k], w)
  {
    FrequentIsPrompt(ls, at, w, d);
    PromptWorkerIsNeverRequeued(ls, at, w, k);
  }

  // ----- the delay matters -------------------------------------------------------------------------

  /** A timed run of `w` that ends in state `s`, its last lease write applied at `last`. */
  ghost predicate Example(ls: seq<Label>, at: seq<int>, w: Worker, s: State, last: Option<int>) {
    Clocked(ls, at) && AppliedWithin(ls, at, w, LEASE) && Run(START, ls) == s && LastApplied(ls, at, w) == last
  }

  lemma ClockedExtend(ls: seq<Label>, at: seq<int>, l: Label, t: int)
    requires Clocked(ls, at) && (at != [] ==> at[|at| - 1] <= t)
    requires l.Claim? || l.Beat? || l.SweepRead? ==> l.now <= t
    ensures Clocked(ls + [l], at + [t])
  {
  }

  lemma ExtendTimed(ls: seq<Label>, at: seq<int>, l: Label, t: int, w: Worker, s: State, last: Option<int>)
    requires Example(ls, at, w, s, last) && (at != [] ==> at[|at| - 1] <= t)
    requires l.Claim? || l.Beat? || l.SweepRead? ==> l.now <= t
    requires OwnedBy(s.row, w) ==> last.Some? && t < last.value + LEASE
    ensures Example(ls + [l], at + [t], w, Step(s, l), if LeaseWrite(s, l, w) then Some(t) else last)
  {
    ClockedExtend(ls, at, l, t);
    assert (ls + [l])[..|ls|] == ls && (at + [t])[..|ls|] == at;
  }

  const SECOND := 1_000_000
  const WAITING: State := State(Released(Accepted), map[], map[], map[0 := Queueing(Released(Accepted))], true)
  const QUEUED: State := State(Released(Queued), map[], map[], map[], true)
  const CLAIMED: State := State(LEASED, map[1 := Working], map[], map[], true)
  const BEATEN: State := State(Row(Running, Some(1), Some(35 * SECOND)), map[1 := Working], map[], map[], true)
  const SWEPT: State := BEATEN.(sweeps := map[0 := Seen(Running, 40 * SECOND)])

  lemma ExampleSteps()
    ensures Step(START, QueueRead(0)) == WAITING && !LeaseWrite(START, QueueRead(0), 1)
    ensures Step(WAITING, Commit(0)) == QUEUED && !LeaseWrite(WAITING, Commit(0), 1)
    ensures Step(QUEUED, Claim(1, 0)) == CLAIMED && LeaseWrite(QUEUED, Claim(1, 0), 1)
    ensures Step(CLAIMED, Beat(1, 5 * SECOND)) == BEATEN && LeaseWrite(CLAIMED, Beat(1, 5 * SECOND), 1)
    ensures Step(BEATEN, SweepRead(0, 40 * SECOND)) == SWEPT && !LeaseWrite(BEATEN, SweepRead(0, 40 * SECOND), 1)
  {
  }

  lemma SweptIsRequeued()
    ensures Sweeps(SWEPT, SweepUpdate(0), 1) && OwnedBy(SWEPT.row, 1) && !LeaseWrite(SWEPT, SweepUpdate(0), 1)
  {
  }

  lemma QueuedExample() returns (ls: seq<Label>, at: seq<int>)
    ensures Example(ls, at, 1, QUEUED, None) && at != [] && at[|at| - 1] == 0
  {
    ExampleSteps();
    ExtendTimed([], [], QueueRead(0), 0, 1, START, None);
    ExtendTimed([] + [QueueRead(0)], [] + [0], Commit(0), 0, 1, WAITING, None);
    ls, at := [] + [QueueRead(0)] + [Commit(0)], [] + [0] + [0];
  }

  /** A heartbeat that read its clock at 5 seconds and landed at 29. */
  lemma SlowHeartbeat() returns (ls: seq<Label>, at: seq<int>)
    ensures Example(ls, at, 1, BEATEN, Some(29 * SECOND)) && at != [] && at[|at| - 1] == 29 * SECOND
  {
    ls, at := QueuedExample();
    ExampleSteps();
    ExtendTimed(ls, at, Claim(1, 0), 0, 1, QUEUED, None);
    ls, at := ls + [Claim(1, 0)], at + [0];
    ExtendTimed(ls, at, Beat(1, 5 * SECOND), 29 * SECOND, 1, CLAIMED, Some(0));
    ls, at := ls + [Beat(1, 5 * SECOND)], at + [29 * SECOND];
  }

  lemma SlowHeartbeatIsSwept() returns (ls: seq<Label>, at: seq<int>)
    ensures Example(ls, at, 1, SWEPT, Some(29 * SECOND)) && at != [] && at[|at| - 1] == 40 * SECOND
  {
    ls, at := SlowHeartbeat();
    ExampleSteps();
    ExtendTimed(ls, at, SweepRead(0, 40 * SECOND), 40 * SECOND, 1, BEATEN, Some(29 * SECOND));
    ls, at := ls + [SweepRead(0, 40 * SECOND)], at + [40 * SECOND];
  }

  /**
   Landing less than 30 seconds apart is not enough on its own: here every lease write lands less
   than 30 seconds after the one before, yet the last step of the run requeues the worker,
   because its heartbeat had read the clock long before it landed.
   */
  lemma SlowHeartbeatIsRequeued() returns (ls: seq<Label>, at: seq<int>)
    ensures Example(ls, at, 1, SWEPT, Some(29 * SECOND))
    ensures Example(ls + [SweepUpdate(0)], at + [40 * SECOND], 1, Step(SWEPT, SweepUpdate(0)), Some(29 * SECOND))
    ensures Sweeps(SWEPT, SweepUpdate(0), 1)
  {
    ls, at := SlowHeartbeatIsSwept();
    SweptIsRequeued();
    ExtendTimed(ls, at, SweepUpdate(0), 40 * SECOND, 1, SWEPT, Some(29 * SECOND));
  }
}
