/** What each kind of step of `AcquisitionLease` does to the row, exactly when it takes effect. */
module AcquisitionSteps {
  import opened Common
  import opened AcquisitionLease

  /** A claim takes exactly a QUEUED row, for 30 seconds from the worker's reading; a worker that finds none is gone. */
  lemma ClaimTakesIff(s: State, w: Worker, now: int)
    ensures var r := Step(s, Claim(w, now));
            if w in s.stages then r == s
            else if s.row.status.Queued? then
              r.row == Row(Running, Some(w), Some(now + 30_000_000)) && At(r, w, Working)
            else r.row == s.row && At(r, w, Gone)
  {
  }

  /** A beat, a failure or a check of a working worker takes effect exactly while the row is RUNNING under that worker. */
  lemma WorkerActsIff(s: State, w: Worker, now: int)
    requires At(s, w, Working)
    ensures var beat, failed, checked := Step(s, Beat(w, now)), Step(s, Fail(w)), Step(s, Check(w));
            && checked.row == s.row && At(beat, w, Working) && At(failed, w, Gone)
            && if s.row.status == Running && s.row.owner == Some(w) then
                 && beat.row == Row(Running, Some(w), Some(now + 30_000_000))
                 && failed.row == Row(Failed, None, None)
                 && At(checked, w, Checked(s.row))
               else beat.row == s.row && failed.row == s.row && At(checked, w, Gone)
  {
  }

  /** In every run, a worker past its check commits its result, whatever the row has become, and is gone. */
  lemma FinishCommits(ls: seq<Label>, w: Worker, success: bool)
    requires Finishing(Run(START, ls), w)
    ensures var r := Step(Run(START, ls), Write(w, success));
            r.row == Row(if success then Succeeded else Failed, None, None) && At(r, w, Gone)
  {
    RunHeld(ls);
    WriteReleases(Run(START, ls), w, success);
  }

  /** A commit leaves alone every column that the object has not changed since it was read. */
  lemma UnchangedColumnsStay(row: Row, seen: Row, target: Row)
    ensures var r := Overwritten(row, seen, target);
            && r.status == (if target.status == seen.status then row.status else target.status)
            && r.owner == (if target.owner == seen.owner then row.owner else target.owner)
            && r.expires == (if target.expires == seen.expires then row.expires else target.expires)
  {
  }

  /** A worker that gives up leaves the row as it is, for a sweep to find. */
  lemma GivingUpLeavesTheRow(s: State, w: Worker)
    requires At(s, w, Working)
    ensures Step(s, GiveUp(w)).row == s.row && At(Step(s, GiveUp(w)), w, Gone)
  {
  }

  /** Workers act once each: a worker that is gone, or has yet to claim, changes nothing but by a claim. */
  lemma IdleWorkerDoesNothing(s: State, l: Label)
    requires l.Beat? || l.Fail? || l.Check? || l.Write? || l.GiveUp?
    requires l.w !in s.stages || At(s, l.w, Gone)
    ensures Step(s, l) == s
  {
  }

  /** A sweep selects ACCEPTED rows and RUNNING ones without a live lease, and its update requeues a row that still is one. */
  lemma SweepTakesIff(s: State, sid: SweepId, now: int)
    ensures var row, r := s.row, Step(s, SweepRead(sid, now));
            && r.row == row
            && if row.status == Accepted || (row.status == Running && (row.expires.None? || row.expires.value <= now))
               then Get(r.sweeps, sid) == Some(Seen(row.status, now)) else r == s
    ensures sid in s.sweeps ==>
              var row, seen, r := s.row, s.sweeps[sid], Step(s, SweepUpdate(sid));
              && sid !in r.sweeps
              && r.row == if (if seen.status == Running then row.status == Running && (row.expires.None? || row.expires.value <= seen.now)
                              else row.status == Accepted)
                          then Row(Queued, None, None) else row
  {
  }

  /** The submission queues its row if it reads ACCEPTED, once; a cancel request takes a row that is not final. */
  lemma RequestsTakeIff(s: State, r: RequestId)
    requires r !in s.edits
    ensures var queue, cancel := Step(s, QueueRead(r)), Step(s, CancelRead(r));
            && queue.row == s.row && cancel.row == s.row
            && Get(queue.edits, r) == (if !s.asked && s.row.status == Accepted then Some(Queueing(s.row)) else None)
            && queue.asked
            && Get(cancel.edits, r) == (if s.row.status in {Accepted, Queued, Running} then Some(Cancelling(s.row)) else None)
  {
  }

  /** A commit sets the status and clears the owner and expiry that were read; a column that was read empty is not written. */
  lemma CommitWritesTheChanged(ls: seq<Label>, r: RequestId)
    requires r in Run(START, ls).edits
    ensures var s := Run(START, ls);
            var edit, after := s.edits[r], Step(s, Commit(r));
            && r !in after.edits
            && (edit.Queueing? ==> after.row == s.row.(status := Queued))
            && (edit.Cancelling? ==>
                  after.row == if edit.seen.owner.Some? then Row(Cancelled, None, None) else s.row.(status := Cancelled))
  {
    RunHeld(ls);
  }

  lemma RunSnoc(ls: seq<Label>, l: Label)
    ensures Run(START, ls + [l]) == Step(Run(START, ls), l)
  {
    assert (ls + [l])[..|ls + [l]| - 1] == ls;
  }

  /** A worker that claims, keeps its lease while it works and finishes undisturbed decides the row. */
  lemma UndisturbedWorkerDecides(ls: seq<Label>, w: Worker, now: int, beat: int, success: bool)
    requires Run(START, ls).row.status.Queued? && w !in Run(START, ls).stages
    ensures Run(START, ls + [Claim(w, now)] + [Beat(w, beat)] + [Check(w)] + [Write(w, success)]).row
            == Row(if success then Succeeded else Failed, None, None)
  {
    var claimed := ls + [Claim(w, now)];
    var beaten := claimed + [Beat(w, beat)];
    RunSnoc(ls, Claim(w, now));
    RunSnoc(claimed, Beat(w, beat));
    RunSnoc(beaten, Check(w));
    RunSnoc(beaten + [Check(w)], Write(w, success));
    FinishCommits(beaten + [Check(w)], w, success);
  }
}
