/** The polling loop that decides when a Doubao answer is final (backend/agent_runtimes/bbx_adapter.py). */
module AnswerPolling {
  import opened Common

  /** One look at the page, and whether the deadline had passed after it. */
  datatype Observation = Verification | Seen(ready: bool, candidate: string, late: bool)

  datatype Verdict = Blocked(at: nat) | Complete(at: nat, answer: string) | TimedOut(at: nat) | StillPolling

  /** Observation `i` is the last of `required` ready ones that show the same text. */
  predicate StableAt(obs: seq<Observation>, required: nat, i: nat) {
    && i < |obs| && required <= i + 1
    && forall k :: i + 1 - required <= k <= i ==> obs[k].Seen? && obs[k].ready && obs[k].candidate == Candidate(obs[i])
  }

  function Candidate(o: Observation): string {
    if o.Seen? then o.candidate else ""
  }

  /** The loop goes on after observation `i`. */
  predicate Continues(obs: seq<Observation>, required: nat, i: nat) {
    i < |obs| && obs[i].Seen? && !StableAt(obs, required, i) && !obs[i].late
  }

  predicate ContinuesTo(obs: seq<Observation>, required: nat, n: nat) {
    forall i :: 0 <= i < n ==> Continues(obs, required, i)
  }

  /** How many ready observations of the same text end at `n`; one text is all the loop remembers. */
  function Streak(obs: seq<Observation>, n: nat): nat
    requires n <= |obs|
  {
    if n == 0 || !obs[n - 1].Seen? || !obs[n - 1].ready then 0
    else if Streak(obs, n - 1) > 0 && Candidate(obs[n - 2]) == obs[n - 1].candidate then Streak(obs, n - 1) + 1
    else 1
  }

  lemma {:induction false} StreakBounds(obs: seq<Observation>, n: nat)
    requires n <= |obs|
    ensures Streak(obs, n) <= n
    ensures forall k :: n - Streak(obs, n) <= k < n ==> obs[k].Seen? && obs[k].ready && obs[k].candidate == Candidate(obs[n - 1])
  {
    if n > 0 {
      StreakBounds(obs, n - 1);
    }
  }

  lemma {:induction false} StreakReaches(obs: seq<Observation>, n: nat, m: nat)
    requires 0 < m <= n <= |obs|
    requires forall k :: n - m <= k < n ==> obs[k].Seen? && obs[k].ready && obs[k].candidate == Candidate(obs[n - 1])
    ensures Streak(obs, n) >= m
  {
    if m > 1 {
      assert obs[n - 2].candidate == Candidate(obs[n - 1]);
      StreakReaches(obs, n - 1, m - 1);
    }
  }

  /** The counter has reached the requirement exactly when the answer has been stable that long. */
  lemma StreakIsStability(obs: seq<Observation>, required: nat, i: nat)
    requires i < |obs| && required >= 1
    ensures Streak(obs, i + 1) >= required <==> StableAt(obs, required, i)
  {
    StreakBounds(obs, i + 1);
    if StableAt(obs, required, i) {
      StreakReaches(obs, i + 1, required);
    }
  }

  /**
   The loop ends complete at the first observation at which the last `required` observations
   were all ready and equal, unless a verification page or the deadline came before.
   */
  method Poll(obs: seq<Observation>, required: nat) returns (v: Verdict)
    requires required >= 1
    ensures v.Complete? ==> StableAt(obs, required, v.at) && v.answer == Candidate(obs[v.at]) && ContinuesTo(obs, required, v.at)
    ensures v.Blocked? ==> v.at < |obs| && obs[v.at].Verification? && ContinuesTo(obs, required, v.at)
    ensures v.TimedOut? ==>
              && v.at < |obs| && obs[v.at].Seen? && obs[v.at].late
              && !StableAt(obs, required, v.at) && ContinuesTo(obs, required, v.at)
    ensures v.StillPolling? ==> ContinuesTo(obs, required, |obs|)
  {
    var stableAnswer := "";
    var stableObservations := 0;
    var i := 0;
    while i < |obs|
      invariant 0 <= i <= |obs|
      invariant ContinuesTo(obs, required, i)
      invariant stableObservations == Streak(obs, i)
      invariant stableObservations > 0 ==> i > 0 && stableAnswer == Candidate(obs[i - 1])
      invariant stableObservations == 0 ==> stableAnswer == ""
    {
      if obs[i].Verification? {
        return Blocked(i);
      }
      StreakIsStability(obs, required, i);
      if obs[i].ready {
        if obs[i].candidate == stableAnswer {
          stableObservations := stableObservations + 1;
        } else {
          stableAnswer := obs[i].candidate;
          stableObservations := 1;
        }
        if stableObservations >= required {
          return Complete(i, stableAnswer);
        }
      } else {
        stableAnswer := "";
        stableObservations := 0;
      }
      if obs[i].late {
        return TimedOut(i);
      }
      i := i + 1;
    }
    return StillPolling;
  }
}
