/**
  Attempts over whole runs: no job ever has two live attempts, a job starts at most once more
  than its retries allow, and a job that has ended stays as it ended.
 */
module Attempts {
  import opened Protocol
  import opened QueueModel
  import opened QueueInvariant
  import opened QueueEvolution
  import opened SystemModel
  import opened SystemInvariant
  import opened SystemSteps
  import opened Waiters

  /** How often the first `n` steps of a run hand job `id` to an executor. */
  ghost function StartCount(r: DaemonRun, id: int, n: nat): nat
    requires n <= |r.labels|
  {
    if n == 0 then 0 else
      assert RunStep(r, n - 1);
      StartCount(r, id, n - 1) +
      if r.labels[n - 1].StartPicked? && r.states[n - 1].pc.id == id then 1 else 0
  }

  lemma {:induction false} StartsAreCounted(r: DaemonRun, id: int, n: nat)
    requires n <= |r.labels|
    ensures StartsOf(r.states[n], id) == StartCount(r, id, n)
  {
    if n > 0 {
      StartsAreCounted(r, id, n - 1);
      assert RunStep(r, n - 1);
    }
  }

  /** Over every run, a listed job has started at most once more than its retries allow. */
  lemma StartsBounded(r: DaemonRun, id: int, n: nat)
    requires n <= |r.labels| && id in r.states[n].q.recs
    ensures StartCount(r, id, n) <= MaxRetries(r.states[n].q.recs[id].info.retries) + 1
    ensures 0 <= r.states[n].q.recs[id].info.attempt <= MaxRetries(r.states[n].q.recs[id].info.retries)
  {
    RunInv(r, n);
    StartsAreCounted(r, id, n);
    assert StartsOk(r.states[n], id) && RecordOk(r.states[n].q, id);
  }

  /** That bound survives the job's removal: what the submission allowed is never exceeded. */
  lemma StartsAllowed(r: DaemonRun, id: int, n: nat)
    requires n <= |r.labels|
    ensures var s := r.states[n];
            StartCount(r, id, n) <= if id in s.allowed then s.allowed[id] else 0
  {
    RunInv(r, n);
    StartsAreCounted(r, id, n);
  }

  /** At any time at most one executor works for a job, and none while it is queued or ended. */
  lemma OneLiveAttempt(r: DaemonRun, n: nat, g: nat, h: nat)
    requires n < |r.states|
    requires g in r.states[n].live && h in r.states[n].live
    requires r.states[n].live[g].id == r.states[n].live[h].id
    ensures g == h
    ensures !IsQueued(r.states[n].q, r.states[n].live[g].id) && !IsTerminal(r.states[n].q, r.states[n].live[g].id)
  {
    RunInv(r, n);
  }

  /** How a listed job ended. */
  function Outcome(q: Queue, id: int): (JobState, Result)
    requires id in q.recs
  {
    (q.recs[id].info.state, q.recs[id].info.result)
  }

  /** Finished and skipped are absorbing, and the recorded result never changes. */
  lemma StepAbsorbs(s: Daemon, l: Label, id: int)
    requires Enabled(s, l) && IsTerminal(s.q, id) && id in Step(s, l).q.recs
    ensures IsTerminal(Step(s, l).q, id) && Outcome(Step(s, l).q, id) == Outcome(s.q, id)
  {
    if l.Request? {
      RequestEvolves(s.q, l.op);
      assert SameJob(s.q.recs[id], Apply(s.q, l.op).recs[id]);
    } else {
      EffectLegal(s, l);
      StepEffect(s, l);
    }
  }

  /** A job keeps its dependencies and whether it requires their success. */
  lemma SameDependencies(s: Daemon, l: Label, id: int)
    requires Enabled(s, l) && id in s.q.recs && id in Step(s, l).q.recs
    ensures Step(s, l).q.recs[id].info.dependOn == s.q.recs[id].info.dependOn
    ensures Step(s, l).q.recs[id].requireElevel == s.q.recs[id].requireElevel
  {
    if l.Request? {
      RequestEvolves(s.q, l.op);
      assert SameJob(s.q.recs[id], Apply(s.q, l.op).recs[id]);
    } else {
      StepEffect(s, l);
    }
  }

  /** An id once handed out and no longer listed never comes back. */
  lemma OldIds(s: Daemon, l: Label, id: int)
    requires Enabled(s, l) && id < s.q.nextID && id in Step(s, l).q.recs
    ensures id in s.q.recs
  {
    if l.Request? {
      RequestEvolves(s.q, l.op);
    } else {
      StepEffect(s, l);
    }
  }

  lemma IdsGrow(s: Daemon, l: Label)
    requires Enabled(s, l)
    ensures s.q.nextID <= Step(s, l).q.nextID
  {
    if l.Request? {
      RequestEvolves(s.q, l.op);
    } else {
      StepEffect(s, l);
    }
  }

  lemma RunStepAbsorbs(r: DaemonRun, id: int, j: nat)
    requires j < |r.labels|
    requires IsTerminal(r.states[j].q, id) && id in r.states[j + 1].q.recs
    ensures IsTerminal(r.states[j + 1].q, id)
    ensures Outcome(r.states[j + 1].q, id) == Outcome(r.states[j].q, id)
  {
    RunInv(r, j);
    assert RunStep(r, j);
    StepAbsorbs(r.states[j], r.labels[j], id);
  }

  ghost predicate ListedThroughout(r: Run, id: int, i: nat, j: nat) {
    i <= j < |r.states| && forall k | i <= k <= j :: id in r.states[k].q.recs
  }

  /** Over any stretch of a run that keeps the job listed, an outcome once reached stays. */
  lemma {:induction false} RunAbsorbs(r: DaemonRun, id: int, i: nat, j: nat)
    requires ListedThroughout(r, id, i, j)
    requires IsTerminal(r.states[i].q, id)
    ensures IsTerminal(r.states[j].q, id) && Outcome(r.states[j].q, id) == Outcome(r.states[i].q, id)
    decreases j - i
  {
    if i < j {
      RunStepAbsorbs(r, id, i);
      assert ListedThroughout(r, id, i + 1, j);
      RunAbsorbs(r, id, i + 1, j);
    }
  }

  // ------------------------------------------------------------------- answers

  lemma {:induction false} IdsGrowBetween(r: DaemonRun, i: nat, j: nat)
    requires i <= j < |r.states|
    ensures r.states[i].q.nextID <= r.states[j].q.nextID
    decreases j
  {
    if i < j {
      IdsGrowBetween(r, i, j - 1);
      RunInv(r, j - 1);
      assert RunStep(r, j - 1);
      IdsGrow(r.states[j - 1], r.labels[j - 1]);
    }
  }

  /** What is listed now under an old id has been listed ever since. */
  lemma {:induction false} ListedSince(r: DaemonRun, id: int, i: nat, j: nat)
    requires i <= j < |r.states| && id < r.states[i].q.nextID && id in r.states[j].q.recs
    ensures ListedThroughout(r, id, i, j)
    decreases j
  {
    if i < j {
      IdsGrowBetween(r, i, j - 1);
      RunInv(r, j - 1);
      assert RunStep(r, j - 1);
      OldIds(r.states[j - 1], r.labels[j - 1], id);
      ListedSince(r, id, i, j - 1);
    }
  }

  /** The job is listed as ended, with this result. */
  predicate EndedAs(q: Queue, id: int, result: Result) {
    IsTerminal(q, id) && q.recs[id].info.result == result
  }

  /** Whenever a job is listed as ended, it is with the same result, and it is never listed otherwise
      after that. */
  lemma OneEnding(r: DaemonRun, id: int, i: nat, j: nat, result: Result)
    requires i <= j < |r.states| && id in r.states[j].q.recs
    requires IsTerminal(r.states[i].q, id)
    ensures EndedAs(r.states[j].q, id, result) <==> EndedAs(r.states[i].q, id, result)
    ensures IsTerminal(r.states[j].q, id)
  {
    RunInv(r, i);
    assert RecordOk(r.states[i].q, id);
    ListedSince(r, id, i, j);
    RunAbsorbs(r, id, i, j);
  }

  /** Earlier channels and answers stay; a new answer for an existing job finds the job listed. */
  ghost predicate AnswersGrow(q: Queue, q': Queue) {
    && q.issued <= q'.issued && q.deliveries <= q'.deliveries
    && forall k | |q.deliveries| <= k < |q'.deliveries| ::
         var ch := q'.deliveries[k].channel;
         ch < |q'.issued| && (q'.issued[ch].known ==> q'.issued[ch].id in q'.recs)
  }

  lemma ApplyAnswers(q: Queue, op: QueueOp)
    requires WaiterInv(q)
    ensures AnswersGrow(q, Apply(q, op))
  {
    if (op.MarkFinishedOp? || op.MarkSkippedOp?) && op.id in q.recs {
      assert WaitersOk(q, op.id);
      var waiters := q.recs[op.id].waiters;
      assert forall i | 0 <= i < |waiters| :: waiters[i] in waiters;
    }
  }

  lemma StepAnswers(s: Daemon, l: Label)
    requires Enabled(s, l)
    ensures AnswersGrow(s.q, Step(s, l).q)
  {
    StepEffect(s, l);
    if Effect(s, l).Some? {
      ApplyAnswers(s.q, Effect(s, l).value);
    }
  }

  lemma RunAnswers(r: DaemonRun, n: nat)
    requires n < |r.labels|
    ensures AnswersGrow(r.states[n].q, r.states[n + 1].q)
  {
    RunInv(r, n);
    assert RunStep(r, n);
    StepAnswers(r.states[n], r.labels[n]);
  }

  /** The channel of answer `k` in state `n` was handed out for an existing job. */
  ghost predicate AnswersJob(r: Run, n: nat, k: nat, id: int) {
    && n < |r.states| && k < |r.states[n].q.deliveries|
    && r.states[n].q.deliveries[k].channel < |r.states[n].q.issued|
    && r.states[n].q.issued[r.states[n].q.deliveries[k].channel] == Issue(id, true)
  }

  /** When the answer was given the job was listed as ended with it. */
  lemma {:induction false} GivenWhenEnded(r: DaemonRun, n: nat, k: nat, id: int) returns (p: nat)
    requires AnswersJob(r, n, k, id)
    ensures p <= n && EndedAs(r.states[p].q, id, r.states[n].q.deliveries[k].result)
    decreases n
  {
    RunAnswers(r, n - 1);
    if k < |r.states[n - 1].q.deliveries| {
      RunInv(r, n - 1);
      assert r.states[n - 1].q.deliveries[k].channel < |r.states[n - 1].q.issued|;
      p := GivenWhenEnded(r, n - 1, k, id);
    } else {
      p := n;
      RunInv(r, n);
      assert AnswerFinal(r.states[n].q, r.states[n].q.deliveries[k]);
    }
  }

  /** A channel handed out for an existing job, once answered, carries that job's final result, never
      that of a retried attempt: the result of every state, earlier or later, that lists the job as
      ended - there has been one - even if the job has left the list since. */
  lemma AnswerIsFinal(r: DaemonRun, n: nat, k: nat, id: int)
    requires AnswersJob(r, n, k, id)
    ensures exists p: nat :: p <= n && EndedAs(r.states[p].q, id, r.states[n].q.deliveries[k].result)
    ensures forall m: nat | m < |r.states| && IsTerminal(r.states[m].q, id) ::
              EndedAs(r.states[m].q, id, r.states[n].q.deliveries[k].result)
    ensures forall m: nat | n <= m < |r.states| && id in r.states[m].q.recs :: IsTerminal(r.states[m].q, id)
  {
    var p := GivenWhenEnded(r, n, k, id);
    var result := r.states[n].q.deliveries[k].result;
    forall m: nat | m < |r.states| && id in r.states[m].q.recs
      ensures p <= m ==> IsTerminal(r.states[m].q, id)
      ensures IsTerminal(r.states[m].q, id) ==> EndedAs(r.states[m].q, id, result)
    {
      if p <= m {
        OneEnding(r, id, p, m, result);
      } else if IsTerminal(r.states[m].q, id) {
        OneEnding(r, id, m, p, result);
      }
    }
  }

  /** Every answered channel has been handed out. */
  lemma AnswersAreForChannels(r: DaemonRun, n: nat, k: nat)
    requires n < |r.states| && k < |r.states[n].q.deliveries|
    ensures r.states[n].q.deliveries[k].channel < |r.states[n].q.issued|
  {
    RunInv(r, n);
  }
}
