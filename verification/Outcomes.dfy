/**
  How attempts lead to outcomes over whole runs: a failed attempt is repeated while a retry is left
  and only then, what is recorded is what the last attempt reported, and a job is skipped only for a
  dependency that ended badly.
 */
module Outcomes {
  import opened Protocol
  import opened QueueModel
  import opened QueueInvariant
  import opened QueueEvolution
  import opened SystemModel
  import opened SystemInvariant
  import opened SystemSteps
  import opened Attempts
  import opened RequiredSuccess
  import opened Waiters

  /** A process that failed: a non-zero exit code, a signal, or the time-out. */
  predicate Failure(r: Result) {
    r.exitCode != 0 || r.diedBySignal || r.timedOut
  }

  // ------------------------------------------------------------ no attempt is given away

  predicate NoneLeft(q: Queue, id: int) {
    id in q.recs ==> q.recs[id].info.attempt == MaxRetries(q.recs[id].info.retries)
  }

  /** What an executor is about to report: a failure to be retried if possible, a success, or a failure
      with no retry left. */
  ghost predicate ReportOk(s: Sys, g: nat)
    requires g in s.live
  {
    match s.live[g].phase
    case Ended(result) => Failure(result)
    case Final(result) => Failure(result) ==> NoneLeft(s.q, s.live[g].id)
    case _ => true
  }

  ghost predicate ReportsOk(s: Sys) {
    forall g | g in s.live :: ReportOk(s, g)
  }

  lemma RunningKeepsAttempt(s: Daemon, l: Label, id: int)
    requires Enabled(s, l) && id in s.q.recs && IsRunning(s.q, id) && IsRunning(Step(s, l).q, id)
    ensures var a, b := s.q.recs[id].info, Step(s, l).q.recs[id].info;
            b.attempt == a.attempt && b.retries == a.retries
  {
    if !l.StartPicked? {
      StepAttempts(s, l);
      assert AttemptStep(s.q.recs[id].info, Step(s, l).q.recs[id].info);
    }
  }

  /** A step leaves the executors that do not take it as they are. */
  lemma OthersLive(s: Daemon, l: Label, g: nat)
    requires Enabled(s, l) && g in s.live && g in Step(s, l).live && !(IsExecutor(l) && g == l.g)
    ensures Step(s, l).live[g] == s.live[g]
  {
  }

  /** A report already decided on stays right. */
  lemma OldReport(s: Daemon, l: Label, g: nat)
    requires Enabled(s, l) && ReportsOk(s)
    requires g in s.live && g in Step(s, l).live && !(IsExecutor(l) && g == l.g)
    ensures ReportOk(Step(s, l), g)
  {
    var s', id := Step(s, l), s.live[g].id;
    OthersLive(s, l, g);
    StepKeepsLive(s, l);
    assert ReportOk(s, g);
    if id in s'.q.recs {
      OldIds(s, l, id);
      RunningKeepsAttempt(s, l, id);
    }
  }

  lemma NewReport(s: Daemon, l: Label)
    requires IsExecutor(l) && Enabled(s, l) && l.g in ExecutorStep(s, l).live
    ensures ReportOk(ExecutorStep(s, l), l.g)
  {
    var id := s.live[l.g].id;
    if l.ExecRetry? && id in s.q.recs {
      assert RecordOk(s.q, id);
    }
  }

  lemma SpawnReport(s: Sys, l: Label, g: nat)
    requires Enabled(s, l) && g !in s.live && g in Step(s, l).live
    ensures ReportOk(Step(s, l), g)
  {
  }

  lemma StepReport(s: Daemon, l: Label, g: nat)
    requires Enabled(s, l) && ReportsOk(s) && g in Step(s, l).live
    ensures ReportOk(Step(s, l), g)
  {
    if IsExecutor(l) && g == l.g {
      NewReport(s, l);
    } else if g in s.live {
      OldReport(s, l, g);
    } else {
      SpawnReport(s, l, g);
    }
  }

  lemma StepReports(s: Daemon, l: Label)
    requires Enabled(s, l) && ReportsOk(s)
    ensures ReportsOk(Step(s, l))
  {
    var s' := Step(s, l);
    forall g | g in s'.live ensures ReportOk(s', g) {
      StepReport(s, l, g);
    }
  }

  ghost predicate ReportsAt(r: DaemonRun, i: nat) {
    i < |r.states| ==> ReportsOk(r.states[i])
  }

  lemma {:induction false} RunReports(r: DaemonRun, i: nat)
    ensures ReportsAt(r, i)
  {
    if 0 < i < |r.states| {
      RunReports(r, i - 1);
      RunInv(r, i - 1);
      assert RunStep(r, i - 1);
      StepReports(r.states[i - 1], r.labels[i - 1]);
    }
  }

  /** The executor of `e` asks for a retry of its failed attempt. */
  ghost predicate RetryAsked(s: Sys, s': Sys, g: nat)
    requires g in s.live && s.live[g].phase.Ended?
  {
    var id, result := s.live[g].id, s.live[g].phase.result;
    && Failure(result)
    && if id in s.q.recs && s.q.recs[id].info.attempt < s.q.recs[id].info.retries
       then IsQueued(s'.q, id) && s'.q.recs[id].info.attempt == s.q.recs[id].info.attempt + 1 && g !in s'.live
       else s'.q == s.q && g in s'.live && s'.live[g] == Exec(id, Final(result))
  }

  /** The executor reports the end of its job. */
  ghost predicate EndReported(s: Sys, s': Sys, g: nat)
    requires g in s.live && s.live[g].phase.Final?
  {
    var id, result := s.live[g].id, s.live[g].phase.result;
    id in s.q.recs ==>
      && (Failure(result) ==> s.q.recs[id].info.attempt == MaxRetries(s.q.recs[id].info.retries))
      && EndedAs(s'.q, id, result) && s'.q.recs[id].info.state.Finished?
  }

  /** The retry policy, over every run: an executor that asks for a retry has failed, and gets it exactly
      while the job is listed with a retry left; an executor that reports the end of a listed job has
      succeeded or has used up the last attempt, and what it reports is what is recorded. */
  lemma RetryPolicy(r: DaemonRun, i: nat)
    requires i < |r.labels| && RunStep(r, i)
    ensures r.labels[i].ExecRetry? ==> RetryAsked(r.states[i], r.states[i + 1], r.labels[i].g)
    ensures r.labels[i].ExecFinish? ==> EndReported(r.states[i], r.states[i + 1], r.labels[i].g)
  {
    RunReports(r, i);
    if IsExecutor(r.labels[i]) {
      assert ReportOk(r.states[i], r.labels[i].g);
    }
  }

  // ----------------------------------------------------------- what is recorded was reported

  predicate IsFinished(q: Queue, id: int) {
    id in q.recs && q.recs[id].info.state.Finished?
  }

  /** The step reports the end of job `id` with this result. */
  predicate Reports(s: Sys, l: Label, id: int, result: Result) {
    l.ExecFinish? && l.g in s.live && s.live[l.g] == Exec(id, Final(result))
  }

  /** Only such a report makes a job finished. */
  lemma BecomesFinished(s: Daemon, l: Label, id: int)
    requires Enabled(s, l) && IsFinished(Step(s, l).q, id)
    ensures var result := Step(s, l).q.recs[id].info.result;
            (IsFinished(s.q, id) && s.q.recs[id].info.result == result)
            || (id in s.q.recs && !IsTerminal(s.q, id) && Reports(s, l, id, result))
  {
    if l.Request? {
      RequestEvolves(s.q, l.op);
      assert id in s.q.recs ==> SameJob(s.q.recs[id], Apply(s.q, l.op).recs[id]);
    } else {
      StepEffect(s, l);
      EffectLegal(s, l);
    }
  }

  /** At step `j` the process of executor `g`, which works for job `id`, ended with this result. */
  ghost predicate EndedAt(r: Run, j: nat, g: nat, id: int, result: Result) {
    && j < |r.labels| && j < |r.states| && r.labels[j] == ExecEnd(g, result)
    && g in r.states[j].live && r.states[j].live[g].id == id
  }

  predicate HasResult(s: Sys, g: nat) {
    g in s.live && (s.live[g].phase.Ended? || s.live[g].phase.Final?)
  }

  lemma ReportStep(s: Sys, l: Label, g: nat)
    requires Enabled(s, l) && HasResult(Step(s, l), g)
    ensures g in s.live && s.live[g].id == Step(s, l).live[g].id
    ensures if HasResult(s, g) then s.live[g].phase.result == Step(s, l).live[g].phase.result
            else l == ExecEnd(g, Step(s, l).live[g].phase.result)
  {
  }

  /** What an executor reports is what its process ended with. */
  lemma {:induction false} ReportIsResult(r: DaemonRun, n: nat, g: nat) returns (j: nat)
    requires n < |r.states| && HasResult(r.states[n], g)
    ensures j < n && EndedAt(r, j, g, r.states[n].live[g].id, r.states[n].live[g].phase.result)
    decreases n
  {
    assert RunStep(r, n - 1);
    ReportStep(r.states[n - 1], r.labels[n - 1], g);
    j := n - 1;
    if HasResult(r.states[n - 1], g) {
      j := ReportIsResult(r, n - 1, g);
    }
  }

  /** Job `id` is listed as it had finished before the run began. */
  ghost predicate FinishedBefore(r: DaemonRun, n: nat, id: int)
    requires n < |r.states| && id in r.states[n].q.recs
  {
    IsFinished(r.states[0].q, id) && r.states[0].q.recs[id].info.result == r.states[n].q.recs[id].info.result
  }

  lemma {:induction false} FinishedWhen(r: DaemonRun, n: nat, id: int) returns (j: nat)
    requires n < |r.states| && IsFinished(r.states[n].q, id)
    ensures FinishedBefore(r, n, id) ||
            (j < n && !IsTerminal(r.states[j].q, id) && id in r.states[j].q.recs &&
             Reports(r.states[j], r.labels[j], id, r.states[n].q.recs[id].info.result))
    decreases n
  {
    j := 0;
    if n > 0 {
      RunInv(r, n - 1);
      assert RunStep(r, n - 1);
      BecomesFinished(r.states[n - 1], r.labels[n - 1], id);
      if IsFinished(r.states[n - 1].q, id) &&
         r.states[n - 1].q.recs[id].info.result == r.states[n].q.recs[id].info.result {
        j := FinishedWhen(r, n - 1, id);
      } else {
        j := n - 1;
      }
    }
  }

  /** What is recorded for a finished job is what the process of its last attempt ended with: exit code,
      signal and time-out. */
  lemma RecordedIsReported(r: DaemonRun, n: nat, id: int)
    requires n < |r.states| && IsFinished(r.states[n].q, id)
    ensures FinishedBefore(r, n, id) ||
            exists j: nat, g :: j < n && EndedAt(r, j, g, id, r.states[n].q.recs[id].info.result)
  {
    var k := FinishedWhen(r, n, id);
    if !FinishedBefore(r, n, id) {
      var j := ReportIsResult(r, k, r.labels[k].g);
      assert EndedAt(r, j, r.labels[k].g, id, r.states[n].q.recs[id].info.result);
    }
  }

  // ----------------------------------------------------------------- attempts, counted exactly

  /** The attempts a record stands for: the retries used, and the present or last one. */
  function Attempted(q: Queue, id: int): int {
    if id !in q.recs then 0 else
      var info := q.recs[id].info;
      info.attempt + if info.state.Running? || info.state.Finished? then 1 else 0
  }

  ghost predicate SameSurplus(s: Sys, s': Sys, id: int) {
    && StartsOf(s', id) - Attempted(s'.q, id) == StartsOf(s, id) - Attempted(s.q, id)
    && (id in s.q.recs || s.q.nextID <= id)
  }

  lemma OtherAttempted(s: Daemon, s': Sys, id: int)
    requires AttemptSteps(s, s') && id in s'.q.recs && (id !in s.q.recs ==> IsQueued(s'.q, id))
    ensures SameSurplus(s, s', id)
  {
    assert id in s.q.recs ==> AttemptStep(s.q.recs[id].info, s'.q.recs[id].info);
    assert id !in s.q.recs ==> NewAttempts(s', id);
  }

  lemma StartAttempted(s: Daemon, l: Label, id: int)
    requires Enabled(s, l) && l.StartPicked? && id in SchedulerStep(s, l).q.recs
    ensures SameSurplus(s, SchedulerStep(s, l), id)
  {
  }

  lemma StepAttempted(s: Daemon, l: Label, id: int)
    requires Enabled(s, l) && id in Step(s, l).q.recs
    ensures SameSurplus(s, Step(s, l), id)
  {
    if l.StartPicked? {
      StartAttempted(s, l, id);
    } else {
      StepAttempts(s, l);
      if id !in s.q.recs {
        ArrivesQueued(s, l, id);
      }
      OtherAttempted(s, Step(s, l), id);
    }
  }

  /** Over every run the starts of a listed job are exactly the attempts its record shows beyond those
      it was loaded with. */
  lemma {:induction false} StartsExactly(r: DaemonRun, id: int, n: nat)
    requires n < |r.states| && id in r.states[n].q.recs
    ensures StartCount(r, id, n) == Attempted(r.states[n].q, id) - Attempted(r.states[0].q, id)
  {
    StartsAreCounted(r, id, n);
    StartsOfExactly(r, id, n);
  }

  lemma NotYetSubmitted(r: DaemonRun, id: int, n: nat)
    requires n < |r.states| && r.states[n].q.nextID <= id
    ensures StartsOf(r.states[n], id) == 0 && id !in r.states[n].q.recs && id !in r.states[0].q.recs
  {
    RunInv(r, 0);
    RunInv(r, n);
    IdsGrowBetween(r, 0, n);
    Unlisted(r.states[n], id);
    Unlisted(r.states[0], id);
  }

  lemma Unlisted(s: Daemon, id: int)
    ensures s.q.nextID <= id ==> id !in s.q.recs
  {
    assert id in s.q.recs ==> RecordOk(s.q, id);
  }

  lemma {:induction false} StartsOfExactly(r: DaemonRun, id: int, n: nat)
    requires n < |r.states| && (id in r.states[n].q.recs || r.states[n].q.nextID <= id)
    ensures StartsOf(r.states[n], id) == Attempted(r.states[n].q, id) - Attempted(r.states[0].q, id)
    decreases n
  {
    if r.states[n].q.nextID <= id {
      NotYetSubmitted(r, id, n);
    } else if n > 0 {
      RunInv(r, n - 1);
      assert RunStep(r, n - 1);
      StepAttempted(r.states[n - 1], r.labels[n - 1], id);
      StartsOfExactly(r, id, n - 1);
    }
  }

  /** No allowed attempt is given away, and none is taken beyond them: a job submitted in the run that is
      listed as failed has started exactly once more than its retries; one that succeeded, exactly once
      more than its failed attempts. */
  lemma FailedMeansSpent(r: DaemonRun, id: int, n: nat)
    requires n < |r.states| && IsFinished(r.states[n].q, id) && !IsFinished(r.states[0].q, id)
    ensures var info := r.states[n].q.recs[id].info;
            Failure(info.result) ==> info.attempt == MaxRetries(info.retries)
    ensures var info := r.states[n].q.recs[id].info;
            id !in r.states[0].q.recs ==>
              StartCount(r, id, n) == info.attempt + 1
              && (Failure(info.result) ==> StartCount(r, id, n) == MaxRetries(info.retries) + 1)
  {
    StartsExactly(r, id, n);
    FinishedIsSpent(r, id, n);
  }

  /** A finished job keeps its attempts and retries. */
  lemma FinishedKeepsAttempt(s: Daemon, l: Label, id: int)
    requires Enabled(s, l) && IsFinished(s.q, id) && id in Step(s, l).q.recs
    ensures IsFinished(Step(s, l).q, id)
    ensures var a, b := s.q.recs[id].info, Step(s, l).q.recs[id].info;
            b.attempt == a.attempt && b.retries == a.retries && b.result == a.result
  {
    StepAbsorbs(s, l, id);
    if !l.StartPicked? {
      StepAttempts(s, l);
      assert AttemptStep(s.q.recs[id].info, Step(s, l).q.recs[id].info);
    }
  }

  predicate Spent(q: Queue, id: int)
    requires id in q.recs
  {
    Failure(q.recs[id].info.result) ==> q.recs[id].info.attempt == MaxRetries(q.recs[id].info.retries)
  }

  lemma SpentAtTheEnd(r: DaemonRun, id: int, i: nat)
    requires i < |r.labels| && IsFinished(r.states[i + 1].q, id) && !IsFinished(r.states[i].q, id)
    ensures Spent(r.states[i + 1].q, id)
  {
    RunInv(r, i);
    assert RunStep(r, i);
    BecomesFinished(r.states[i], r.labels[i], id);
    RetryPolicy(r, i);
    ExecutorOwnJob(r.states[i], r.labels[i]);
  }

  lemma {:induction false} FinishedIsSpent(r: DaemonRun, id: int, n: nat)
    requires n < |r.states| && IsFinished(r.states[n].q, id) && !IsFinished(r.states[0].q, id)
    ensures Spent(r.states[n].q, id)
    decreases n
  {
    if n > 0 {
      if IsFinished(r.states[n - 1].q, id) {
        FinishedIsSpent(r, id, n - 1);
        RunInv(r, n - 1);
        assert RunStep(r, n - 1);
        FinishedKeepsAttempt(r.states[n - 1], r.labels[n - 1], id);
      } else {
        SpentAtTheEnd(r, id, n - 1);
      }
    }
  }

  // --------------------------------------------------------------------- skipped for a reason

  predicate IsSkipped(q: Queue, id: int) {
    id in q.recs && q.recs[id].info.state.Skipped?
  }

  /** The job waits, requires success, and a dependency that is listed was skipped or ended with a
      non-zero exit code. */
  ghost predicate Doomed(q: Queue, id: int) {
    && IsQueued(q, id) && q.recs[id].requireElevel
    && exists d | d in q.recs[id].info.dependOn && d in q.recs ::
         q.recs[d].info.state.Skipped? || (q.recs[d].info.state.Finished? && q.recs[d].info.result.exitCode != 0)
  }

  ghost predicate FoundDoomed(r: Run, c: nat, id: int) {
    c < |r.labels| && c < |r.states| && r.labels[c].CheckSkip? && Doomed(r.states[c].q, id)
  }

  lemma FoundByCheck(q: Queue, id: int)
    requires RepInv(q) && id in CheckSkippable(q)
    ensures Doomed(q, id)
  {
    SkippableMembers(q, q.order);
  }

  /** A step that leaves the job on the skip list found it doomed, or found it on the list. */
  lemma OnTheList(s: Daemon, l: Label, id: int)
    requires Enabled(s, l) && Step(s, l).pc.Skipping? && id in Step(s, l).pc.ids
    ensures if l.CheckSkip? then Doomed(s.q, id) else s.pc.Skipping? && id in s.pc.ids
  {
    if l.CheckSkip? {
      FoundByCheck(s.q, id);
    }
  }

  lemma {:induction false} ListedAsDoomed(r: DaemonRun, n: nat, id: int) returns (c: nat)
    requires n < |r.states| && r.states[n].pc.Skipping? && id in r.states[n].pc.ids
    ensures c < n && FoundDoomed(r, c, id)
    decreases n
  {
    RunInv(r, n - 1);
    assert RunStep(r, n - 1);
    OnTheList(r.states[n - 1], r.labels[n - 1], id);
    if r.labels[n - 1].CheckSkip? {
      c := n - 1;
    } else {
      c := ListedAsDoomed(r, n - 1, id);
    }
  }

  predicate Skips(s: Sys, l: Label, id: int) {
    l.SkipNext? && s.pc.Skipping? && s.pc.ids != [] && s.pc.ids[0] == id
  }

  lemma BecomesSkipped(s: Daemon, l: Label, id: int)
    requires Enabled(s, l) && IsSkipped(Step(s, l).q, id)
    ensures (IsSkipped(s.q, id) && s.q.recs[id].info.result == Step(s, l).q.recs[id].info.result)
            || (Skips(s, l, id) && Step(s, l).q.recs[id].info.result == Result(0, false, false, true))
  {
    if l.Request? {
      RequestEvolves(s.q, l.op);
      assert id in s.q.recs ==> SameJob(s.q.recs[id], Apply(s.q, l.op).recs[id]);
    } else {
      StepEffect(s, l);
      EffectLegal(s, l);
    }
  }

  /** A job is skipped only if it requires success and the skip check of some pass found it waiting for
      a dependency that had been skipped or had ended with a non-zero exit code. What is recorded then
      is an exit code of 0 and the mark that it was skipped. */
  lemma {:induction false} SkippedForAReason(r: DaemonRun, n: nat, id: int)
    requires n < |r.states| && IsSkipped(r.states[n].q, id)
    ensures IsSkipped(r.states[0].q, id) ||
            (r.states[n].q.recs[id].info.result == Result(0, false, false, true)
             && exists c: nat :: c < n && FoundDoomed(r, c, id))
    decreases n
  {
    if n > 0 {
      RunInv(r, n - 1);
      assert RunStep(r, n - 1);
      BecomesSkipped(r.states[n - 1], r.labels[n - 1], id);
      if IsSkipped(r.states[n - 1].q, id) {
        SkippedForAReason(r, n - 1, id);
      } else {
        var c := ListedAsDoomed(r, n - 1, id);
      }
    }
  }

  // ------------------------------------------------------------------- waiting for nobody

  ghost predicate UnknownAnswered(q: Queue) {
    forall k | 0 <= k < |q.deliveries| && q.deliveries[k].channel < |q.issued| ::
      !q.issued[q.deliveries[k].channel].known ==> q.deliveries[k].result == Result(-1, false, false, false)
  }

  lemma ApplyUnknown(q: Queue, op: QueueOp)
    requires WaiterInv(q) && UnknownAnswered(q)
    ensures UnknownAnswered(Apply(q, op))
  {
    ApplyAnswers(q, op);
    if (op.MarkFinishedOp? || op.MarkSkippedOp?) && op.id in q.recs {
      assert WaitersOk(q, op.id);
      var waiters := q.recs[op.id].waiters;
      assert forall i | 0 <= i < |waiters| :: waiters[i] in waiters;
    }
  }

  /** Whoever waits for a job that does not exist is told -1. */
  lemma {:induction false} UnknownIsMinusOne(r: DaemonRun, n: nat)
    requires n < |r.states|
    ensures UnknownAnswered(r.states[n].q)
  {
    if n > 0 {
      UnknownIsMinusOne(r, n - 1);
      RunInv(r, n - 1);
      assert RunStep(r, n - 1);
      var s, l := r.states[n - 1], r.labels[n - 1];
      StepEffect(s, l);
      if Effect(s, l).Some? {
        ApplyUnknown(s.q, Effect(s, l).value);
      }
    }
  }
}
