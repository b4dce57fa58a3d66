/**
  What "runs only if its dependencies succeeded" comes to over whole runs, when requests and
  executors come between the skip check of a pass and the pick of a job.
 */
module RequiredSuccess {
  import opened QueueModel
  import opened QueueInvariant
  import opened QueueEvolution
  import opened SystemModel
  import opened SystemInvariant
  import opened SystemSteps
  import opened SkipRounds
  import opened Attempts

  // ------------------------------------------------------- how a job ends badly

  /** Skipped or failed: over, but not a success. */
  predicate EndedBadly(q: Queue, d: int) {
    IsTerminal(q, d) && !Succeeded(q, d)
  }

  /** The skip rule sees every bad end but the hidden failures. */
  lemma BadEnds(q: Queue, d: int)
    ensures EndedBadly(q, d) <==> Spoiled(q, d) || HiddenFailure(q, d)
  {
  }

  /** The step skips job `d`, or reports that its final attempt failed. */
  predicate EndsBadly(s: Sys, l: Label, d: int)
    requires Enabled(s, l)
  {
    && d in s.q.recs
    && ((l.SkipNext? && s.pc.ids != [] && s.pc.ids[0] == d)
        || (l.ExecFinish? && s.live[l.g].id == d && JobFailed(s.live[l.g].phase.result)))
  }

  lemma EndedStaysEnded(s: Daemon, l: Label, d: int)
    requires Enabled(s, l) && IsTerminal(s.q, d) && d in Step(s, l).q.recs
    ensures EndedBadly(Step(s, l).q, d) <==> EndedBadly(s.q, d)
    ensures !EndsBadly(s, l, d)
  {
    StepAbsorbs(s, l, d);
    EffectLegal(s, l);
  }

  lemma RequestEndsNone(s: Daemon, l: Label, d: int)
    requires Enabled(s, l) && l.Request? && !IsTerminal(s.q, d) && d in s.q.recs && d in Step(s, l).q.recs
    ensures !EndedBadly(Step(s, l).q, d)
  {
    RequestEvolves(s.q, l.op);
    assert SameJob(s.q.recs[d], Apply(s.q, l.op).recs[d]);
  }

  /** What the scheduler's and executors' mutators do to a job that has not ended. */
  lemma MutatorEnds(q: Queue, op: QueueOp, d: int)
    requires op.SetRunningOp? || op.RequeueOp? || op.MarkSkippedOp? || op.MarkFinishedOp?
    requires d in q.recs && !IsTerminal(q, d)
    ensures EndedBadly(Apply(q, op), d) <==>
              op.id == d && (op.MarkSkippedOp? || (op.MarkFinishedOp? && JobFailed(op.result)))
  {
  }

  lemma OwnStepEnds(s: Daemon, l: Label, d: int)
    requires Enabled(s, l) && !l.Request? && !IsTerminal(s.q, d) && d in s.q.recs
    ensures EndedBadly(After(s.q, Effect(s, l)), d) <==> EndsBadly(s, l, d)
  {
    var e := Effect(s, l);
    if e.Some? {
      MutatorEnds(s.q, e.value, d);
    }
  }

  /** Only such a step makes a listed job one that ended badly. */
  lemma BadStep(s: Daemon, l: Label, d: int)
    requires Enabled(s, l) && d in s.q.recs && d in Step(s, l).q.recs
    ensures EndedBadly(Step(s, l).q, d) <==> EndedBadly(s.q, d) || EndsBadly(s, l, d)
  {
    if IsTerminal(s.q, d) {
      EndedStaysEnded(s, l, d);
    } else if l.Request? {
      RequestEndsNone(s, l, d);
    } else {
      StepEffect(s, l);
      OwnStepEnds(s, l, d);
    }
  }

  lemma ArrivesQueued(s: Daemon, l: Label, d: int)
    requires Enabled(s, l) && d !in s.q.recs && d in Step(s, l).q.recs
    ensures s.q.nextID <= d && IsQueued(Step(s, l).q, d)
  {
    if l.Request? {
      RequestEvolves(s.q, l.op);
    } else {
      StepEffect(s, l);
    }
  }

  // --------------------------------------------------------------- over a stretch

  ghost predicate EndsBadlyAt(r: DaemonRun, j: nat, d: int)
    requires j < |r.labels|
  {
    assert RunStep(r, j);
    EndsBadly(r.states[j], r.labels[j], d)
  }

  ghost predicate EndsBadlyBetween(r: DaemonRun, c: nat, p: nat, d: int) {
    exists j: nat | c <= j < p && j < |r.labels| :: EndsBadlyAt(r, j, d)
  }

  lemma BetweenSnoc(r: DaemonRun, c: nat, p: nat, d: int)
    requires c <= p < |r.labels|
    ensures EndsBadlyBetween(r, c, p + 1, d) <==> EndsBadlyBetween(r, c, p, d) || EndsBadlyAt(r, p, d)
  {
    if EndsBadlyBetween(r, c, p, d) {
      var j: nat :| c <= j < p && j < |r.labels| && EndsBadlyAt(r, j, d);
      assert c <= j < p + 1;
    }
  }

  /** The history of job `d` from state `c` on, told from state `j`. */
  ghost predicate Told(r: DaemonRun, c: nat, j: nat, d: int)
    requires c <= j < |r.states|
  {
    var was, now := r.states[c].q, r.states[j].q;
    && (d in now.recs ==> (EndedBadly(now, d) <==> EndedBadly(was, d) || EndsBadlyBetween(r, c, j, d)))
    && (d >= now.nextID ==> !EndedBadly(was, d) && !EndsBadlyBetween(r, c, j, d))
  }

  lemma ToldAtOnce(s: Daemon, d: int)
    ensures d >= s.q.nextID ==> d !in s.q.recs
  {
    assert d in s.q.recs ==> RecordOk(s.q, d);
  }

  lemma ToldStep(r: DaemonRun, c: nat, j: nat, d: int)
    requires c <= j < |r.labels| && Told(r, c, j, d)
    ensures Told(r, c, j + 1, d)
  {
    RunInv(r, j);
    assert RunStep(r, j);
    var s, l := r.states[j], r.labels[j];
    BetweenSnoc(r, c, j, d);
    ToldAtOnce(s, d);
    IdsGrow(s, l);
    if d in Step(s, l).q.recs {
      if d in s.q.recs {
        BadStep(s, l, d);
      } else {
        ArrivesQueued(s, l, d);
      }
    }
  }

  /** A listed job has ended badly exactly when it had at `c`, or some step since then ended it badly. */
  lemma {:induction false} WholeStory(r: DaemonRun, c: nat, j: nat, d: int)
    requires c <= j < |r.states|
    ensures Told(r, c, j, d)
    decreases j
  {
    if c == j {
      RunInv(r, c);
      ToldAtOnce(r.states[c], d);
    } else {
      WholeStory(r, c, j - 1, d);
      ToldStep(r, c, j - 1, d);
    }
  }

  // -------------------------------------------------------------- within a pass

  /** Step `c` is the skip check of the pass that is still under way at step `p`. */
  ghost predicate SamePass(r: DaemonRun, c: nat, p: nat) {
    && c < p < |r.labels| && r.labels[c].CheckSkip?
    && forall j | c < j < p :: !r.labels[j].CheckSkip?
  }

  /** Still on the list of jobs to skip, or no longer waiting and never to wait again. */
  ghost predicate Handled(s: Sys, id: int) {
    && id < s.q.nextID
    && ((s.pc.Skipping? && id in s.pc.ids) || id !in s.q.recs || IsTerminal(s.q, id))
  }

  lemma HandledStep(s: Daemon, l: Label, id: int)
    requires Enabled(s, l) && !l.CheckSkip? && Handled(s, id)
    ensures Handled(Step(s, l), id)
  {
    IdsGrow(s, l);
    var s' := Step(s, l);
    if s.pc.Skipping? && id in s.pc.ids && IsScheduler(l) {
      assert s.pc.ids == [s.pc.ids[0]] + s.pc.ids[1..];
    } else if !(s.pc.Skipping? && id in s.pc.ids) && id in s'.q.recs {
      OldIds(s, l, id);
      StepAbsorbs(s, l, id);
    }
  }

  lemma CheckHandles(s: Daemon, l: Label, id: int)
    requires Enabled(s, l) && l.CheckSkip? && Skippable(s.q, id)
    ensures Handled(Step(s, l), id)
  {
    assert RecordOk(s.q, id);
    SkippableMembers(s.q, s.q.order);
    assert id in s.q.order;
  }

  lemma {:induction false} SkippableIsHandled(r: DaemonRun, c: nat, j: nat, id: int)
    requires c < j < |r.states| && r.labels[c].CheckSkip? && Skippable(r.states[c].q, id)
    requires forall k | c < k < j :: !r.labels[k].CheckSkip?
    ensures Handled(r.states[j], id)
    decreases j
  {
    RunInv(r, j - 1);
    assert RunStep(r, j - 1);
    if j == c + 1 {
      CheckHandles(r.states[c], r.labels[c], id);
    } else {
      SkippableIsHandled(r, c, j - 1, id);
      HandledStep(r.states[j - 1], r.labels[j - 1], id);
    }
  }

  /** A job keeps its dependencies and their requirement between two states that list it. */
  ghost predicate SameRule(q: Queue, p: Queue, id: int)
    requires id in q.recs && id in p.recs
  {
    p.recs[id].info.dependOn == q.recs[id].info.dependOn && p.recs[id].requireElevel == q.recs[id].requireElevel
  }

  lemma {:induction false} RuleStays(r: DaemonRun, c: nat, j: nat, id: int)
    requires c <= j < |r.states| && id in r.states[c].q.recs
    ensures id < r.states[j].q.nextID
    ensures id in r.states[j].q.recs ==> SameRule(r.states[c].q, r.states[j].q, id)
    decreases j
  {
    RunInv(r, c);
    if c == j {
      assert RecordOk(r.states[c].q, id);
    } else {
      RuleStays(r, c, j - 1, id);
      RunInv(r, j - 1);
      assert RunStep(r, j - 1);
      IdsGrow(r.states[j - 1], r.labels[j - 1]);
      if id in r.states[j].q.recs {
        OldIds(r.states[j - 1], r.labels[j - 1], id);
        SameDependencies(r.states[j - 1], r.labels[j - 1], id);
      }
    }
  }

  // ------------------------------------------------------------- what a pick means

  /** At step `p` the scheduler picks the require-success job `id`. */
  ghost predicate PicksRequired(r: DaemonRun, p: nat, id: int)
    requires p < |r.labels|
  {
    && r.labels[p].PickNext? && r.states[p + 1].pc.AtStart? && r.states[p + 1].pc.id == id
    && id in r.states[p].q.recs && r.states[p].q.recs[id].requireElevel
  }

  lemma PickedIsReady(r: DaemonRun, p: nat, id: int)
    requires p < |r.labels| && PicksRequired(r, p, id)
    ensures Ready(r.states[p].q, id) && r.states[p].pc.AtPick?
  {
    assert RunStep(r, p);
  }

  lemma {:induction false} StillToCheck(r: DaemonRun, j: nat)
    requires j < |r.states| && forall k | 0 <= k < j :: !r.labels[k].CheckSkip?
    ensures r.states[j].pc.Check?
  {
    if j > 0 {
      StillToCheck(r, j - 1);
      assert RunStep(r, j - 1);
    }
  }

  lemma {:induction false} LastCheck(r: DaemonRun, j: nat) returns (c: int)
    requires j <= |r.labels|
    ensures -1 <= c < j && (c >= 0 ==> r.labels[c].CheckSkip?)
    ensures forall k | c < k < j :: !r.labels[k].CheckSkip?
  {
    if j == 0 {
      c := -1;
    } else if r.labels[j - 1].CheckSkip? {
      c := j - 1;
    } else {
      c := LastCheck(r, j - 1);
    }
  }

  /** Every pick belongs to a pass that began with a skip check. */
  lemma EveryPickWasChecked(r: DaemonRun, p: nat) returns (c: nat)
    requires p < |r.labels| && r.labels[p].PickNext?
    ensures SamePass(r, c, p)
  {
    assert RunStep(r, p);
    var last := LastCheck(r, p);
    if last < 0 {
      StillToCheck(r, p);
    }
    c := last;
  }

  /** A job that waited at the skip check and is picked had no spoiled dependency then. */
  lemma CheckedBefore(r: DaemonRun, c: nat, p: nat, id: int, d: int)
    requires SamePass(r, c, p) && PicksRequired(r, p, id)
    requires IsQueued(r.states[c].q, id) && d in r.states[p].q.recs[id].info.dependOn
    ensures !Spoiled(r.states[c].q, d)
  {
    PickedIsReady(r, p, id);
    RuleStays(r, c, p, id);
    if Skippable(r.states[c].q, id) {
      SkippableIsHandled(r, c, p, id);
      assert false;
    }
  }

  /** One dependency, known at the pick: it succeeded exactly when it had not ended badly at the skip
      check and no step of the pass ended it badly. */
  lemma DependencyAtPick(r: DaemonRun, c: nat, p: nat, id: int, d: int)
    requires SamePass(r, c, p) && PicksRequired(r, p, id)
    requires d in r.states[p].q.recs[id].info.dependOn && d in r.states[p].q.recs
    ensures Succeeded(r.states[p].q, d) <==>
              !Spoiled(r.states[c].q, d) && !HiddenFailure(r.states[c].q, d) && !EndsBadlyBetween(r, c, p, d)
  {
    PickedIsReady(r, p, id);
    WholeStory(r, c, p, d);
    BadEnds(r.states[c].q, d);
    assert Settled(r.states[p].q, d);
  }

  ghost predicate KnownDep(q: Queue, id: int, d: int) {
    id in q.recs && d in q.recs[id].info.dependOn && d in q.recs
  }

  /** In every run: a picked require-success job has only successful known dependencies exactly when
      no step of the pass so far skipped or failed one of them, none had failed with exit code 0
      before the skip check, and the job was there to be checked or had nothing to be skipped for. */
  lemma PickMeansSuccess(r: DaemonRun, c: nat, p: nat, id: int)
    requires SamePass(r, c, p) && PicksRequired(r, p, id)
    ensures var was, now := r.states[c].q, r.states[p].q;
            (forall d | KnownDep(now, id, d) :: Succeeded(now, d)) <==>
              (&& (forall d | KnownDep(now, id, d) :: !EndsBadlyBetween(r, c, p, d))
               && (forall d | KnownDep(now, id, d) :: !HiddenFailure(was, d))
               && (IsQueued(was, id) || forall d | KnownDep(now, id, d) :: !Spoiled(was, d)))
  {
    var was, now := r.states[c].q, r.states[p].q;
    forall d | KnownDep(now, id, d)
      ensures Succeeded(now, d) <==> !Spoiled(was, d) && !HiddenFailure(was, d) && !EndsBadlyBetween(r, c, p, d)
      ensures IsQueued(was, id) ==> !Spoiled(was, d)
    {
      DependencyAtPick(r, c, p, id, d);
      if IsQueued(was, id) {
        CheckedBefore(r, c, p, id, d);
      }
    }
  }

  // --------------------------------------------------------- forgotten dependencies

  ghost predicate Gone(q: Queue, d: int) {
    d < q.nextID && d !in q.recs
  }

  lemma StaysGone(r: DaemonRun, j: nat, d: int)
    requires j < |r.labels| && Gone(r.states[j].q, d)
    ensures Gone(r.states[j + 1].q, d)
  {
    RunInv(r, j);
    assert RunStep(r, j);
    IdsGrow(r.states[j], r.labels[j]);
    if d in r.states[j + 1].q.recs {
      OldIds(r.states[j], r.labels[j], d);
    }
  }

  lemma {:induction false} GoneForGood(r: DaemonRun, k: nat, j: nat, d: int)
    requires k < j < |r.states| && d in r.states[k].q.recs && d !in r.states[k + 1].q.recs
    ensures Gone(r.states[j].q, d)
    decreases j
  {
    if j > k + 1 {
      GoneForGood(r, k, j - 1, d);
      StaysGone(r, j - 1, d);
    } else {
      RuleStays(r, k, j, d);
    }
  }

  /** A job dropped from the list is gone for good, and how it had ended is in the history alone. */
  lemma ForgottenForGood(r: DaemonRun, k: nat, j: nat, d: int)
    requires k < j < |r.states| && d in r.states[k].q.recs && d !in r.states[k + 1].q.recs
    ensures d !in r.states[j].q.recs
    ensures Succeeded(r.states[k].q, d) <==>
              IsTerminal(r.states[k].q, d) && !EndedBadly(r.states[0].q, d) && !EndsBadlyBetween(r, 0, k, d)
  {
    GoneForGood(r, k, j, d);
    WholeStory(r, 0, k, d);
  }

  /** Forgetting the ended jobs makes no job wait less or more, but leaves nothing to skip any job for:
      one that was due to be skipped would start. */
  lemma ClearingHidesFailures(q: Queue, id: int)
    ensures Ready(ClearFinished(q), id) <==> Ready(q, id)
    ensures !Skippable(ClearFinished(q), id)
  {
    var q' := ClearFinished(q);
    if IsQueued(q, id) {
      assert id in q'.recs && q'.recs[id] == q.recs[id];
      forall d | d in q.recs[id].info.dependOn ensures Settled(q', d) == Settled(q, d) && !Spoiled(q', d) {
        assert d in q'.recs ==> q'.recs[d] == q.recs[d] && !IsTerminal(q, d);
      }
    }
  }
}
