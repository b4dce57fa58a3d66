/**
  Slots are never oversubscribed, although the limit, the busy count and the next job are read
  under separate locks while requests and executors come and go in between.
 */
module SlotSafety {
  import opened Collections
  import opened Protocol
  import opened QueueModel
  import opened QueueEvolution
  import opened SystemModel
  import opened SystemInvariant
  import opened SystemSteps

  /** The slots a running job takes on a machine of `max` slots. */
  ghost function ClampedSlots(max: int): Record -> int {
    (r: Record) => if r.info.state.Running? then Min(r.info.numSlots, max) else 0
  }

  ghost predicate OnlyRunning(q: Queue, id: int) {
    forall x | IsRunning(q, x) :: x == id
  }

  lemma ClampedBelowBusy(q: Queue, max: int)
    requires SlotsPositive(q)
    ensures MapSum(q.recs, ClampedSlots(max)) <= BusySlots(q)
  {
    forall id | id in q.recs ensures Slots(q.recs[id]) >= 0 {
      assert q.recs[id].info.numSlots >= 1;
    }
    forall id | id in q.recs ensures ClampedSlots(max)(q.recs[id]) <= WeightAt(q.recs, id, Slots) {
    }
    MapSumLe(q.recs, ClampedSlots(max), q.recs, Slots);
  }

  /** Setting a queued job running adds its need to both sums. */
  lemma StartAdds(q: Queue, id: int, max: int)
    requires IsQueued(q, id)
    ensures var q', need := SetRunning(q, id, 0, ""), q.recs[id].info.numSlots;
            && MapSum(q'.recs, ClampedSlots(max)) == MapSum(q.recs, ClampedSlots(max)) + Min(need, max)
            && BusySlots(q') == BusySlots(q) + need
  {
    var q' := SetRunning(q, id, 0, "");
    MapSumUpdate(q.recs, id, q'.recs[id], ClampedSlots(max));
    MapSumUpdate(q.recs, id, q'.recs[id], Slots);
  }

  lemma RunsAlone(q: Queue, id: int)
    requires IsQueued(q, id) && SlotsPositive(q) && BusySlots(q) <= 0
    ensures OnlyRunning(SetRunning(q, id, 0, ""), id)
  {
    BusyNonNegative(q);
    forall x | IsRunning(SetRunning(q, id, 0, ""), x) ensures x == id {
      assert x != id ==> IsRunning(q, x);
    }
  }

  /** With `max` the limit read in this iteration: when a job starts, the clamped needs of all
      running jobs fit in `max`, and a job larger than the machine runs alone. */
  lemma StartFits(s: Daemon, l: Label)
    requires Enabled(s, l) && l.StartPicked? && s.pc.id in s.q.recs
    ensures var q', max, id := SchedulerStep(s, l).q, s.pc.max, s.pc.id;
            && IsRunning(q', id)
            && MapSum(q'.recs, ClampedSlots(max)) <= max
            && (q'.recs[id].info.numSlots > max ==> OnlyRunning(q', id))
            && (q'.recs[id].info.numSlots <= max ==> BusySlots(q') <= max)
  {
    RepInvSlots(s.q);
    ClampedBelowBusy(s.q, s.pc.max);
    StartAdds(s.q, s.pc.id, s.pc.max);
    if s.q.recs[s.pc.id].info.numSlots > s.pc.max {
      RunsAlone(s.q, s.pc.id);
    }
  }

  lemma SkipShrinks(s: Daemon, l: Label)
    requires Enabled(s, l) && l.SkipNext?
    ensures RunningShrinks(s.q, SchedulerStep(s, l).q)
  {
  }

  /** Only the scheduler's own SetRunning adds a running job. */
  lemma StepShrinks(s: Daemon, l: Label)
    requires Enabled(s, l) && !l.StartPicked?
    ensures RunningShrinks(s.q, Step(s, l).q)
  {
    if l.Request? {
      RequestIsBackground(s, l.op);
    } else if IsExecutor(l) {
      ExecutorIsBackground(s, l);
    } else if l.SkipNext? {
      SkipShrinks(s, l);
    } else {
      assert Step(s, l).q == s.q;
    }
  }

  /** The unclamped demand fits the limit, or a single job has the machine to itself. */
  ghost predicate Within(s: Sys) {
    BusySlots(s.q) <= s.maxSlots || exists id :: OnlyRunning(s.q, id)
  }

  predicate MaxCurrent(s: Sys) {
    match s.pc
    case AtBusy(max) => max == s.maxSlots
    case AtPick(max, _) => max == s.maxSlots
    case AtStart(max, _, _) => max == s.maxSlots
    case _ => true
  }

  lemma StartWithin(s: Daemon, l: Label)
    requires Enabled(s, l) && l.StartPicked? && Within(s) && MaxCurrent(s)
    ensures Within(SchedulerStep(s, l))
  {
    if s.pc.id in s.q.recs {
      StartFits(s, l);
      var q' := SchedulerStep(s, l).q;
      assert q'.recs[s.pc.id].info.numSlots > s.pc.max ==> OnlyRunning(q', s.pc.id);
    }
  }

  lemma ShrinkingWithin(s: Daemon, s': Sys)
    requires RunningShrinks(s.q, s'.q) && s'.maxSlots == s.maxSlots && Within(s)
    ensures Within(s')
  {
    RepInvSlots(s.q);
    BusyShrinks(s.q, s'.q);
    if BusySlots(s.q) > s.maxSlots {
      var id :| OnlyRunning(s.q, id);
      assert OnlyRunning(s'.q, id);
    }
  }

  lemma StepCurrent(s: Sys, l: Label)
    requires Enabled(s, l) && !l.SetMaxSlots? && MaxCurrent(s)
    ensures MaxCurrent(Step(s, l)) && Step(s, l).maxSlots == s.maxSlots
  {
  }

  lemma StepWithin(s: Daemon, l: Label)
    requires Enabled(s, l) && !l.SetMaxSlots? && Within(s) && MaxCurrent(s)
    ensures Within(Step(s, l)) && MaxCurrent(Step(s, l))
  {
    StepCurrent(s, l);
    if l.StartPicked? {
      StartWithin(s, l);
    } else {
      StepShrinks(s, l);
      ShrinkingWithin(s, Step(s, l));
    }
  }

  /** While the limit is left alone, every reachable state keeps within it. */
  lemma {:induction false} RunWithin(r: DaemonRun, i: nat)
    requires i < |r.states|
    requires forall k | 0 <= k < |r.labels| :: !r.labels[k].SetMaxSlots?
    ensures Within(r.states[i]) && MaxCurrent(r.states[i])
  {
    if i == 0 {
      assert OnlyRunning(r.states[0].q, 0);
    } else {
      RunWithin(r, i - 1);
      RunInv(r, i - 1);
      assert RunStep(r, i - 1);
      StepWithin(r.states[i - 1], r.labels[i - 1]);
    }
  }
}
