/**
  Lost wake-ups while jobs run: exactly when a sleeping scheduler leaves a job waiting that would fit
  beside what runs. Nothing is assumed of the clients.
 */
module Wakeups {
  import opened Collections
  import opened Protocol
  import opened QueueModel
  import opened QueueInvariant
  import opened QueueEvolution
  import opened QueueOrder
  import opened SystemModel
  import opened SystemInvariant
  import opened SystemSteps
  import opened Liveness
  import opened Overtaking
  import opened Passes

  /** Of the jobs in `able`, the one that stands first in the list fits beside what runs. */
  ghost predicate HeadFits(q: Queue, ids: seq<int>, able: set<int>, max: int) {
    exists k | 0 <= k < |ids| :: IsHead(ids, able, k) && Fits(q, ids[k], max, BusySlots(q))
  }

  ghost predicate IsHead(ids: seq<int>, able: set<int>, k: nat)
    requires k < |ids|
  {
    ids[k] in able && forall i | 0 <= i < k :: ids[i] !in able
  }

  ghost function ReadyJobs(q: Queue): set<int> {
    set id | id in q.recs && Ready(q, id)
  }

  /** A pass begun now would start a job. */
  ghost predicate CouldStart(q: Queue, max: int) {
    HeadFits(q, q.order, ReadyJobs(q), max)
  }

  /** The scheduler waits for a poke, and none is under way. */
  predicate Sleeping(s: Sys) {
    s.pc.Idle? && Quiet(s)
  }

  /** It sleeps although a job could start. */
  ghost predicate Oversleeps(s: Sys) {
    Sleeping(s) && CouldStart(s.q, s.maxSlots)
  }

  /** What a pass that no poke will repeat has read is still true. */
  ghost predicate UpToDate(s: Sys) {
    Quiet(s) ==>
      && (s.pc.AtBusy? ==> s.pc.max == s.maxSlots)
      && (s.pc.AtPick? ==> s.pc.max == s.maxSlots && s.pc.busy == BusySlots(s.q))
  }

  /** The jobs that could start if the queued job `x` were not there. */
  ghost function FreedJobs(q: Queue, x: int): set<int> {
    set id | id in q.recs && id != x && (Ready(q, id) || LastHeldBy(q, id, x))
  }

  /** The requests that can let a job start and do not poke: removing a queued job, and swapping two. */
  predicate Disturbs(q: Queue, op: QueueOp) {
    (op.RemoveOp? && IsQueued(q, op.id)) || (op.SwapOp? && op.id1 in q.recs && op.id2 in q.recs)
  }

  /** Such a request opens the way for a job: the first one ready without the removed job, or in the new
      order, fits. */
  ghost predicate Opens(q: Queue, op: QueueOp, max: int) {
    if op.RemoveOp? then HeadFits(q, q.order, FreedJobs(q, op.id), max)
    else op.SwapOp? && HeadFits(q, Swap(q, op.id1, op.id2).order, ReadyJobs(q), max)
  }

  // ------------------------------------------------------------------- picking and starting

  /** The scheduler picks a job exactly when a pass by its readings has one to start. */
  lemma PickedIffHeadFits(q: Queue, max: int)
    ensures NextRunnable(q, max, BusySlots(q)).Some? <==> CouldStart(q, max)
  {
    var k := FirstReady(q, 0);
    if k >= 0 {
      assert IsHead(q.order, ReadyJobs(q), k);
    }
    if j :| 0 <= j < |q.order| && IsHead(q.order, ReadyJobs(q), j) && Fits(q, q.order[j], max, BusySlots(q)) {
      assert Ready(q, q.order[j]);
      assert forall i | 0 <= i < j :: !Ready(q, q.order[i]);
      assert k == j;
    }
  }

  // --------------------------------------------------------------------- what requests change

  lemma RunningKept(q: Queue, q': Queue)
    requires Evolves(q, q')
    ensures BusySlots(q') == BusySlots(q)
  {
    var both := q.recs.Keys + q'.recs.Keys;
    var was := map id | id in both && IsRunning(q, id) :: q.recs[id].info.numSlots;
    var now := map id | id in both && IsRunning(q', id) :: q'.recs[id].info.numSlots;
    forall id | id in both ensures IsRunning(q, id) <==> IsRunning(q', id) {
      assert id in q.recs && id in q'.recs ==> SameJob(q.recs[id], q'.recs[id]);
    }
    forall id | id in was ensures id in now && now[id] == was[id] {
      assert SameJob(q.recs[id], q'.recs[id]);
    }
    assert was == now;
    MapSumEq(was, (n: int) => n, q.recs, Slots);
    MapSumEq(was, (n: int) => n, q'.recs, Slots);
  }

  lemma {:induction false} HeadWithout(ids: seq<int>, gone: set<int>, able: set<int>, k: nat) returns (j: nat)
    requires able !! gone && k < |ids| && IsHead(ids, able, k)
    ensures j < |Without(ids, gone)| && Without(ids, gone)[j] == ids[k] && IsHead(Without(ids, gone), able, j)
    decreases ids
  {
    var front, last := ids[..|ids| - 1], ids[|ids| - 1];
    if k < |front| {
      j := HeadWithout(front, gone, able, k);
    } else {
      j := |Without(front, gone)|;
      forall i | 0 <= i < j ensures Without(ids, gone)[i] !in able {
        WithoutMembers(front, gone, Without(front, gone)[i]);
      }
    }
  }

  lemma HeadFrom(ids: seq<int>, gone: set<int>, able: set<int>, j: nat) returns (k: nat)
    requires able !! gone && j < |Without(ids, gone)| && IsHead(Without(ids, gone), able, j)
    ensures k < |ids| && ids[k] == Without(ids, gone)[j] && IsHead(ids, able, k)
  {
    WithoutMembers(ids, gone, Without(ids, gone)[j]);
    k := FirstAble(ids, able, Without(ids, gone)[j]);
    var i := HeadWithout(ids, gone, able, k);
    assert i == j;
  }

  lemma {:induction false} FirstAble(ids: seq<int>, able: set<int>, some: int) returns (k: nat)
    requires some in ids && some in able
    ensures k < |ids| && IsHead(ids, able, k)
    decreases ids
  {
    if ids[0] in able {
      k := 0;
    } else {
      var rest := ids[1..];
      assert ids == [ids[0]] + rest;
      var j := FirstAble(rest, able, some);
      k := j + 1;
      forall i | 0 <= i < k ensures ids[i] !in able {
        assert i > 0 ==> ids[i] == rest[i - 1];
      }
    }
  }

  /** Forgetting jobs that cannot start does not change who is first. */
  lemma ForgettingKeepsHead(q: Queue, q': Queue, gone: set<int>, able: set<int>, max: int)
    requires able !! gone && q'.order == Without(q.order, gone)
    requires BusySlots(q') == BusySlots(q) && forall id | id in able :: Need(q', id) == Need(q, id)
    ensures HeadFits(q', q'.order, able, max) <==> HeadFits(q, q.order, able, max)
  {
    if k :| 0 <= k < |q.order| && IsHead(q.order, able, k) && Fits(q, q.order[k], max, BusySlots(q)) {
      var j := HeadWithout(q.order, gone, able, k);
      assert Fits(q', q'.order[j], max, BusySlots(q'));
    }
    if j :| 0 <= j < |q'.order| && IsHead(q'.order, able, j) && Fits(q', q'.order[j], max, BusySlots(q')) {
      var k := HeadFrom(q.order, gone, able, j);
      assert Fits(q, q.order[k], max, BusySlots(q));
    }
  }

  lemma RemovalOpens(q: Queue, x: int, max: int)
    requires RepInv(q) && IsQueued(q, x)
    ensures CouldStart(Remove(q, x), max) <==> HeadFits(q, q.order, FreedJobs(q, x), max)
  {
    var q' := Remove(q, x);
    RequestEvolves(q, RemoveOp(x));
    RunningKept(q, q');
    forall id ensures id in ReadyJobs(q') <==> id in FreedJobs(q, x) {
      RemovalReady(q, x, id);
    }
    assert ReadyJobs(q') == FreedJobs(q, x);
    ForgettingKeepsHead(q, q', {x}, FreedJobs(q, x), max);
  }

  lemma SwapOpens(q: Queue, op: QueueOp, max: int)
    requires op.SwapOp?
    ensures CouldStart(Apply(q, op), max) <==> HeadFits(q, Swap(q, op.id1, op.id2).order, ReadyJobs(q), max)
  {
    var q' := Apply(q, op);
    assert q'.recs == q.recs && ReadyJobs(q') == ReadyJobs(q);
    assert forall id :: Fits(q', id, max, BusySlots(q')) == Fits(q, id, max, BusySlots(q));
  }

  /** A request that neither submits nor disturbs leaves the picture as it is. */
  lemma OthersOpenNothing(q: Queue, op: QueueOp, max: int)
    requires RepInv(q) && IsRequest(op) && !op.AddOp? && !Disturbs(q, op) && Pokes(q, op) == 0
    ensures CouldStart(Apply(q, op), max) <==> CouldStart(q, max)
  {
    var q' := Apply(q, op);
    var gone := q.recs.Keys - q'.recs.Keys;
    RequestEvolves(q, op);
    RunningKept(q, q');
    forall id ensures id in ReadyJobs(q') <==> id in ReadyJobs(q) {
      RequestReadiness(q, op, id);
    }
    assert ReadyJobs(q') == ReadyJobs(q);
    OrderApartFromForgotten(q, op);
    forall id | id in ReadyJobs(q) ensures Need(q', id) == Need(q, id) {
      assert id in ReadyJobs(q') && SameJob(q.recs[id], q'.recs[id]);
    }
    ForgettingKeepsHead(q, q', gone, ReadyJobs(q), max);
  }

  lemma OrderApartFromForgotten(q: Queue, op: QueueOp)
    requires RepInv(q) && IsRequest(op) && !op.AddOp? && !Disturbs(q, op) && Pokes(q, op) == 0
    ensures Apply(q, op).order == Without(q.order, q.recs.Keys - Apply(q, op).recs.Keys)
  {
    if Forgets(op) {
      ForgottenOrder(q, op);
    } else {
      NothingForgotten(q, op);
      WithoutNothing(q.order, q.recs.Keys - Apply(q, op).recs.Keys);
    }
  }

  lemma NothingForgotten(q: Queue, op: QueueOp)
    requires IsRequest(op) && !op.AddOp? && !Forgets(op) && !Disturbs(q, op) && Pokes(q, op) == 0 && Indexed(q)
    ensures Apply(q, op).order == q.order && Apply(q, op).recs.Keys == q.recs.Keys
  {
    if !Touches(op) {
      assert Apply(q, op).recs == q.recs;
    }
  }

  // ------------------------------------------------------------------------ step by step

  /** How one step makes or keeps a scheduler that oversleeps. */
  ghost predicate OversleepStep(s: Sys, l: Label, s': Sys) {
    Oversleeps(s') <==>
      if l.Request? && Disturbs(s.q, l.op) then Sleeping(s) && Opens(s.q, l.op, s.maxSlots)
      else Oversleeps(s) && Quiet(s')
  }

  lemma RequestOversleep(s: Daemon, l: Label)
    requires l.Request? && IsRequest(l.op)
    ensures OversleepStep(s, l, RequestStep(s, l.op))
  {
    if Disturbs(s.q, l.op) {
      if l.op.RemoveOp? {
        RemovalOpens(s.q, l.op.id, s.maxSlots);
      } else {
        SwapOpens(s.q, l.op, s.maxSlots);
      }
    } else if Pokes(s.q, l.op) == 0 {
      OthersOpenNothing(s.q, l.op, s.maxSlots);
    }
  }

  /** An executor that owes no poke changes nothing that a pass looks at. */
  lemma ExecutorPicture(s: Daemon, l: Label)
    requires IsExecutor(l) && Enabled(s, l) && ExecutorStep(s, l).owed == s.owed
    ensures var q' := ExecutorStep(s, l).q;
            && q'.order == s.q.order && ReadyJobs(q') == ReadyJobs(s.q) && BusySlots(q') == BusySlots(s.q)
            && forall id :: Need(q', id) == Need(s.q, id)
  {
    var q', own := ExecutorStep(s, l).q, s.live[l.g].id;
    if own in s.q.recs {
      assert IsRunning(s.q, own) && IsRunning(q', own);
      assert q'.recs == s.q.recs[own := q'.recs[own]];
      MapSumUpdate(s.q.recs, own, q'.recs[own], Slots);
      assert forall d :: Settled(q', d) == Settled(s.q, d);
      assert forall id :: id in ReadyJobs(q') <==> id in ReadyJobs(s.q);
    }
  }

  lemma SamePicture(q: Queue, q': Queue, max: int)
    requires q'.order == q.order && ReadyJobs(q') == ReadyJobs(q) && BusySlots(q') == BusySlots(q)
    requires forall id :: Need(q', id) == Need(q, id)
    ensures CouldStart(q', max) <==> CouldStart(q, max)
  {
    assert forall id :: Fits(q', id, max, BusySlots(q')) == Fits(q, id, max, BusySlots(q));
  }

  lemma ExecutorOversleep(s: Daemon, l: Label)
    requires IsExecutor(l) && Enabled(s, l)
    ensures OversleepStep(s, l, ExecutorStep(s, l))
  {
    var s' := ExecutorStep(s, l);
    if s'.owed == s.owed {
      ExecutorPicture(s, l);
      SamePicture(s.q, s'.q, s.maxSlots);
    }
  }

  lemma SchedulerOversleep(s: Daemon, l: Label)
    requires IsScheduler(l) && Enabled(s, l) && UpToDate(s)
    ensures OversleepStep(s, l, SchedulerStep(s, l))
  {
    if l.PickNext? {
      PickedIffHeadFits(s.q, s.maxSlots);
    }
  }

  /** One step, exactly: afterwards the scheduler oversleeps iff a queued job was removed or two jobs were
      swapped while it slept and the first job now ready fits, or it overslept before and the step, another
      one, sends no poke. */
  lemma StepOversleep(s: Daemon, l: Label)
    requires Enabled(s, l) && UpToDate(s)
    ensures OversleepStep(s, l, Step(s, l))
  {
    if l.Request? {
      RequestOversleep(s, l);
    } else if IsExecutor(l) {
      ExecutorOversleep(s, l);
    } else if IsScheduler(l) {
      SchedulerOversleep(s, l);
    }
  }

  lemma RequestUpToDate(s: Daemon, op: QueueOp)
    requires UpToDate(s) && IsRequest(op)
    ensures UpToDate(RequestStep(s, op))
  {
    RequestEvolves(s.q, op);
    RunningKept(s.q, Apply(s.q, op));
  }

  lemma ExecutorUpToDate(s: Daemon, l: Label)
    requires UpToDate(s) && IsExecutor(l) && Enabled(s, l)
    ensures UpToDate(ExecutorStep(s, l))
  {
    if ExecutorStep(s, l).owed == s.owed {
      ExecutorPicture(s, l);
    }
  }

  lemma StepUpToDate(s: Daemon, l: Label)
    requires Enabled(s, l) && UpToDate(s)
    ensures UpToDate(Step(s, l))
  {
    if l.Request? {
      RequestUpToDate(s, l.op);
    } else if IsExecutor(l) {
      ExecutorUpToDate(s, l);
    }
  }

  // ---------------------------------------------------------------------- over whole runs

  ghost predicate UpToDateAt(r: DaemonRun, i: nat) {
    i < |r.states| ==> UpToDate(r.states[i])
  }

  lemma {:induction false} RunUpToDate(r: DaemonRun, i: nat)
    ensures UpToDateAt(r, i)
  {
    if 0 < i < |r.states| {
      RunUpToDate(r, i - 1);
      RunInv(r, i - 1);
      assert RunStep(r, i - 1);
      StepUpToDate(r.states[i - 1], r.labels[i - 1]);
    }
  }

  /** Every pick, over every run: by its readings the pass ends exactly when nothing is ready or the first
      ready job does not fit, and otherwise goes on with that job. */
  lemma PickIsExact(r: DaemonRun, i: nat)
    requires i < |r.labels| && r.labels[i].PickNext? && r.states[i].pc.AtPick?
    ensures var q, max, busy := r.states[i].q, r.states[i].pc.max, r.states[i].pc.busy;
            var ready := ReadyIn(q, q.order);
            r.states[i + 1].pc ==
              if ready == [] || !Fits(q, ready[0], max, busy) then Idle else AtStart(max, busy, ready[0])
  {
    assert RunStep(r, i);
    PickExactly(r.states[i].q, r.states[i].pc.max, r.states[i].pc.busy);
  }

  ghost predicate DisturbedAt(r: Run, j: nat)
    requires j < |r.labels| && j < |r.states|
  {
    r.labels[j].Request? && Disturbs(r.states[j].q, r.labels[j].op)
  }

  /** At step `j` a sleeping scheduler's list was disturbed so that a job could start; up to state `i` it
      was not disturbed again, and no poke has been under way. */
  ghost predicate OpenedUnheard(r: Run, j: nat, i: nat) {
    && j < i < |r.states| && i <= |r.labels|
    && Sleeping(r.states[j]) && DisturbedAt(r, j) && Opens(r.states[j].q, r.labels[j].op, r.states[j].maxSlots)
    && (forall k: nat | j < k <= i :: Quiet(r.states[k]))
    && (forall k: nat | j < k < i :: !DisturbedAt(r, k))
  }

  lemma RunOversleepStep(r: DaemonRun, i: nat)
    requires i < |r.labels|
    ensures OversleepStep(r.states[i], r.labels[i], r.states[i + 1])
  {
    RunInv(r, i);
    RunUpToDate(r, i);
    assert RunStep(r, i);
    StepOversleep(r.states[i], r.labels[i]);
  }

  lemma {:induction false} OversleepsOn(r: DaemonRun, j: nat, i: nat)
    requires OpenedUnheard(r, j, i)
    ensures Oversleeps(r.states[i])
    decreases i
  {
    RunOversleepStep(r, i - 1);
    if j < i - 1 {
      OversleepsOn(r, j, i - 1);
      assert !DisturbedAt(r, i - 1) && Quiet(r.states[i]);
    }
  }

  lemma {:induction false} OversleepsSince(r: DaemonRun, i: nat) returns (j: nat)
    requires i < |r.states| && Oversleeps(r.states[i])
    ensures OpenedUnheard(r, j, i)
    decreases i
  {
    RunOversleepStep(r, i - 1);
    j := i - 1;
    if !DisturbedAt(r, j) {
      j := OversleepsSince(r, i - 1);
    }
  }

  /** Lost wake-ups beside running jobs, exactly: a sleeping scheduler leaves a job waiting that would fit
      iff, while it slept, a queued job was removed or two jobs were swapped so that the first ready job
      fits, and since then nothing like it and no poke has come. Submissions, urgent jobs, a new limit and
      the end of every attempt do poke. */
  lemma OversleepExactly(r: DaemonRun, i: nat)
    requires i < |r.states|
    ensures Oversleeps(r.states[i]) <==> exists j: nat :: OpenedUnheard(r, j, i)
  {
    if Oversleeps(r.states[i]) {
      var j := OversleepsSince(r, i);
    }
    if j: nat :| OpenedUnheard(r, j, i) {
      OversleepsOn(r, j, i);
    }
  }

  /** So if no queued job is removed and no jobs are swapped while the scheduler sleeps, it sleeps only when
      nothing is ready or the first ready job does not fit. */
  lemma SleepsWithReason(r: DaemonRun, i: nat)
    requires i < |r.states| && Sleeping(r.states[i])
    requires forall j: nat | j < i && j < |r.labels| && Sleeping(r.states[j]) :: !DisturbedAt(r, j)
    ensures var q := r.states[i].q;
            var ready := ReadyIn(q, q.order);
            ready == [] || !Fits(q, ready[0], r.states[i].maxSlots, BusySlots(q))
  {
    OversleepExactly(r, i);
    PickedIffHeadFits(r.states[i].q, r.states[i].maxSlots);
    PickExactly(r.states[i].q, r.states[i].maxSlots, BusySlots(r.states[i].q));
  }
}
