/**
  Bounded overtaking: once a queued job's dependencies are met, only jobs ahead of it in the
  list start before it, and only as often as their retries still allow.
 */
module Overtaking {
  import opened Collections
  import opened Protocol
  import opened QueueModel
  import opened QueueInvariant
  import opened QueueEvolution
  import opened SystemModel
  import opened SystemInvariant
  import opened SystemSteps
  import opened Attempts
  import opened Liveness

  /** How often a job can still start. */
  function StartsLeft(r: Record): int {
    match r.info.state
    case Queued => RetriesLeft(r) + 1
    case Running => RetriesLeft(r)
    case _ => 0
  }

  ghost function AheadOf(q: Queue, id: int): map<int, Record> {
    map x | x in q.recs && x in Before(q.order, id) :: q.recs[x]
  }

  /** A start already decided on, of a job that is not ahead. */
  ghost predicate Pending(s: Sys, id: int) {
    s.pc.AtStart? && s.pc.id != id && s.pc.id !in AheadOf(s.q, id)
  }

  /** The starts that may still precede the start of job `id`. */
  ghost function Budget(s: Sys, id: int): int {
    MapSum(AheadOf(s.q, id), StartsLeft) + if Pending(s, id) then 1 else 0
  }

  predicate Reorders(l: Label) {
    l.Request? && (l.op.MakeUrgentOp? || l.op.SwapOp?)
  }

  lemma BudgetNonNegative(s: Sys, id: int)
    requires RepInv(s.q)
    ensures Budget(s, id) >= 0
  {
    forall x | x in AheadOf(s.q, id) ensures StartsLeft(AheadOf(s.q, id)[x]) >= 0 {
      assert RecordOk(s.q, x);
    }
    MapSumNonNegative(AheadOf(s.q, id), StartsLeft);
  }

  // --------------------------------------------------------- staying ready

  /** Every dependency of the job names an id already handed out. */
  predicate DepsKnown(q: Queue, id: int)
    requires id in q.recs
  {
    forall d | d in q.recs[id].info.dependOn :: d < q.nextID
  }

  lemma KeepsDepsKnown(s: Daemon, l: Label, id: int)
    requires Enabled(s, l) && id in s.q.recs && id in Step(s, l).q.recs && DepsKnown(s.q, id)
    ensures DepsKnown(Step(s, l).q, id)
  {
    SameDependencies(s, l, id);
    if l.Request? {
      RequestEvolves(s.q, l.op);
    } else {
      StepEffect(s, l);
    }
  }

  /** Met dependencies stay met: jobs that ended stay ended, and forgotten ids never return. */
  lemma StaysReady(s: Daemon, l: Label, id: int)
    requires Enabled(s, l)
    requires Ready(s.q, id) && DepsKnown(s.q, id) && IsQueued(Step(s, l).q, id)
    ensures Ready(Step(s, l).q, id)
  {
    var q' := Step(s, l).q;
    SameDependencies(s, l, id);
    forall d | d in q'.recs[id].info.dependOn ensures Settled(q', d) {
      assert Settled(s.q, d) && d < s.q.nextID;
      if d in q'.recs {
        OldIds(s, l, d);
        StepAbsorbs(s, l, d);
      }
    }
  }

  // ------------------------------------------------------------ the budget

  /** A request that does not reorder puts nothing new ahead of a listed job. */
  lemma RequestAhead(q: Queue, op: QueueOp, id: int)
    requires RepInv(q) && IsRequest(op) && !op.MakeUrgentOp? && !op.SwapOp?
    requires id in q.recs && id in Apply(q, op).recs
    ensures Before(Apply(q, op).order, id) <= Before(q.order, id)
  {
    var q' := Apply(q, op);
    if op.AddOp? {
      NextIsFresh(q);
      assert q'.order[..|q.order|] == q.order;
    } else if Forgets(op) && q'.order != q.order {
      var gone := q.recs.Keys - q'.recs.Keys;
      ForgottenOrder(q, op);
      BeforeWithout(q.order, gone, id);
    }
  }

  lemma ForgottenOrder(q: Queue, op: QueueOp)
    requires RepInv(q) && Forgets(op)
    ensures Apply(q, op).order == Without(q.order, q.recs.Keys - Apply(q, op).recs.Keys)
  {
    var q' := Apply(q, op);
    var gone := q.recs.Keys - q'.recs.Keys;
    if q' == q {
      WithoutNothing(q.order, gone);
    } else if op.PruneOp? {
      var dropped := Elements(Terminals(q)[..|Terminals(q)| - op.maxKeep]);
      forall x | x in dropped ensures x in q.recs {
        TerminalsMembers(q, q.order, x);
      }
      assert gone == dropped;
    } else if op.RemoveOp? {
      assert gone == {op.id};
    } else if op.ClearFinishedOp? {
      assert gone == EndedJobs(q);
    } else if op.ClearSessionOp? {
      assert gone == EndedIn(q, op.session);
    } else {
      assert gone == JobsOf(q, op.name);
    }
  }

  /** In `q'` no job is ahead of `id` that was not in `q`, and none has more attempts left. */
  ghost predicate FewerAhead(q: Queue, q': Queue, id: int) {
    && (forall x | x in AheadOf(q, id) :: StartsLeft(AheadOf(q, id)[x]) >= 0)
    && (forall x | x in AheadOf(q', id) ::
          x in AheadOf(q, id) && SameJob(AheadOf(q, id)[x], AheadOf(q', id)[x]))
  }

  lemma AheadShrinks(q: Queue, op: QueueOp, id: int)
    requires RepInv(q) && IsRequest(op) && !op.MakeUrgentOp? && !op.SwapOp?
    requires id in q.recs && id in Apply(q, op).recs
    ensures FewerAhead(q, Apply(q, op), id)
  {
    RequestEvolves(q, op);
    RequestAhead(q, op, id);
    BeforeMembers(q.order, id);
    forall x | x in AheadOf(q, id) ensures StartsLeft(AheadOf(q, id)[x]) >= 0 {
      assert RecordOk(q, x);
    }
    forall x | x in AheadOf(Apply(q, op), id)
      ensures x in AheadOf(q, id) && SameJob(AheadOf(q, id)[x], AheadOf(Apply(q, op), id)[x])
    {
      assert x in q.order;
    }
  }

  /** The start decided on still counts once, in the sum or beside it. */
  lemma PendingShrinks(was: map<int, Record>, now: map<int, Record>, started: int)
    requires forall x | x in was :: StartsLeft(was[x]) >= 0
    requires forall x | x in now :: x in was && SameJob(was[x], now[x])
    requires started in was && started !in now && StartsLeft(was[started]) >= 1
    ensures MapSum(now, StartsLeft) + 1 <= MapSum(was, StartsLeft)
  {
    MapSumRemove(was, started, StartsLeft);
    MapSumShrinks(was - {started}, now);
  }

  lemma BudgetShrinks(s: Daemon, s': Sys, id: int)
    requires s'.pc == s.pc && FewerAhead(s.q, s'.q, id)
    ensures Budget(s', id) <= Budget(s, id)
  {
    var was, now := AheadOf(s.q, id), AheadOf(s'.q, id);
    if s.pc.AtStart? && s.pc.id in was && s.pc.id !in now {
      assert RecordOk(s.q, s.pc.id);
      PendingShrinks(was, now, s.pc.id);
    } else {
      MapSumShrinks(was, now);
    }
  }

  lemma RequestBudget(s: Daemon, op: QueueOp, id: int)
    requires IsRequest(op) && !op.MakeUrgentOp? && !op.SwapOp?
    requires id in s.q.recs && id in Apply(s.q, op).recs
    ensures Budget(RequestStep(s, op), id) <= Budget(s, id)
  {
    AheadShrinks(s.q, op, id);
    BudgetShrinks(s, RequestStep(s, op), id);
  }

  lemma MapSumShrinks(was: map<int, Record>, now: map<int, Record>)
    requires forall x | x in was :: StartsLeft(was[x]) >= 0
    requires forall x | x in now :: x in was && SameJob(was[x], now[x])
    ensures MapSum(now, StartsLeft) <= MapSum(was, StartsLeft)
  {
    forall x | x in was ensures StartsLeft(was[x]) >= 0 {
    }
    forall x | x in now ensures StartsLeft(now[x]) <= WeightAt(was, x, StartsLeft) {
      assert SameJob(was[x], now[x]);
    }
    MapSumLe(now, StartsLeft, was, StartsLeft);
  }

  /** A step that changes one job's record changes only that term of the sum. */
  lemma OneJobBudget(q: Queue, q': Queue, x: int, id: int)
    requires x in q.recs && x in q'.recs && q'.order == q.order && q'.recs == q.recs[x := q'.recs[x]]
    ensures MapSum(AheadOf(q', id), StartsLeft) == MapSum(AheadOf(q, id), StartsLeft) +
              if x in Before(q.order, id) then StartsLeft(q'.recs[x]) - StartsLeft(q.recs[x]) else 0
  {
    var was, now := AheadOf(q, id), AheadOf(q', id);
    if x in Before(q.order, id) {
      MapSumUpdate(was, x, q'.recs[x], StartsLeft);
      assert now == was[x := q'.recs[x]];
    } else {
      assert now == was;
    }
  }

  lemma ExecutorBudget(s: Daemon, l: Label, id: int)
    requires IsExecutor(l) && Enabled(s, l)
    ensures Budget(ExecutorStep(s, l), id) <= Budget(s, id)
  {
    var q', x := ExecutorStep(s, l).q, s.live[l.g].id;
    if x in s.q.recs {
      assert RecordOk(s.q, x);
      ExecutorOwnJob(s, l);
      OneJobBudget(s.q, q', x, id);
    }
  }

  lemma SkipBudget(s: Daemon, l: Label, id: int)
    requires Enabled(s, l) && l.SkipNext?
    ensures Budget(SchedulerStep(s, l), id) <= Budget(s, id)
  {
    if s.pc.ids != [] && s.pc.ids[0] in s.q.recs {
      var x := s.pc.ids[0];
      assert x in s.pc.ids && RecordOk(s.q, x);
      OneJobBudget(s.q, SchedulerStep(s, l).q, x, id);
    }
  }

  /** A start of another job uses up one unit. */
  lemma StartBudget(s: Daemon, l: Label, id: int)
    requires Enabled(s, l) && l.StartPicked? && s.pc.id != id
    ensures Budget(SchedulerStep(s, l), id) + 1 <= Budget(s, id)
  {
    var x := s.pc.id;
    if x in s.q.recs {
      OneJobBudget(s.q, SchedulerStep(s, l).q, x, id);
    } else {
      assert AheadOf(SchedulerStep(s, l).q, id) == AheadOf(s.q, id);
    }
  }

  /** The next job picked is the ready job itself or one ahead of it. */
  lemma PickBudget(s: Daemon, l: Label, id: int)
    requires Enabled(s, l) && l.PickNext? && Ready(s.q, id)
    ensures Budget(SchedulerStep(s, l), id) <= Budget(s, id)
  {
    var next := NextRunnable(s.q, s.pc.max, s.pc.busy);
    if next.Some? && next.value != id {
      var i, k := FirstReady(s.q, 0), Pos(s.q.order, id);
      assert k >= 0 && Ready(s.q, s.q.order[k]);
      assert i < k;
      BeforeAt(s.q.order, i, k);
    }
  }

  lemma StepBudget(s: Daemon, l: Label, id: int)
    requires Enabled(s, l) && !Reorders(l)
    requires Ready(s.q, id) && IsQueued(Step(s, l).q, id)
    ensures Budget(Step(s, l), id) + (if l.StartPicked? then 1 else 0) <= Budget(s, id)
  {
    if l.Request? {
      RequestBudget(s, l.op, id);
    } else if IsExecutor(l) {
      ExecutorBudget(s, l, id);
    } else if l.SkipNext? {
      SkipBudget(s, l, id);
    } else if l.StartPicked? {
      StartBudget(s, l, id);
    } else if l.PickNext? {
      PickBudget(s, l, id);
    }
  }

  // --------------------------------------------------------------- over runs

  ghost predicate WaitsThroughout(r: Run, id: int, i: nat, j: nat) {
    && i <= j < |r.states| == |r.labels| + 1
    && (forall k | i <= k <= j :: IsQueued(r.states[k].q, id))
    && (forall k | i <= k < j :: !Reorders(r.labels[k]))
  }

  /** How many jobs the scheduler starts between two points of a run. */
  ghost function StartsBetween(r: DaemonRun, i: nat, j: nat): nat
    requires i <= j <= |r.labels|
    decreases j - i
  {
    if i == j then 0 else (if r.labels[i].StartPicked? then 1 else 0) + StartsBetween(r, i + 1, j)
  }

  lemma WaitingStep(r: DaemonRun, id: int, i: nat)
    requires i < |r.labels|
    requires Ready(r.states[i].q, id) && DepsKnown(r.states[i].q, id)
    requires IsQueued(r.states[i + 1].q, id) && !Reorders(r.labels[i])
    ensures Ready(r.states[i + 1].q, id) && DepsKnown(r.states[i + 1].q, id)
    ensures Budget(r.states[i + 1], id) + (if r.labels[i].StartPicked? then 1 else 0) <= Budget(r.states[i], id)
  {
    RunInv(r, i);
    assert RunStep(r, i);
    StaysReady(r.states[i], r.labels[i], id);
    KeepsDepsKnown(r.states[i], r.labels[i], id);
    StepBudget(r.states[i], r.labels[i], id);
  }

  /** While a ready job waits and nobody reorders the list, other jobs start at most as often as
      the jobs ahead of it have attempts left, plus one start already decided on. Jobs behind it,
      and later submissions, count for nothing. */
  lemma {:induction false} BoundedOvertaking(r: DaemonRun, id: int, i: nat, j: nat)
    requires WaitsThroughout(r, id, i, j)
    requires Ready(r.states[i].q, id) && DepsKnown(r.states[i].q, id)
    ensures StartsBetween(r, i, j) <= Budget(r.states[i], id)
    decreases j - i
  {
    if i == j {
      RunInv(r, i);
      BudgetNonNegative(r.states[i], id);
    } else {
      WaitingStep(r, id, i);
      assert WaitsThroughout(r, id, i + 1, j);
      BoundedOvertaking(r, id, i + 1, j);
    }
  }

  // ------------------------------------------------------- whose starts they are

  /** What the scheduler has decided to start is the waiting job, one that was ahead of it in
      `order`, or what it had decided on at `was`. */
  ghost predicate PicksAhead(s: Sys, was: PC, order: seq<int>, id: int) {
    s.pc.AtStart? ==> s.pc.id == id || s.pc.id in Before(order, id) || (was.AtStart? && was.id == s.pc.id)
  }

  lemma StepOrder(s: Daemon, l: Label, id: int)
    requires Enabled(s, l) && !Reorders(l) && id in s.q.recs && id in Step(s, l).q.recs
    ensures Before(Step(s, l).q.order, id) <= Before(s.q.order, id)
  {
    if l.Request? {
      RequestAhead(s.q, l.op, id);
    } else {
      StepEffect(s, l);
    }
  }

  lemma PickIsAhead(s: Daemon, l: Label, id: int)
    requires Enabled(s, l) && l.PickNext? && Ready(s.q, id)
    ensures var pc := SchedulerStep(s, l).pc; pc.AtStart? ==> pc.id == id || pc.id in Before(s.q.order, id)
  {
    var next := NextRunnable(s.q, s.pc.max, s.pc.busy);
    if next.Some? && next.value != id {
      var i, k := FirstReady(s.q, 0), Pos(s.q.order, id);
      assert k >= 0 && Ready(s.q, s.q.order[k]);
      BeforeAt(s.q.order, i, k);
    }
  }

  lemma StepPicksAhead(s: Daemon, l: Label, was: PC, order: seq<int>, id: int)
    requires Enabled(s, l) && Ready(s.q, id)
    requires PicksAhead(s, was, order, id) && Before(s.q.order, id) <= Before(order, id)
    ensures PicksAhead(Step(s, l), was, order, id)
  {
    if l.PickNext? {
      PickIsAhead(s, l, id);
    }
  }

  ghost predicate WaitsBehind(s: Sys, was: PC, order: seq<int>, id: int) {
    && Ready(s.q, id) && DepsKnown(s.q, id)
    && Before(s.q.order, id) <= Before(order, id)
    && PicksAhead(s, was, order, id)
  }

  lemma WaitsBehindStep(r: DaemonRun, was: PC, order: seq<int>, id: int, j: nat)
    requires j < |r.labels| && WaitsBehind(r.states[j], was, order, id)
    requires IsQueued(r.states[j + 1].q, id) && !Reorders(r.labels[j])
    ensures WaitsBehind(r.states[j + 1], was, order, id)
  {
    WaitingStep(r, id, j);
    RunInv(r, j);
    assert RunStep(r, j);
    StepOrder(r.states[j], r.labels[j], id);
    StepPicksAhead(r.states[j], r.labels[j], was, order, id);
  }

  lemma {:induction false} RunPicksAhead(r: DaemonRun, id: int, i: nat, j: nat)
    requires WaitsThroughout(r, id, i, j)
    requires Ready(r.states[i].q, id) && DepsKnown(r.states[i].q, id)
    ensures WaitsBehind(r.states[j], r.states[i].pc, r.states[i].q.order, id)
    decreases j - i
  {
    if i == j {
      WaitingBegins(r.states[i], id);
    } else {
      RunPicksAhead(r, id, i, j - 1);
      WaitsBehindStep(r, r.states[i].pc, r.states[i].q.order, id, j - 1);
    }
  }

  lemma WaitingBegins(s: Sys, id: int)
    requires Ready(s.q, id) && DepsKnown(s.q, id)
    ensures WaitsBehind(s, s.pc, s.q.order, id)
  {
  }

  lemma StartedIsNotQueued(s: Sys, l: Label)
    requires Enabled(s, l) && l.StartPicked?
    ensures !IsQueued(Step(s, l).q, s.pc.id)
  {
  }

  /** Only jobs ahead overtake: every job started while a ready job waits stood ahead of it when the
      wait began, or its start had been decided on by then. */
  lemma OnlyJobsAheadOvertake(r: DaemonRun, id: int, i: nat, j: nat, k: nat)
    requires WaitsThroughout(r, id, i, j)
    requires Ready(r.states[i].q, id) && DepsKnown(r.states[i].q, id)
    requires i <= k < j && r.labels[k].StartPicked?
    ensures var pc, was := r.states[k].pc, r.states[i].pc;
            pc.AtStart? && (pc.id in Before(r.states[i].q.order, id) || (was.AtStart? && was.id == pc.id))
  {
    assert WaitsThroughout(r, id, i, k);
    RunPicksAhead(r, id, i, k);
    assert RunStep(r, k) && IsQueued(r.states[k + 1].q, id);
    StartedIsNotQueued(r.states[k], r.labels[k]);
  }
}
