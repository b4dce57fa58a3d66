/**
  Every step keeps the invariant of the running daemon.
 */
module SystemSteps {
  import opened Collections
  import opened Protocol
  import opened QueueModel
  import opened QueueInvariant
  import opened QueueEvolution
  import opened SystemModel
  import opened SystemInvariant
  import opened Waiters

  /** The mutator a step calls, if any. */
  ghost function Effect(s: Sys, l: Label): Option<QueueOp>
    requires Enabled(s, l)
  {
    match l
    case SkipNext => if s.pc.ids == [] then None else Some(MarkSkippedOp(s.pc.ids[0]))
    case StartPicked => Some(SetRunningOp(s.pc.id, 0, ""))
    case ExecStart(g, pid, out) => Some(SetRunningOp(s.live[g].id, pid, out))
    case ExecRetry(g) => if CanRetry(s.q, s.live[g].id) then Some(RequeueOp(s.live[g].id)) else None
    case ExecFinish(g) => Some(MarkFinishedOp(s.live[g].id, s.live[g].phase.result))
    case Request(op) => Some(op)
    case _ => None
  }

  ghost function After(q: Queue, e: Option<QueueOp>): Queue {
    if e.None? then q else Apply(q, e.value)
  }

  lemma StepEffect(s: Sys, l: Label)
    requires Enabled(s, l)
    ensures Step(s, l).q == After(s.q, Effect(s, l))
  {
  }

  /** The scheduler's and executors' mutators only ever touch jobs that have not ended. */
  predicate Legal(q: Queue, op: QueueOp) {
    (op.SetRunningOp? || op.MarkSkippedOp? || op.RequeueOp? || op.MarkFinishedOp?) ==> !IsTerminal(q, op.id)
  }

  lemma EffectLegal(s: Daemon, l: Label)
    requires Enabled(s, l)
    ensures Effect(s, l).Some? ==> Legal(s.q, Effect(s, l).value)
  {
    if l.SkipNext? && s.pc.ids != [] {
      assert s.pc.ids[0] in s.pc.ids;
    }
  }

  // ---------------------------------------------------------------- answers

  lemma EvolvesKeepsAnswers(q: Queue, q': Queue)
    requires AnswersFinal(q) && WaiterInv(q) && Evolves(q, q')
    requires q'.issued == q.issued && q'.deliveries == q.deliveries
    ensures AnswersFinal(q')
  {
    forall k | 0 <= k < |q'.deliveries| && q'.deliveries[k].channel < |q'.issued|
      ensures AnswerFinal(q', q'.deliveries[k])
    {
      assert AnswerFinal(q, q.deliveries[k]);
    }
  }

  lemma WaitForKeepsAnswers(q: Queue, id: int)
    requires RepInv(q) && AnswersFinal(q) && WaiterInv(q)
    ensures AnswersFinal(WaitFor(q, id))
  {
    var q' := WaitFor(q, id);
    if id in q.recs {
      assert RecordOk(q, id);
    }
    forall k | 0 <= k < |q'.deliveries| && q'.deliveries[k].channel < |q'.issued|
      ensures AnswerFinal(q', q'.deliveries[k])
    {
      if k < |q.deliveries| {
        assert AnswerFinal(q, q.deliveries[k]);
      }
    }
  }

  /** Touching a job that has not ended contradicts no earlier answer. */
  lemma TouchKeepsAnswers(q: Queue, q': Queue, id: int)
    requires AnswersFinal(q) && WaiterInv(q) && id in q.recs && !IsTerminal(q, id)
    requires id in q'.recs && q'.recs == q.recs[id := q'.recs[id]] && q'.nextID == q.nextID
    requires q'.issued == q.issued && q'.deliveries == q.deliveries
    ensures AnswersFinal(q')
  {
    forall k | 0 <= k < |q'.deliveries| && q'.deliveries[k].channel < |q'.issued|
      ensures AnswerFinal(q', q'.deliveries[k])
    {
      assert AnswerFinal(q, q.deliveries[k]);
    }
  }

  lemma ResolveKeepsAnswers(q: Queue, id: int, state: JobState, result: Result)
    requires RepInv(q) && AnswersFinal(q) && WaiterInv(q) && !IsTerminal(q, id) && state.Terminal()
    ensures AnswersFinal(Resolve(q, id, state, result))
  {
    var q' := Resolve(q, id, state, result);
    if id in q.recs {
      assert RecordOk(q, id) && WaitersOk(q, id);
      forall k | 0 <= k < |q'.deliveries| && q'.deliveries[k].channel < |q'.issued|
        ensures AnswerFinal(q', q'.deliveries[k])
      {
        if k < |q.deliveries| {
          assert AnswerFinal(q, q.deliveries[k]);
        } else {
          var w := q.recs[id].waiters[k - |q.deliveries|];
          assert w in q.recs[id].waiters && q'.deliveries[k] == Delivery(w, result);
        }
      }
    }
  }

  lemma ApplyKeepsAnswers(q: Queue, op: QueueOp)
    requires RepInv(q) && WaiterInv(q) && AnswersFinal(q) && Legal(q, op)
    ensures AnswersFinal(Apply(q, op))
  {
    if op.MarkFinishedOp? {
      ResolveKeepsAnswers(q, op.id, Finished, op.result);
    } else if op.MarkSkippedOp? {
      ResolveKeepsAnswers(q, op.id, Skipped, SKIP_RESULT);
    } else if op.SetRunningOp? || op.RequeueOp? {
      if Apply(q, op) != q {
        TouchKeepsAnswers(q, Apply(q, op), op.id);
      }
    } else if op.WaitForOp? {
      WaitForKeepsAnswers(q, op.id);
    } else {
      RequestEvolves(q, op);
      EvolvesKeepsAnswers(q, Apply(q, op));
    }
  }

  lemma StepKeepsQueue(s: Daemon, l: Label)
    requires Enabled(s, l)
    ensures var q' := Step(s, l).q; RepInv(q') && WaiterInv(q') && AnswersFinal(q')
  {
    StepEffect(s, l);
    EffectLegal(s, l);
    var e := Effect(s, l);
    if e.Some? {
      ApplyKeepsRepInv(s.q, e.value);
      ApplyKeepsWaiters(s.q, e.value);
      ApplyKeepsAnswers(s.q, e.value);
    }
  }

  // ------------------------------------------------------------- background

  /** What any step of an executor or a client leaves the scheduler able to rely on. */
  ghost predicate Background(s: Sys, s': Sys) {
    && s'.pc == s.pc && s.q.nextID <= s'.q.nextID
    && RunningShrinks(s.q, s'.q)
    && (forall id | id in s.q.recs && id in s'.q.recs :: SameNeed(s.q.recs[id], s'.q.recs[id]))
    && (forall id | id < s.q.nextID && id in s'.q.recs :: id in s.q.recs)
    && (forall id | IsQueued(s.q, id) && id in s'.q.recs :: IsQueued(s'.q, id))
    && (forall id | IsRunning(s.q, id) && NoExecutor(s, id) :: IsRunning(s'.q, id))
    && (forall g | g in s'.live :: g in s.live && s'.live[g].id == s.live[g].id)
  }

  predicate SameNeed(a: Record, b: Record) {
    a.info.numSlots == b.info.numSlots && a.info.dependOn == b.info.dependOn && a.info.retries == b.info.retries
  }

  lemma RequestIsBackground(s: Daemon, op: QueueOp)
    requires IsRequest(op)
    ensures Background(s, RequestStep(s, op))
  {
    RequestEvolves(s.q, op);
    var s' := RequestStep(s, op);
    forall id | IsRunning(s'.q, id) ensures IsRunning(s.q, id) && SameNeed(s.q.recs[id], s'.q.recs[id]) {
      assert id !in s.q.recs ==> IsQueued(s'.q, id);
      assert SameJob(s.q.recs[id], s'.q.recs[id]);
    }
    forall id | id in s.q.recs && id in s'.q.recs ensures SameNeed(s.q.recs[id], s'.q.recs[id]) {
      assert SameJob(s.q.recs[id], s'.q.recs[id]);
    }
  }

  /** How a step may change the state and attempt of one job. */
  predicate AttemptStep(a: JobInfo, b: JobInfo) {
    && b.retries == a.retries
    && ((b.state == a.state && b.attempt == a.attempt)
        || (a.state.Queued? && b.state.Skipped? && b.attempt == a.attempt)
        || (a.state.Running? && b.state.Finished? && b.attempt == a.attempt)
        || (a.state.Running? && b.state.Queued? && b.attempt == a.attempt + 1))
  }

  /** A step of executor `g` changes only its own job, which runs exactly while `g` lives. */
  ghost predicate OwnJob(s: Sys, s': Sys, g: nat)
    requires g in s.live
  {
    var id := s.live[g].id;
    && s'.pc == s.pc && s'.q.nextID == s.q.nextID && s'.nextG == s.nextG
    && s'.starts == s.starts && s'.allowed == s.allowed
    && (s'.live == s.live - {g}
        || (g in s'.live && s'.live == s.live[g := s'.live[g]] && s'.live[g].id == id))
    && (if id in s.q.recs
        then id in s'.q.recs && s'.q.recs == s.q.recs[id := s'.q.recs[id]]
             && SameNeed(s.q.recs[id], s'.q.recs[id])
             && (g in s'.live <==> IsRunning(s'.q, id))
             && AttemptStep(s.q.recs[id].info, s'.q.recs[id].info)
        else s'.q.recs == s.q.recs)
  }

  lemma ExecutorOwnJob(s: Daemon, l: Label)
    requires IsExecutor(l) && Enabled(s, l)
    ensures OwnJob(s, ExecutorStep(s, l), l.g)
  {
  }

  lemma OwnJobIsBackground(s: Daemon, s': Sys, g: nat)
    requires g in s.live && OwnJob(s, s', g)
    ensures Background(s, s')
  {
  }

  lemma ExecutorIsBackground(s: Daemon, l: Label)
    requires IsExecutor(l) && Enabled(s, l)
    ensures Background(s, ExecutorStep(s, l))
  {
    ExecutorOwnJob(s, l);
    OwnJobIsBackground(s, ExecutorStep(s, l), l.g);
  }

  lemma BackgroundKeepsPc(s: Daemon, s': Sys)
    requires Background(s, s')
    ensures PcOk(s')
  {
    RepInvSlots(s.q);
    BusyShrinks(s.q, s'.q);
    match s.pc {
      case AtStart(_, _, id) =>
        assert NoExecutor(s', id);
        assert id in s'.q.recs ==> SameNeed(s.q.recs[id], s'.q.recs[id]);
      case AtSpawn(id) =>
        assert NoExecutor(s', id);
        assert id in s'.q.recs ==> IsRunning(s.q, id);
      case _ =>
    }
  }

  lemma StepKeepsPcBackground(s: Daemon, l: Label)
    requires Enabled(s, l) && !IsScheduler(l)
    ensures PcOk(Step(s, l))
  {
    if l.Request? {
      RequestIsBackground(s, l.op);
    } else if IsExecutor(l) {
      ExecutorIsBackground(s, l);
    }
    BackgroundKeepsPc(s, Step(s, l));
  }

  // -------------------------------------------------------------- scheduler

  lemma {:induction false} SkippableMembers(q: Queue, ids: seq<int>)
    requires NoDup(ids)
    ensures NoDup(SkippableIn(q, ids))
    ensures forall id :: id in SkippableIn(q, ids) <==> id in ids && Skippable(q, id)
  {
    if ids != [] {
      var front, last := ids[..|ids| - 1], ids[|ids| - 1];
      assert ids == front + [last];
      SkippableMembers(q, front);
    }
  }

  lemma CheckSkipKeepsPc(s: Daemon, l: Label)
    requires Enabled(s, l) && l.CheckSkip?
    ensures PcOk(SchedulerStep(s, l))
  {
    SkippableMembers(s.q, s.q.order);
    forall id | id in CheckSkippable(s.q) ensures id < s.q.nextID && IsQueued(s.q, id) {
      assert RecordOk(s.q, id);
    }
  }

  lemma SkipNextKeepsPc(s: Daemon, l: Label)
    requires Enabled(s, l) && l.SkipNext?
    ensures PcOk(SchedulerStep(s, l))
  {
    if s.pc.ids != [] {
      var first, rest := s.pc.ids[0], s.pc.ids[1..];
      var s' := SchedulerStep(s, l);
      assert NoDup(rest);
      forall id | id in rest ensures id < s'.q.nextID && (id in s'.q.recs ==> IsQueued(s'.q, id)) {
        assert id in s.pc.ids && id != first;
      }
    }
  }

  lemma PickNextKeepsPc(s: Daemon, l: Label)
    requires Enabled(s, l) && l.PickNext?
    ensures PcOk(SchedulerStep(s, l))
  {
    var next := NextRunnable(s.q, s.pc.max, s.pc.busy);
    if next.Some? {
      var id := next.value;
      assert RecordOk(s.q, id);
      assert NoExecutor(s, id) by {
        forall g | g in s.live ensures s.live[g].id != id {
          assert !IsQueued(s.q, s.live[g].id);
        }
      }
    }
  }

  lemma StepKeepsPc(s: Daemon, l: Label)
    requires Enabled(s, l)
    ensures PcOk(Step(s, l))
  {
    if !IsScheduler(l) {
      StepKeepsPcBackground(s, l);
    } else if l.CheckSkip? {
      CheckSkipKeepsPc(s, l);
    } else if l.SkipNext? {
      SkipNextKeepsPc(s, l);
    } else if l.PickNext? {
      PickNextKeepsPc(s, l);
    }
  }

  // -------------------------------------------------------------- executors

  lemma BackgroundKeepsLive(s: Daemon, l: Label)
    requires Enabled(s, l) && (l.Request? || l.SetMaxSlots? || l.DeliverPoke?)
    ensures LiveOk(Step(s, l)) && RunningCovered(Step(s, l))
  {
    var s' := Step(s, l);
    if l.Request? {
      RequestIsBackground(s, l.op);
      RequestEvolves(s.q, l.op);
    }
    forall g | g in s'.live && s'.live[g].id in s'.q.recs ensures IsRunning(s'.q, s'.live[g].id) {
      assert s.live[g].id in s.q.recs;
    }
    forall id | IsRunning(s'.q, id) ensures s'.pc == AtSpawn(id) || exists g :: g in s'.live && s'.live[g].id == id {
      assert IsRunning(s.q, id);
    }
  }

  /** An executor's step leaves the other executors' jobs alone. */
  lemma OwnJobKeepsLive(s: Daemon, s': Sys, g: nat)
    requires g in s.live && OwnJob(s, s', g)
    ensures LiveOk(s') && RunningCovered(s')
  {
    forall id | IsRunning(s'.q, id) ensures s'.pc == AtSpawn(id) || exists h :: h in s'.live && s'.live[h].id == id {
      assert IsRunning(s.q, id);
      if s.pc != AtSpawn(id) {
        var h :| h in s.live && s.live[h].id == id;
        assert h in s'.live && s'.live[h].id == id;
      }
    }
  }

  lemma StartKeepsLive(s: Daemon, l: Label)
    requires Enabled(s, l) && l.StartPicked?
    ensures LiveOk(SchedulerStep(s, l)) && RunningCovered(SchedulerStep(s, l))
  {
    var s' := SchedulerStep(s, l);
    forall id | IsRunning(s'.q, id) ensures s'.pc == AtSpawn(id) || exists g :: g in s'.live && s'.live[g].id == id {
      assert id != s.pc.id ==> IsRunning(s.q, id);
    }
  }

  lemma SpawnKeepsLive(s: Daemon, l: Label)
    requires Enabled(s, l) && l.SpawnPicked?
    ensures LiveOk(SchedulerStep(s, l)) && RunningCovered(SchedulerStep(s, l))
  {
    var s' := SchedulerStep(s, l);
    forall id | IsRunning(s'.q, id) ensures exists g :: g in s'.live && s'.live[g].id == id {
      if s.pc == AtSpawn(id) {
        assert s'.live[s.nextG].id == id;
      } else {
        var g :| g in s.live && s.live[g].id == id;
        assert s'.live[g].id == id;
      }
    }
  }

  lemma SkipKeepsLive(s: Daemon, l: Label)
    requires Enabled(s, l) && l.SkipNext?
    ensures LiveOk(SchedulerStep(s, l)) && RunningCovered(SchedulerStep(s, l))
  {
    var s' := SchedulerStep(s, l);
    if s.pc.ids != [] {
      var id := s.pc.ids[0];
      assert id in s.pc.ids;
      assert forall x | IsRunning(s.q, x) :: x != id;
      forall x | IsRunning(s'.q, x) ensures exists g :: g in s'.live && s'.live[g].id == x {
        assert IsRunning(s.q, x);
      }
    }
  }

  lemma StepKeepsLive(s: Daemon, l: Label)
    requires Enabled(s, l)
    ensures LiveOk(Step(s, l)) && RunningCovered(Step(s, l))
  {
    if IsExecutor(l) {
      ExecutorOwnJob(s, l);
      OwnJobKeepsLive(s, Step(s, l), l.g);
    } else if !IsScheduler(l) {
      BackgroundKeepsLive(s, l);
    } else if l.StartPicked? {
      StartKeepsLive(s, l);
    } else if l.SpawnPicked? {
      SpawnKeepsLive(s, l);
    } else if l.SkipNext? {
      SkipKeepsLive(s, l);
    } else {
      QuietKeepsLive(s, l);
    }
  }

  lemma QuietKeepsLive(s: Daemon, l: Label)
    requires Enabled(s, l)
    requires l.TakeTrigger? || l.CheckSkip? || l.ReadMax? || l.ReadBusy? || l.PickNext?
    ensures LiveOk(SchedulerStep(s, l)) && RunningCovered(SchedulerStep(s, l))
  {
    var s' := SchedulerStep(s, l);
    forall id | IsRunning(s'.q, id) ensures exists g :: g in s'.live && s'.live[g].id == id {
      assert IsRunning(s.q, id);
    }
  }

  // --------------------------------------------------------------- attempts

  /** Everything a step other than a start does to attempts and their history. */
  ghost predicate AttemptSteps(s: Sys, s': Sys) {
    && s'.starts == s.starts && s.q.nextID <= s'.q.nextID
    && (forall id | id in s.allowed :: id in s'.allowed && s'.allowed[id] == s.allowed[id])
    && (forall id | id in s'.allowed && id !in s.allowed :: id < s'.q.nextID && s'.allowed[id] >= 1)
    && (forall id | id in s.q.recs && id in s'.q.recs :: AttemptStep(s.q.recs[id].info, s'.q.recs[id].info))
    && (forall id | id in s'.q.recs && id !in s.q.recs :: s.q.nextID <= id && NewAttempts(s', id))
    && (s'.pc.AtStart? ==> s'.pc == s.pc || IsQueued(s.q, s'.pc.id))
  }

  predicate NewAttempts(s: Sys, id: int)
    requires id in s.q.recs
  {
    id in s.allowed && s.allowed[id] == MaxRetries(s.q.recs[id].info.retries) + 1 && s.q.recs[id].info.attempt == 0
  }

  lemma AttemptStepsKeepCounts(s: Sys, s': Sys)
    requires RepInv(s.q) && CountsOk(s) && AttemptSteps(s, s')
    ensures CountsOk(s')
  {
    forall id | id in s'.q.recs ensures StartsOk(s', id) {
      if id in s.q.recs {
        assert StartsOk(s, id);
      } else {
        assert NewAttempts(s', id) && id !in s.starts;
      }
    }
    if s'.pc.AtStart? && s'.pc != s.pc {
      assert StartsOk(s, s'.pc.id) && RecordOk(s.q, s'.pc.id);
    }
  }

  lemma AddAttempts(s: Daemon, op: QueueOp)
    requires op.AddOp?
    ensures AttemptSteps(s, RequestStep(s, op))
  {
    NextIsFresh(s.q);
    var s' := RequestStep(s, op);
    assert s.q.nextID !in s.allowed && NewAttempts(s', s.q.nextID);
  }

  lemma OtherAttempts(s: Daemon, op: QueueOp)
    requires IsRequest(op) && !op.AddOp?
    ensures AttemptSteps(s, RequestStep(s, op))
  {
    var s' := RequestStep(s, op);
    RequestEvolves(s.q, op);
    RequestAddsNoIds(s.q, op);
    forall id | id in s.q.recs && id in s'.q.recs ensures AttemptStep(s.q.recs[id].info, s'.q.recs[id].info) {
      assert SameJob(s.q.recs[id], s'.q.recs[id]);
    }
  }

  lemma RequestAttempts(s: Daemon, op: QueueOp)
    requires IsRequest(op)
    ensures AttemptSteps(s, RequestStep(s, op))
  {
    if op.AddOp? {
      AddAttempts(s, op);
    } else {
      OtherAttempts(s, op);
    }
  }

  lemma OwnJobAttempts(s: Daemon, s': Sys, g: nat)
    requires g in s.live && OwnJob(s, s', g)
    ensures AttemptSteps(s, s')
  {
  }

  lemma SkipAttempts(s: Daemon, l: Label)
    requires Enabled(s, l) && l.SkipNext?
    ensures AttemptSteps(s, SchedulerStep(s, l))
  {
    if s.pc.ids == [] {
      QuietAttempts(s, SchedulerStep(s, l));
    } else {
      assert s.pc.ids[0] in s.pc.ids;
      MarkAttempts(s, SchedulerStep(s, l), s.pc.ids[0]);
    }
  }

  lemma MarkAttempts(s: Daemon, s': Sys, id: int)
    requires s' == s.(q := MarkSkipped(s.q, id), pc := s'.pc) && !s'.pc.AtStart?
    requires id in s.q.recs ==> IsQueued(s.q, id)
    ensures AttemptSteps(s, s')
  {
  }

  /** The scheduler's readings and the deliveries change no job. */
  lemma QuietAttempts(s: Daemon, s': Sys)
    requires s'.q == s.q && s'.starts == s.starts && s'.allowed == s.allowed
    requires s'.pc.AtStart? ==> s'.pc == s.pc || IsQueued(s.q, s'.pc.id)
    ensures AttemptSteps(s, s')
  {
  }

  lemma StepAttempts(s: Daemon, l: Label)
    requires Enabled(s, l) && !l.StartPicked?
    ensures AttemptSteps(s, Step(s, l))
  {
    if l.Request? {
      RequestAttempts(s, l.op);
    } else if IsExecutor(l) {
      ExecutorOwnJob(s, l);
      OwnJobAttempts(s, Step(s, l), l.g);
    } else if l.SkipNext? {
      SkipAttempts(s, l);
    } else {
      QuietAttempts(s, Step(s, l));
    }
  }

  lemma StartKeepsCounts(s: Daemon, l: Label)
    requires Enabled(s, l) && l.StartPicked?
    ensures CountsOk(SchedulerStep(s, l))
  {
    var s' := SchedulerStep(s, l);
    forall id | id in s'.q.recs ensures StartsOk(s', id) {
      assert StartsOk(s, id);
    }
  }

  /** Every step keeps the invariant. */
  lemma StepInv(s: Daemon, l: Label)
    requires Enabled(s, l)
    ensures Inv(Step(s, l))
  {
    StepKeepsQueue(s, l);
    StepKeepsLive(s, l);
    StepKeepsPc(s, l);
    if l.StartPicked? {
      StartKeepsCounts(s, l);
    } else {
      StepAttempts(s, l);
      AttemptStepsKeepCounts(s, Step(s, l));
    }
  }

  /** Hence it holds throughout every run of a freshly loaded daemon. */
  lemma {:induction false} RunInv(r: DaemonRun, i: nat)
    requires i < |r.states|
    ensures Inv(r.states[i])
  {
    if i == 0 {
      InitInv(r.states[0]);
    } else {
      RunInv(r, i - 1);
      assert RunStep(r, i - 1);
      StepInv(r.states[i - 1], r.labels[i - 1]);
    }
  }
}
