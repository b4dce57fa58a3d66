/**
  The running daemon as a labelled transition system. Each label is one critical section of the
  scheduler goroutine, of a job's executor goroutine or of a client request; anything may happen
  between two of them.
 */
module SystemModel {
  import opened Protocol
  import opened QueueModel
  import opened QueueInvariant

  /** Where the scheduler goroutine stands, with the values it has read in this iteration. */
  datatype PC =
    | Idle                                     // waiting on the trigger channel
    | Check                                    // about to call CheckSkippable
    | Skipping(ids: seq<int>)                  // ids still to be marked skipped
    | AtMax                                    // about to read maxSlots
    | AtBusy(max: int)                         // about to call BusySlots
    | AtPick(max: int, busy: int)              // about to call NextRunnable
    | AtStart(max: int, busy: int, id: int)    // about to call SetRunning
    | AtSpawn(id: int)                         // about to start the executor goroutine

  /** What an executor goroutine will do next. */
  datatype Phase =
    | Spawned                   // start the process
    | Started                   // wait for it
    | Ended(result: Result)     // failed attempt: try RequeueForRetry
    | Final(result: Result)     // report MarkFinished

  datatype Exec = Exec(id: int, phase: Phase)

  /** `owed` counts goroutines that have changed the queue and not yet poked the scheduler.
      `starts` and `allowed` are history: attempts started, and attempts the submission permits. */
  datatype Sys = Sys(
    q: Queue, maxSlots: int, trigger: bool, pc: PC,
    live: map<nat, Exec>, nextG: nat, owed: nat,
    starts: map<int, nat>, allowed: map<int, nat>)

  datatype Label =
    | TakeTrigger | CheckSkip | SkipNext | ReadMax | ReadBusy | PickNext | StartPicked | SpawnPicked
    | ExecStart(g: nat, pid: int, out: string) | ExecEnd(g: nat, result: Result)
    | ExecRetry(g: nat) | ExecFinish(g: nat)
    | DeliverPoke
    | Request(op: QueueOp) | SetMaxSlots(n: int)

  predicate JobFailed(r: Result) {
    r.exitCode != 0 || r.diedBySignal || r.timedOut
  }

  /** The mutators that client requests and the pruning hook may call at any time. */
  predicate IsRequest(op: QueueOp) {
    !op.SetRunningOp? && !op.MarkFinishedOp? && !op.MarkSkippedOp? && !op.RequeueOp?
  }

  /** The pokes the request's handler still has to deliver after the mutator returns. */
  function Pokes(q: Queue, op: QueueOp): nat {
    match op
    case AddOp(_, _) => 1
    case MakeUrgentOp(id) => if CanMakeUrgent(q, id) then 1 else 0
    case _ => 0
  }

  predicate Enabled(s: Sys, l: Label) {
    match l
    case TakeTrigger => s.pc.Idle? && s.trigger
    case CheckSkip => s.pc.Check?
    case SkipNext => s.pc.Skipping?
    case ReadMax => s.pc.AtMax?
    case ReadBusy => s.pc.AtBusy?
    case PickNext => s.pc.AtPick?
    case StartPicked => s.pc.AtStart?
    case SpawnPicked => s.pc.AtSpawn?
    case ExecStart(g, _, _) => g in s.live && s.live[g].phase.Spawned?
    case ExecEnd(g, result) =>
      g in s.live && (s.live[g].phase.Started? || (s.live[g].phase.Spawned? && result == START_FAILED))
    case ExecRetry(g) => g in s.live && s.live[g].phase.Ended?
    case ExecFinish(g) => g in s.live && s.live[g].phase.Final?
    case DeliverPoke => s.owed > 0
    case Request(op) => IsRequest(op)
    case SetMaxSlots(_) => true
  }

  function StartsOf(s: Sys, id: int): nat {
    if id in s.starts then s.starts[id] else 0
  }

  function EndPhase(result: Result): Phase {
    if JobFailed(result) then Ended(result) else Final(result)
  }

  predicate IsScheduler(l: Label) {
    l.TakeTrigger? || l.CheckSkip? || l.SkipNext? || l.ReadMax? || l.ReadBusy? || l.PickNext?
    || l.StartPicked? || l.SpawnPicked?
  }

  predicate IsExecutor(l: Label) {
    l.ExecStart? || l.ExecEnd? || l.ExecRetry? || l.ExecFinish?
  }

  ghost function SchedulerStep(s: Sys, l: Label): Sys
    requires IsScheduler(l) && Enabled(s, l)
  {
    match l
    case TakeTrigger => s.(trigger := false, pc := Check)
    case CheckSkip => s.(pc := Skipping(CheckSkippable(s.q)))
    case SkipNext =>
      if s.pc.ids == [] then s.(pc := AtMax)
      else s.(q := MarkSkipped(s.q, s.pc.ids[0]), pc := Skipping(s.pc.ids[1..]))
    case ReadMax => s.(pc := AtBusy(s.maxSlots))
    case ReadBusy => s.(pc := AtPick(s.pc.max, BusySlots(s.q)))
    case PickNext =>
      var next := NextRunnable(s.q, s.pc.max, s.pc.busy);
      s.(pc := if next.None? then Idle else AtStart(s.pc.max, s.pc.busy, next.value))
    case StartPicked =>
      s.(q := SetRunning(s.q, s.pc.id, 0, ""), pc := AtSpawn(s.pc.id),
         starts := s.starts[s.pc.id := StartsOf(s, s.pc.id) + 1])
    case SpawnPicked =>
      s.(pc := AtMax, live := s.live[s.nextG := Exec(s.pc.id, Spawned)], nextG := s.nextG + 1)
  }

  ghost function ExecutorStep(s: Sys, l: Label): Sys
    requires IsExecutor(l) && Enabled(s, l)
  {
    var id := s.live[l.g].id;
    match l
    case ExecStart(g, pid, out) => s.(q := SetRunning(s.q, id, pid, out), live := s.live[g := Exec(id, Started)])
    case ExecEnd(g, result) => s.(live := s.live[g := Exec(id, EndPhase(result))])
    case ExecRetry(g) =>
      if CanRetry(s.q, id)
      then s.(q := RequeueForRetry(s.q, id), live := s.live - {g}, owed := s.owed + 1)
      else s.(live := s.live[g := Exec(id, Final(s.live[g].phase.result))])
    case ExecFinish(g) =>
      s.(q := MarkFinished(s.q, id, s.live[g].phase.result), live := s.live - {g}, owed := s.owed + 1)
  }

  ghost function RequestStep(s: Sys, op: QueueOp): Sys {
    s.(q := Apply(s.q, op), owed := s.owed + Pokes(s.q, op),
       allowed := if op.AddOp? then s.allowed[s.q.nextID := MaxRetries(op.req.retries) + 1] else s.allowed)
  }

  ghost function Step(s: Sys, l: Label): Sys
    requires Enabled(s, l)
  {
    if IsScheduler(l) then SchedulerStep(s, l)
    else if IsExecutor(l) then ExecutorStep(s, l)
    else if l.Request? then RequestStep(s, l.op)
    else if l.DeliverPoke? then s.(trigger := true, owed := s.owed - 1)
    else s.(maxSlots := l.n, owed := s.owed + 1)
  }

  /** A freshly loaded daemon: nothing runs, no goroutine but the scheduler's, about to make
      its first pass. */
  ghost predicate Init(s: Sys) {
    && RepInv(s.q) && (forall id | id in s.q.recs :: !s.q.recs[id].info.state.Running?)
    && s.q.issued == [] && s.q.deliveries == [] && s.q.dropped == {}
    && (forall id | id in s.q.recs :: s.q.recs[id].waiters == [])
    && s.live == map[] && s.owed == 0 && !s.trigger && s.pc == Check
    && s.starts == map[]
    && s.allowed == map id | id in s.q.recs :: MaxRetries(s.q.recs[id].info.retries) + 1
  }

  /** A run: states and the labels between them. */
  datatype Run = Run(states: seq<Sys>, labels: seq<Label>)

  /** State `i + 1` follows from state `i` by label `i`. */
  ghost predicate RunStep(r: Run, i: nat)
    requires i < |r.labels| && i + 1 < |r.states|
  {
    Enabled(r.states[i], r.labels[i]) && r.states[i + 1] == Step(r.states[i], r.labels[i])
  }

  ghost predicate IsRun(r: Run) {
    |r.states| == |r.labels| + 1 && forall i: nat | i < |r.labels| :: RunStep(r, i)
  }

  /** A newly set up daemon. */
  ghost const FRESH := Sys(EMPTY, 1, false, Check, map[], 0, 0, map[], map[])

  /** A run of a freshly loaded daemon. */
  type DaemonRun = r: Run | IsRun(r) && Init(r.states[0]) ghost witness Run([FRESH], [])

  function Last(r: Run): Sys
    requires r.states != []
  {
    r.states[|r.states| - 1]
  }
}
