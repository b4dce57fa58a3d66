/**
  What was asked for is what the daemon works by: over whole runs each listed job is the one submitted
  under its id, and the slots that are kept within the limit are the slots that were requested.
 */
module Submissions {
  import opened Collections
  import opened Protocol
  import opened QueueModel
  import opened QueueInvariant
  import opened QueueEvolution
  import opened SystemModel
  import opened SystemInvariant
  import opened SystemSteps
  import opened Attempts
  import opened SlotSafety

  // --------------------------------------------------------------------- the request itself

  predicate Submits(s: Sys, l: Label, id: int) {
    l.Request? && l.op.AddOp? && s.q.nextID == id
  }

  /** The request under which the first `n` steps submitted job `id`; none if it was loaded. */
  ghost function RequestOf(r: DaemonRun, n: nat, id: int): Option<NewJobRequest>
    requires n <= |r.labels|
  {
    if n == 0 then None
    else if Submits(r.states[n - 1], r.labels[n - 1], id) then Some(r.labels[n - 1].op.req)
    else RequestOf(r, n - 1, id)
  }

  /** The slots asked for, at least one. */
  function SlotsAsked(req: NewJobRequest): int {
    if req.numSlots < 1 then 1 else req.numSlots
  }

  predicate AsRequested(rec: Record, req: NewJobRequest) {
    && rec.info.command == req.command && rec.commandArgs == req.commandArgs
    && rec.info.storeOutput == req.storeOutput && rec.info.dependOn == req.dependOn
    && rec.requireElevel == req.requireElevel && rec.info.retries == req.retries
    && rec.info.numSlots == SlotsAsked(req)
  }

  /** Two records of one job with the same order to carry out. */
  predicate SameOrder(a: Record, b: Record) {
    && a.id == b.id && a.info.command == b.info.command && a.commandArgs == b.commandArgs
    && a.info.storeOutput == b.info.storeOutput && a.info.dependOn == b.info.dependOn
    && a.requireElevel == b.requireElevel && a.info.retries == b.info.retries
    && a.info.numSlots == b.info.numSlots
  }

  lemma AddKeepsOrder(q: Queue, op: QueueOp, id: int)
    requires RepInv(q) && op.AddOp? && id in q.recs
    ensures id in Apply(q, op).recs && Apply(q, op).recs[id] == q.recs[id]
  {
    NextIsFresh(q);
  }

  lemma ForgettingKeepsOrder(q: Queue, op: QueueOp, id: int)
    requires Forgets(op) && id in Apply(q, op).recs
    ensures id in q.recs && Apply(q, op).recs[id] == q.recs[id]
  {
  }

  lemma ApplyKeepsOrder(q: Queue, op: QueueOp, id: int)
    requires RepInv(q) && id in q.recs && id in Apply(q, op).recs
    ensures SameOrder(q.recs[id], Apply(q, op).recs[id])
  {
    if op.AddOp? {
      AddKeepsOrder(q, op, id);
    } else if Forgets(op) {
      ForgettingKeepsOrder(q, op, id);
    }
  }

  lemma StepKeepsOrder(s: Daemon, l: Label, id: int)
    requires Enabled(s, l) && id in s.q.recs && id in Step(s, l).q.recs
    ensures SameOrder(s.q.recs[id], Step(s, l).q.recs[id])
  {
    StepEffect(s, l);
    if Effect(s, l).Some? {
      ApplyKeepsOrder(s.q, Effect(s, l).value, id);
    }
  }

  lemma ApplyAddsOne(q: Queue, op: QueueOp, id: int)
    requires RepInv(q) && id !in q.recs && id in Apply(q, op).recs
    ensures op.AddOp? && id == q.nextID
  {
    if IsRequest(op) && !op.AddOp? {
      RequestAddsNoIds(q, op);
    }
  }

  /** Only a submission lists a new job, under the next id. */
  lemma OnlySubmitted(s: Daemon, l: Label, id: int)
    requires Enabled(s, l) && id !in s.q.recs && id in Step(s, l).q.recs
    ensures Submits(s, l, id)
  {
    StepEffect(s, l);
    if Effect(s, l).Some? {
      ApplyAddsOne(s.q, Effect(s, l).value, id);
    }
  }

  lemma ListedIsNotSubmitted(s: Daemon, l: Label, id: int)
    requires id in s.q.recs
    ensures !Submits(s, l, id)
  {
    NextIsFresh(s.q);
  }

  ghost predicate CameAs(r: DaemonRun, n: nat, id: int)
    requires n < |r.states| && id in r.states[n].q.recs
  {
    match RequestOf(r, n, id)
    case Some(req) => AsRequested(r.states[n].q.recs[id], req)
    case None => id in r.states[0].q.recs && SameOrder(r.states[0].q.recs[id], r.states[n].q.recs[id])
  }

  lemma CameAsStep(r: DaemonRun, n: nat, id: int)
    requires n < |r.labels| && id in r.states[n + 1].q.recs
    requires id in r.states[n].q.recs ==> CameAs(r, n, id)
    ensures CameAs(r, n + 1, id)
  {
    RunInv(r, n);
    assert RunStep(r, n);
    var s, l := r.states[n], r.labels[n];
    if id in s.q.recs {
      ListedIsNotSubmitted(s, l, id);
      StepKeepsOrder(s, l, id);
    } else {
      OnlySubmitted(s, l, id);
    }
  }

  /** In every state of every run a listed job has the command, arguments, dependencies, required success,
      retries and slots of the request that submitted it, or those it was loaded with. */
  lemma {:induction false} JobIsAsRequested(r: DaemonRun, n: nat, id: int)
    requires n < |r.states| && id in r.states[n].q.recs
    ensures CameAs(r, n, id)
    decreases n
  {
    if n > 0 {
      if id in r.states[n - 1].q.recs {
        JobIsAsRequested(r, n - 1, id);
      }
      CameAsStep(r, n - 1, id);
    }
  }

  lemma {:induction false} SubmittedOnce(r: DaemonRun, i: nat, j: nat)
    requires i < j <= |r.labels| && r.labels[i].Request? && r.labels[i].op.AddOp?
    ensures RequestOf(r, j, r.states[i].q.nextID) == Some(r.labels[i].op.req)
    decreases j
  {
    if j > i + 1 {
      SubmittedOnce(r, i, j - 1);
      IdsGrowBetween(r, i + 1, j - 1);
      assert RunStep(r, i);
    }
  }

  /** The job that a submission lists is, in every later state that lists it, the job asked for. */
  lemma SubmissionIsKept(r: DaemonRun, i: nat, j: nat)
    requires i < j < |r.states| && r.labels[i].Request? && r.labels[i].op.AddOp?
    ensures var id := r.states[i].q.nextID;
            id in r.states[j].q.recs ==> AsRequested(r.states[j].q.recs[id], r.labels[i].op.req)
    ensures r.states[i].q.nextID in r.states[i + 1].q.recs
  {
    assert RunStep(r, i);
    SubmittedOnce(r, i, j);
    if r.states[i].q.nextID in r.states[j].q.recs {
      JobIsAsRequested(r, j, r.states[i].q.nextID);
    }
  }

  // ------------------------------------------------------------- what may change afterwards

  /** The parts of a job that requests and attempts change. */
  datatype Detail = Detail(jobLabel: string, timeoutMS: int, session: string, outputFilename: string, pid: int)

  function DetailIn(rec: Record): Detail {
    Detail(rec.info.jobLabel, rec.info.timeoutMS, rec.info.session, rec.info.outputFilename, rec.info.pid)
  }

  function FirstDetail(req: NewJobRequest, path: string): Detail {
    Detail(req.jobLabel, req.timeoutMS, if req.session == "" then "default" else req.session,
           if req.storeOutput then path else "", 0)
  }

  /** What a request changes: the label, the time-out, or the name of the session. */
  function Requested(q: Queue, op: QueueOp, id: int, d: Detail): Detail {
    match op
    case SetLabelOp(x, jobLabel) => if x == id then d.(jobLabel := jobLabel) else d
    case SetTimeoutOp(x, timeoutMS) => if x == id then d.(timeoutMS := timeoutMS) else d
    case RenameSessionOp(oldName, newName) =>
      if oldName == d.session && oldName != "default" && newName !in q.sessions then d.(session := newName) else d
    case _ => d
  }

  /** What a step changes: a start and a retry clear the process id, a started process sets it and may
      name its output file. */
  ghost function Changed(s: Sys, l: Label, id: int, d: Detail): Detail
    requires Enabled(s, l)
  {
    match l
    case Request(op) => Requested(s.q, op, id, d)
    case StartPicked => if s.pc.id == id then d.(pid := 0) else d
    case ExecStart(g, pid, out) =>
      if s.live[g].id != id then d
      else d.(pid := pid, outputFilename := if out != "" then out else d.outputFilename)
    case ExecRetry(g) =>
      if s.live[g].id == id && id in s.q.recs && s.q.recs[id].info.attempt < s.q.recs[id].info.retries
      then d.(pid := 0) else d
    case _ => d
  }

  /** The details of job `id` as the first `n` steps tell them. */
  ghost function DetailOf(r: DaemonRun, n: nat, id: int): Detail
    requires n <= |r.labels|
  {
    if n == 0 then
      if id in r.states[0].q.recs then DetailIn(r.states[0].q.recs[id]) else Detail("", 0, "", "", 0)
    else if Submits(r.states[n - 1], r.labels[n - 1], id) then
      FirstDetail(r.labels[n - 1].op.req, r.labels[n - 1].op.path)
    else
      assert RunStep(r, n - 1);
      Changed(r.states[n - 1], r.labels[n - 1], id, DetailOf(r, n - 1, id))
  }

  lemma RequestChanges(q: Queue, op: QueueOp, id: int)
    requires RepInv(q) && IsRequest(op) && id in q.recs && id in Apply(q, op).recs
    ensures DetailIn(Apply(q, op).recs[id]) == Requested(q, op, id, DetailIn(q.recs[id]))
  {
    if op.AddOp? {
      NextIsFresh(q);
    }
    assert RecordOk(q, id);
  }

  lemma ExecutorChanges(s: Daemon, l: Label, id: int)
    requires IsExecutor(l) && Enabled(s, l) && id in s.q.recs && id in ExecutorStep(s, l).q.recs
    ensures DetailIn(ExecutorStep(s, l).q.recs[id]) == Changed(s, l, id, DetailIn(s.q.recs[id]))
  {
  }

  lemma SchedulerChanges(s: Daemon, l: Label, id: int)
    requires IsScheduler(l) && Enabled(s, l) && id in s.q.recs && id in SchedulerStep(s, l).q.recs
    ensures DetailIn(SchedulerStep(s, l).q.recs[id]) == Changed(s, l, id, DetailIn(s.q.recs[id]))
  {
  }

  lemma StepChanges(s: Daemon, l: Label, id: int)
    requires Enabled(s, l) && id in s.q.recs && id in Step(s, l).q.recs
    ensures DetailIn(Step(s, l).q.recs[id]) == Changed(s, l, id, DetailIn(s.q.recs[id]))
  {
    if l.Request? {
      RequestChanges(s.q, l.op, id);
    } else if IsExecutor(l) {
      ExecutorChanges(s, l, id);
    } else if IsScheduler(l) {
      SchedulerChanges(s, l, id);
    }
  }

  lemma SubmittedDetail(s: Daemon, l: Label, id: int)
    requires Enabled(s, l) && Submits(s, l, id)
    ensures id in Step(s, l).q.recs && DetailIn(Step(s, l).q.recs[id]) == FirstDetail(l.op.req, l.op.path)
  {
  }

  /** Label, time-out, session, output file and process id are those asked for until a request or an
      attempt changes them, and then the ones given last. */
  lemma {:induction false} DetailsFollow(r: DaemonRun, n: nat, id: int)
    requires n < |r.states| && id in r.states[n].q.recs
    ensures DetailIn(r.states[n].q.recs[id]) == DetailOf(r, n, id)
    decreases n
  {
    if n > 0 {
      RunInv(r, n - 1);
      assert RunStep(r, n - 1);
      var s, l := r.states[n - 1], r.labels[n - 1];
      if id in s.q.recs {
        DetailsFollow(r, n - 1, id);
        ListedIsNotSubmitted(s, l, id);
        StepChanges(s, l, id);
      } else {
        OnlySubmitted(s, l, id);
        SubmittedDetail(s, l, id);
      }
    }
  }

  // ---------------------------------------------------------------- slots as asked for

  /** The limit that was set last. */
  ghost function LimitSet(r: DaemonRun, n: nat): int
    requires n <= |r.labels|
  {
    if n == 0 then r.states[0].maxSlots
    else if r.labels[n - 1].SetMaxSlots? then r.labels[n - 1].n
    else LimitSet(r, n - 1)
  }

  lemma {:induction false} LimitIsLastSet(r: DaemonRun, n: nat)
    requires n < |r.states|
    ensures r.states[n].maxSlots == LimitSet(r, n)
  {
    if n > 0 {
      LimitIsLastSet(r, n - 1);
      assert RunStep(r, n - 1);
    }
  }

  predicate HasMax(pc: PC) {
    pc.AtBusy? || pc.AtPick? || pc.AtStart?
  }

  /** The limit that an iteration works by is the one in force when the iteration began. */
  lemma {:induction false} MaxWasRead(r: DaemonRun, n: nat) returns (k: nat)
    requires n < |r.states| && HasMax(r.states[n].pc)
    ensures k < n && r.labels[k].ReadMax? && (forall j: nat | k < j < n :: !r.labels[j].ReadMax?)
    ensures r.states[n].pc.max == LimitSet(r, k)
    decreases n
  {
    assert RunStep(r, n - 1);
    if r.labels[n - 1].ReadMax? {
      k := n - 1;
      LimitIsLastSet(r, k);
    } else {
      k := MaxWasRead(r, n - 1);
    }
  }

  /** The slots job `id` asked for: at submission, or as it was loaded. */
  ghost function Asked(r: DaemonRun, n: nat, id: int): int
    requires n <= |r.labels|
  {
    match RequestOf(r, n, id)
    case Some(req) => SlotsAsked(req)
    case None => if id in r.states[0].q.recs then r.states[0].q.recs[id].info.numSlots else 1
  }

  /** The jobs that run in state `n`, with the slots each asked for. */
  ghost function RunningAsked(r: DaemonRun, n: nat): map<int, int>
    requires n < |r.states|
  {
    map id | id in r.states[n].q.recs && IsRunning(r.states[n].q, id) :: Asked(r, n, id)
  }

  function Whole(): int -> int {
    (n: int) => n
  }

  function Clamped(max: int): int -> int {
    (n: int) => Min(n, max)
  }

  lemma NeedIsAsked(r: DaemonRun, n: nat, id: int)
    requires n < |r.states| && id in r.states[n].q.recs
    ensures r.states[n].q.recs[id].info.numSlots == Asked(r, n, id)
  {
    JobIsAsRequested(r, n, id);
  }

  lemma AskedIsNeeded(r: DaemonRun, n: nat, max: int)
    requires n < |r.states|
    ensures MapSum(RunningAsked(r, n), Whole()) == BusySlots(r.states[n].q)
    ensures MapSum(RunningAsked(r, n), Clamped(max)) == MapSum(r.states[n].q.recs, ClampedSlots(max))
  {
    var q, asked := r.states[n].q, RunningAsked(r, n);
    forall id | id in q.recs ensures id in asked ==> asked[id] == q.recs[id].info.numSlots {
      NeedIsAsked(r, n, id);
    }
    MapSumEq(asked, Whole(), q.recs, Slots);
    MapSumEq(asked, Clamped(max), q.recs, ClampedSlots(max));
  }

  /** Step `i` starts the listed job `id`, working by the limit `max`. */
  ghost predicate Starts(r: DaemonRun, i: nat, id: int, max: int) {
    && i < |r.labels| && r.labels[i].StartPicked? && id in r.states[i].q.recs
    && r.states[i].pc.AtStart? && r.states[i].pc.id == id && r.states[i].pc.max == max
  }

  /** The running jobs' needs fit `max`, or job `id` needs more and runs alone. */
  ghost predicate NeedsFit(q: Queue, id: int, max: int) {
    && IsRunning(q, id) && MapSum(q.recs, ClampedSlots(max)) <= max
    && if q.recs[id].info.numSlots > max then OnlyRunning(q, id) else BusySlots(q) <= max
  }

  lemma StartedNeedsFit(r: DaemonRun, i: nat, id: int, max: int)
    requires Starts(r, i, id, max)
    ensures NeedsFit(r.states[i + 1].q, id, max)
  {
    RunInv(r, i);
    assert RunStep(r, i);
    StartFits(r.states[i], r.labels[i]);
  }

  /** Slots are kept as they were asked for: when a job starts, the requests of all running jobs, cut down
      to the machine, fit the limit in force when the iteration began; a job that asked for more runs
      alone, and otherwise the full requests fit. */
  lemma StartFitsAsAsked(r: DaemonRun, i: nat, id: int, max: int) returns (k: nat)
    requires Starts(r, i, id, max)
    ensures k < i && r.labels[k].ReadMax? && forall j: nat | k < j < i :: !r.labels[j].ReadMax?
    ensures max == LimitSet(r, k) && IsRunning(r.states[i + 1].q, id)
    ensures MapSum(RunningAsked(r, i + 1), Clamped(max)) <= max
    ensures if Asked(r, i + 1, id) > max then OnlyRunning(r.states[i + 1].q, id)
            else MapSum(RunningAsked(r, i + 1), Whole()) <= max
  {
    k := MaxWasRead(r, i);
    StartedNeedsFit(r, i, id, max);
    NeedIsAsked(r, i + 1, id);
    AskedIsNeeded(r, i + 1, max);
  }
}
