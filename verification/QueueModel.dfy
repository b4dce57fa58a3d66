/**
  The job queue as a value, with one function per mutator of `JobQueue`.
  `order` is the list of ids, `recs` the id index. `issued`, `deliveries` and `dropped`
  record the history of result channels.
 */
module QueueModel {
  import opened Collections
  import opened Protocol

  const DEFAULT := "default"

  datatype Queue = Queue(
    order: seq<int>, recs: map<int, Record>, nextID: int, lastID: int,
    sessions: map<string, string>, groups: set<string>, dirty: bool,
    issued: seq<Issue>, deliveries: seq<Delivery>, dropped: set<nat>)

  const EMPTY := Queue([], map[], 0, 0, map[DEFAULT := DEFAULT], {DEFAULT}, false, [], [], {})

  // ---------------------------------------------------------------- one job


  function Drop(q: Queue, gone: set<int>): Queue {
    q.(order := Without(q.order, gone), recs := q.recs - gone)
  }

  function NewRecord(req: NewJobRequest, id: int, path: string): Record {
    Record(id,
           JobInfo(req.command, Queued, NO_RESULT, if req.storeOutput then path else "", req.storeOutput,
                   0, req.dependOn, req.jobLabel, if req.session == "" then DEFAULT else req.session,
                   if req.numSlots < 1 then 1 else req.numSlots, req.timeoutMS, req.retries, 0),
           req.commandArgs, req.requireElevel, [])
  }

  function Add(q: Queue, req: NewJobRequest, path: string): Queue {
    var r := NewRecord(req, q.nextID, path);
    q.(order := q.order + [q.nextID],
       recs := q.recs[q.nextID := r],
       sessions := if r.info.session in q.sessions then q.sessions else q.sessions[r.info.session := DEFAULT],
       lastID := q.nextID, nextID := q.nextID + 1, dirty := true)
  }

  predicate CanRemove(q: Queue, id: int) {
    id in q.recs && !q.recs[id].info.state.Running?
  }

  /** Removing a job forgets its waiters: their channels are never answered. */
  function Remove(q: Queue, id: int): Queue {
    if !CanRemove(q, id) then q else
      Drop(q, {id}).(dirty := true, dropped := q.dropped + Elements(q.recs[id].waiters))
  }

  function WithInfo(q: Queue, id: int, info: JobInfo): Queue
    requires id in q.recs
  {
    q.(recs := q.recs[id := q.recs[id].(info := info)], dirty := true)
  }

  function SetRunning(q: Queue, id: int, pid: int, out: string): Queue {
    if id !in q.recs then q else
      var info := q.recs[id].info;
      WithInfo(q, id, info.(state := Running, pid := pid,
                            outputFilename := if out != "" then out else info.outputFilename))
  }

  function SetLabel(q: Queue, id: int, jobLabel: string): Queue {
    if id !in q.recs then q else WithInfo(q, id, q.recs[id].info.(jobLabel := jobLabel))
  }

  function SetTimeout(q: Queue, id: int, timeoutMS: int): Queue {
    if id !in q.recs then q else WithInfo(q, id, q.recs[id].info.(timeoutMS := timeoutMS))
  }

  function Answers(waiters: seq<nat>, result: Result): seq<Delivery> {
    seq(|waiters|, i requires 0 <= i < |waiters| => Delivery(waiters[i], result))
  }

  /** Ends a job: the state and result are set and every waiter is answered. */
  function Resolve(q: Queue, id: int, state: JobState, result: Result): Queue {
    if id !in q.recs then q else
      var r := q.recs[id];
      q.(recs := q.recs[id := r.(info := r.info.(state := state, result := result), waiters := [])],
         dirty := true,
         deliveries := q.deliveries + Answers(r.waiters, result))
  }

  function MarkFinished(q: Queue, id: int, result: Result): Queue {
    Resolve(q, id, Finished, result)
  }

  function MarkSkipped(q: Queue, id: int): Queue {
    Resolve(q, id, Skipped, SKIP_RESULT)
  }

  predicate CanRetry(q: Queue, id: int) {
    id in q.recs && q.recs[id].info.attempt < q.recs[id].info.retries
  }

  function RequeueForRetry(q: Queue, id: int): Queue {
    if !CanRetry(q, id) then q else
      var info := q.recs[id].info;
      WithInfo(q, id, info.(attempt := info.attempt + 1, state := Queued, pid := 0))
  }

  /** Hands out channel number `|issued|`, answered at once unless the job is still active. */
  function WaitFor(q: Queue, id: int): Queue {
    var ch := |q.issued|;
    if id !in q.recs then
      q.(issued := q.issued + [Issue(id, false)], deliveries := q.deliveries + [Delivery(ch, START_FAILED)])
    else if q.recs[id].info.state.Terminal() then
      q.(issued := q.issued + [Issue(id, true)],
         deliveries := q.deliveries + [Delivery(ch, q.recs[id].info.result)])
    else
      var r := q.recs[id];
      q.(issued := q.issued + [Issue(id, true)], recs := q.recs[id := r.(waiters := r.waiters + [ch])])
  }

  // ------------------------------------------------------------ many jobs

  predicate IsTerminal(q: Queue, id: int) {
    id in q.recs && q.recs[id].info.state.Terminal()
  }

  predicate IsQueued(q: Queue, id: int) {
    id in q.recs && q.recs[id].info.state.Queued?
  }

  predicate IsRunning(q: Queue, id: int) {
    id in q.recs && q.recs[id].info.state.Running?
  }

  function Forget(q: Queue, gone: set<int>): Queue {
    Drop(q, gone).(dirty := q.dirty || gone != {})
  }

  function EndedJobs(q: Queue): set<int> {
    set id | id in q.recs && IsTerminal(q, id)
  }

  function EndedIn(q: Queue, session: string): set<int> {
    set id | id in q.recs && IsTerminal(q, id) && q.recs[id].info.session == session
  }

  function ClearFinished(q: Queue): Queue {
    Forget(q, EndedJobs(q))
  }

  function ClearFinishedInSession(q: Queue, session: string): Queue {
    Forget(q, EndedIn(q, session))
  }

  /** The ids of the listed jobs that are finished or skipped, in list order. */
  function Terminals(q: Queue): seq<int> {
    TerminalsIn(q, q.order)
  }

  function TerminalsIn(q: Queue, ids: seq<int>): seq<int> {
    if ids == [] then [] else
      var last := ids[|ids| - 1];
      TerminalsIn(q, ids[..|ids| - 1]) + if IsTerminal(q, last) then [last] else []
  }

  function PruneFinished(q: Queue, maxKeep: nat): Queue {
    var finished := Terminals(q);
    if |finished| <= maxKeep then q else Forget(q, Elements(finished[..|finished| - maxKeep]))
  }

  // ------------------------------------------------------------ list order

  /** The index of the first queued job in the list, or -1. */
  function FirstQueued(q: Queue, from: nat): (k: int)
    requires from <= |q.order|
    ensures k == -1 || from <= k < |q.order|
    ensures k >= 0 ==> IsQueued(q, q.order[k])
    ensures forall i | from <= i < (if k < 0 then |q.order| else k) :: !IsQueued(q, q.order[i])
    decreases |q.order| - from
  {
    if from == |q.order| then -1
    else if IsQueued(q, q.order[from]) then from
    else FirstQueued(q, from + 1)
  }

  predicate CanMakeUrgent(q: Queue, id: int) {
    id in q.order && IsQueued(q, id)
  }

  function MakeUrgent(q: Queue, id: int): Queue {
    if !CanMakeUrgent(q, id) then q else
      var k, f := Pos(q.order, id), FirstQueued(q, 0);
      if f < 0 || f >= k then q
      else q.(order := Shifted(q.order, f, k), dirty := true)
  }

  predicate CanSwap(q: Queue, id1: int, id2: int) {
    id1 in q.order && id2 in q.order
  }

  function Swap(q: Queue, id1: int, id2: int): Queue {
    if !CanSwap(q, id1, id2) then q else
      q.(order := Swapped(q.order, Pos(q.order, id1), Pos(q.order, id2)), dirty := true)
  }

  // --------------------------------------------------- sessions and groups

  predicate CanCreateSession(q: Queue, name: string) {
    name !in q.sessions
  }

  function CreateSession(q: Queue, name: string): Queue {
    if !CanCreateSession(q, name) then q else q.(sessions := q.sessions[name := DEFAULT], dirty := true)
  }

  predicate CanRenameSession(q: Queue, oldName: string, newName: string) {
    oldName in q.sessions && oldName != DEFAULT && newName !in q.sessions
  }

  function Moved(r: Record, oldName: string, newName: string): Record {
    if r.info.session == oldName then r.(info := r.info.(session := newName)) else r
  }

  function RenameSession(q: Queue, oldName: string, newName: string): Queue {
    if !CanRenameSession(q, oldName, newName) then q else
      q.(sessions := (q.sessions - {oldName})[newName := q.sessions[oldName]],
         recs := map id | id in q.recs :: Moved(q.recs[id], oldName, newName),
         dirty := true)
  }

  predicate HasActiveJobs(q: Queue, session: string) {
    exists id | id in q.recs ::
      q.recs[id].info.session == session && (q.recs[id].info.state.Running? || q.recs[id].info.state.Queued?)
  }

  function JobsOf(q: Queue, session: string): set<int> {
    set id | id in q.recs && q.recs[id].info.session == session
  }

  predicate CanDeleteSession(q: Queue, name: string) {
    name != DEFAULT && name in q.sessions && !HasActiveJobs(q, name)
  }

  /** Why the session cannot be deleted; empty when it can. */
  function SessionRefusal(q: Queue, name: string): (reason: string)
    ensures reason == "" <==> CanDeleteSession(q, name)
  {
    if name == DEFAULT then "cannot delete default session"
    else if name !in q.sessions then "session not found"
    else if HasActiveJobs(q, name) then "session has active jobs"
    else ""
  }

  function DeleteSession(q: Queue, name: string): Queue {
    if !CanDeleteSession(q, name) then q else
      Drop(q, JobsOf(q, name))
        .(sessions := q.sessions - {name}, dirty := true)
  }

  predicate CanCreateGroup(q: Queue, name: string) {
    name != "" && name !in q.groups
  }

  function CreateGroup(q: Queue, name: string): Queue {
    if !CanCreateGroup(q, name) then q else q.(groups := q.groups + {name}, dirty := true)
  }

  predicate CanRenameGroup(q: Queue, oldName: string, newName: string) {
    oldName != DEFAULT && newName != "" && oldName in q.groups && newName !in q.groups
  }

  function RenameGroup(q: Queue, oldName: string, newName: string): Queue {
    if !CanRenameGroup(q, oldName, newName) then q else
      q.(groups := q.groups - {oldName} + {newName},
         sessions := map s | s in q.sessions :: if q.sessions[s] == oldName then newName else q.sessions[s],
         dirty := true)
  }

  predicate CanDeleteGroup(q: Queue, name: string) {
    name != DEFAULT && name in q.groups && forall s | s in q.sessions :: q.sessions[s] != name
  }

  function GroupRefusal(q: Queue, name: string): (reason: string)
    ensures reason == "" <==> CanDeleteGroup(q, name)
  {
    if name == DEFAULT then "cannot delete default group"
    else if name !in q.groups then "group not found"
    else if exists s | s in q.sessions :: q.sessions[s] == name then "group has sessions"
    else ""
  }

  function DeleteGroup(q: Queue, name: string): Queue {
    if !CanDeleteGroup(q, name) then q else q.(groups := q.groups - {name}, dirty := true)
  }

  predicate CanMoveSession(q: Queue, session: string, group: string) {
    session in q.sessions && group in q.groups
  }

  function MoveSession(q: Queue, session: string, group: string): Queue {
    if !CanMoveSession(q, session, group) then q else
      q.(sessions := q.sessions[session := group], dirty := true)
  }

  // -------------------------------------------------------------- readers

  function Slots(r: Record): int {
    if r.info.state.Running? then r.info.numSlots else 0
  }

  ghost function BusySlots(q: Queue): int {
    MapSum(q.recs, Slots)
  }

  /** A dependency no longer holds a job back: it is unknown, or has ended. */
  predicate Settled(q: Queue, dep: int) {
    dep in q.recs ==> q.recs[dep].info.state.Terminal()
  }

  predicate DependenciesMet(q: Queue, r: Record) {
    forall d | d in r.info.dependOn :: Settled(q, d)
  }

  predicate Ready(q: Queue, id: int) {
    IsQueued(q, id) && DependenciesMet(q, q.recs[id])
  }

  /** A dependency that ended badly, as the skip rule sees it. */
  predicate Spoiled(q: Queue, dep: int) {
    dep in q.recs &&
    (q.recs[dep].info.state.Skipped? ||
     (q.recs[dep].info.state.Finished? && q.recs[dep].info.result.exitCode != 0))
  }

  predicate ShouldSkip(q: Queue, r: Record) {
    r.requireElevel && exists d | d in r.info.dependOn :: Spoiled(q, d)
  }

  predicate Skippable(q: Queue, id: int) {
    IsQueued(q, id) && ShouldSkip(q, q.recs[id])
  }

  function SkippableIn(q: Queue, ids: seq<int>): (r: seq<int>) {
    if ids == [] then [] else
      var last := ids[|ids| - 1];
      SkippableIn(q, ids[..|ids| - 1]) + if Skippable(q, last) then [last] else []
  }

  function CheckSkippable(q: Queue): seq<int> {
    SkippableIn(q, q.order)
  }

  function Min(a: int, b: int): int {
    if a < b then a else b
  }

  /** The index of the first ready job at or after `from`, or -1. */
  function FirstReady(q: Queue, from: nat): (k: int)
    requires from <= |q.order|
    ensures k == -1 || from <= k < |q.order|
    ensures k >= 0 ==> Ready(q, q.order[k])
    ensures forall i | from <= i < (if k < 0 then |q.order| else k) :: !Ready(q, q.order[i])
    decreases |q.order| - from
  {
    if from == |q.order| then -1
    else if Ready(q, q.order[from]) then from
    else FirstReady(q, from + 1)
  }

  /** Strict order: only the first ready job may start, and only when its need fits. */
  function NextRunnable(q: Queue, maxSlots: int, busySlots: int): Option<int> {
    var k := FirstReady(q, 0);
    if k < 0 || Min(q.recs[q.order[k]].info.numSlots, maxSlots) > maxSlots - busySlots
    then None else Some(q.order[k])
  }

  // ----------------------------------------------------------------- reset

  ghost function AttachedChannels(q: Queue): set<nat> {
    set id, w | id in q.recs && w in q.recs[id].waiters :: w
  }

  /** Everything goes, the id counters included; attached channels are never answered. */
  ghost function Reset(q: Queue): Queue {
    EMPTY.(dirty := true, issued := q.issued, deliveries := q.deliveries, dropped := q.dropped + AttachedChannels(q))
  }

  // ------------------------------------------------------------ operations

  datatype QueueOp =
    | AddOp(req: NewJobRequest, path: string)
    | RemoveOp(id: int)
    | SetRunningOp(id: int, pid: int, out: string)
    | MarkFinishedOp(id: int, result: Result)
    | MarkSkippedOp(id: int)
    | RequeueOp(id: int)
    | SetLabelOp(id: int, jobLabel: string)
    | SetTimeoutOp(id: int, timeoutMS: int)
    | WaitForOp(id: int)
    | ClearFinishedOp
    | ClearSessionOp(session: string)
    | PruneOp(maxKeep: nat)
    | MakeUrgentOp(id: int)
    | SwapOp(id1: int, id2: int)
    | CreateSessionOp(name: string)
    | RenameSessionOp(oldName: string, newName: string)
    | DeleteSessionOp(name: string)
    | CreateGroupOp(name: string)
    | RenameGroupOp(oldName: string, newName: string)
    | DeleteGroupOp(name: string)
    | MoveSessionOp(session: string, group: string)

  function Apply(q: Queue, op: QueueOp): Queue {
    match op
    case AddOp(req, path) => Add(q, req, path)
    case RemoveOp(id) => Remove(q, id)
    case SetRunningOp(id, pid, out) => SetRunning(q, id, pid, out)
    case MarkFinishedOp(id, result) => MarkFinished(q, id, result)
    case MarkSkippedOp(id) => MarkSkipped(q, id)
    case RequeueOp(id) => RequeueForRetry(q, id)
    case SetLabelOp(id, jobLabel) => SetLabel(q, id, jobLabel)
    case SetTimeoutOp(id, timeoutMS) => SetTimeout(q, id, timeoutMS)
    case WaitForOp(id) => WaitFor(q, id)
    case ClearFinishedOp => ClearFinished(q)
    case ClearSessionOp(session) => ClearFinishedInSession(q, session)
    case PruneOp(maxKeep) => PruneFinished(q, maxKeep)
    case MakeUrgentOp(id) => MakeUrgent(q, id)
    case SwapOp(id1, id2) => Swap(q, id1, id2)
    case CreateSessionOp(name) => CreateSession(q, name)
    case RenameSessionOp(oldName, newName) => RenameSession(q, oldName, newName)
    case DeleteSessionOp(name) => DeleteSession(q, name)
    case CreateGroupOp(name) => CreateGroup(q, name)
    case RenameGroupOp(oldName, newName) => RenameGroup(q, oldName, newName)
    case DeleteGroupOp(name) => DeleteGroup(q, name)
    case MoveSessionOp(session, group) => MoveSession(q, session, group)
  }
}
