/**
  The representation invariant of the queue, and its preservation by every mutator.
 */
module QueueInvariant {
  import opened Collections
  import opened Protocol
  import opened QueueModel

  /** The id index and the list hold the same jobs, each once. */
  ghost predicate Indexed(q: Queue) {
    NoDup(q.order) && forall id :: id in q.order <==> id in q.recs
  }

  function MaxRetries(retries: int): nat {
    if retries < 0 then 0 else retries
  }

  predicate RecordOk(q: Queue, id: int)
    requires id in q.recs
  {
    var r := q.recs[id];
    && r.id == id && 0 <= id < q.nextID
    && r.info.numSlots >= 1
    && r.info.session in q.sessions
    && 0 <= r.info.attempt <= MaxRetries(r.info.retries)
    && (r.info.state.Queued? || r.info.state.Running? || r.info.state.Terminal())
  }

  predicate TablesOk(q: Queue) {
    && DEFAULT in q.sessions && DEFAULT in q.groups
    && forall s | s in q.sessions :: q.sessions[s] in q.groups
  }

  ghost predicate RepInv(q: Queue) {
    && Indexed(q)
    && (forall id | id in q.recs :: RecordOk(q, id))
    && TablesOk(q)
    && 0 <= q.nextID && (q.nextID > 0 ==> q.lastID == q.nextID - 1)
  }

  lemma DropIndexed(q: Queue, gone: set<int>)
    requires Indexed(q)
    ensures Indexed(Drop(q, gone))
  {
    WithoutNoDup(q.order, gone);
    forall id ensures id in Without(q.order, gone) <==> id in q.recs - gone {
      WithoutMembers(q.order, gone, id);
    }
  }

  lemma DropKeeps(q: Queue, gone: set<int>)
    requires RepInv(q)
    ensures RepInv(Drop(q, gone))
  {
    DropIndexed(q, gone);
    forall id | id in q.recs - gone ensures RecordOk(Drop(q, gone), id) {
      assert RecordOk(q, id);
    }
  }

  lemma {:induction false} TerminalsMembers(q: Queue, ids: seq<int>, id: int)
    ensures id in TerminalsIn(q, ids) <==> id in ids && IsTerminal(q, id)
  {
    if ids != [] {
      var front, last := ids[..|ids| - 1], ids[|ids| - 1];
      TerminalsMembers(q, front, id);
      assert ids == front + [last];
    }
  }

  lemma NextIsFresh(q: Queue)
    requires RepInv(q)
    ensures q.nextID !in q.recs
  {
    forall id | id in q.recs ensures id != q.nextID {
      assert RecordOk(q, id);
    }
  }

  lemma AddIndexed(q: Queue, req: NewJobRequest, path: string)
    requires RepInv(q)
    ensures Indexed(Add(q, req, path))
  {
    NextIsFresh(q);
  }

  lemma AddKeeps(q: Queue, req: NewJobRequest, path: string)
    requires RepInv(q)
    ensures RepInv(Add(q, req, path))
  {
    AddIndexed(q, req, path);
    var q' := Add(q, req, path);
    forall id | id in q'.recs ensures RecordOk(q', id) {
      assert id != q.nextID ==> RecordOk(q, id);
    }
  }

  /** Replacing one record by an acceptable one. */
  lemma UpdateKeeps(q: Queue, q': Queue, id: int)
    requires RepInv(q) && id in q.recs && id in q'.recs
    requires q'.order == q.order && q'.recs == q.recs[id := q'.recs[id]]
    requires q'.nextID == q.nextID && q'.lastID == q.lastID
    requires q'.sessions == q.sessions && q'.groups == q.groups
    requires RecordOk(q', id)
    ensures RepInv(q')
  {
    forall x | x in q'.recs ensures RecordOk(q', x) {
      assert RecordOk(q, x);
    }
  }

  lemma MakeUrgentIndexed(q: Queue, id: int)
    requires Indexed(q)
    ensures Indexed(MakeUrgent(q, id))
  {
    if CanMakeUrgent(q, id) {
      var k, f := Pos(q.order, id), FirstQueued(q, 0);
      if 0 <= f < k {
        ShiftIsPermutation(q.order, f, k);
      }
    }
  }

  lemma SwapIndexed(q: Queue, id1: int, id2: int)
    requires Indexed(q)
    ensures Indexed(Swap(q, id1, id2))
  {
    if CanSwap(q, id1, id2) {
      SwapIsPermutation(q.order, Pos(q.order, id1), Pos(q.order, id2));
    }
  }

  lemma ReorderKeeps(q: Queue, q': Queue)
    requires RepInv(q) && Indexed(q')
    requires q' == q.(order := q'.order, dirty := q'.dirty)
    ensures RepInv(q')
  {
    forall x | x in q'.recs ensures RecordOk(q', x) {
      assert RecordOk(q, x);
    }
  }

  lemma RenameSessionKeeps(q: Queue, oldName: string, newName: string)
    requires RepInv(q)
    ensures RepInv(RenameSession(q, oldName, newName))
  {
    var q' := RenameSession(q, oldName, newName);
    forall x | x in q'.recs ensures RecordOk(q', x) {
      assert RecordOk(q, x);
    }
  }

  lemma DeleteSessionKeeps(q: Queue, name: string)
    requires RepInv(q)
    ensures RepInv(DeleteSession(q, name))
  {
    DropKeeps(q, JobsOf(q, name));
    var q' := DeleteSession(q, name);
    forall x | x in q'.recs ensures RecordOk(q', x) {
      assert RecordOk(q, x);
    }
  }

  /** Table changes that keep every session known leave the jobs acceptable. */
  lemma TableKeeps(q: Queue, q': Queue)
    requires RepInv(q) && TablesOk(q') && q.sessions.Keys <= q'.sessions.Keys
    requires q' == q.(sessions := q'.sessions, groups := q'.groups, dirty := q'.dirty)
    ensures RepInv(q')
  {
    forall x | x in q'.recs ensures RecordOk(q', x) {
      assert RecordOk(q, x);
    }
  }

  lemma JobOpKeeps(q: Queue, op: QueueOp)
    requires RepInv(q)
    requires op.SetRunningOp? || op.MarkFinishedOp? || op.MarkSkippedOp? || op.RequeueOp?
          || op.SetLabelOp? || op.SetTimeoutOp? || op.WaitForOp?
    ensures RepInv(Apply(q, op))
  {
    var q' := Apply(q, op);
    if op.id in q.recs {
      assert RecordOk(q, op.id);
      UpdateKeeps(q, q', op.id);
    }
  }

  lemma OrderOpKeeps(q: Queue, op: QueueOp)
    requires RepInv(q)
    requires op.MakeUrgentOp? || op.SwapOp?
    ensures RepInv(Apply(q, op))
  {
    match op {
      case MakeUrgentOp(id) => MakeUrgentIndexed(q, id);
      case SwapOp(id1, id2) => SwapIndexed(q, id1, id2);
    }
    ReorderKeeps(q, Apply(q, op));
  }

  lemma TableOpKeeps(q: Queue, op: QueueOp)
    requires RepInv(q)
    requires op.CreateSessionOp? || op.CreateGroupOp? || op.RenameGroupOp? || op.DeleteGroupOp? || op.MoveSessionOp?
    ensures RepInv(Apply(q, op))
  {
    TableKeeps(q, Apply(q, op));
  }

  lemma DropOpKeeps(q: Queue, op: QueueOp)
    requires RepInv(q)
    requires op.RemoveOp? || op.ClearFinishedOp? || op.ClearSessionOp? || op.PruneOp?
    ensures RepInv(Apply(q, op))
  {
    match op {
      case RemoveOp(id) =>
        if CanRemove(q, id) {
          DropKeeps(q, {id});
          SameJobs(Drop(q, {id}), Remove(q, id));
        }
      case ClearFinishedOp => ForgetKeeps(q, EndedJobs(q));
      case ClearSessionOp(session) => ForgetKeeps(q, EndedIn(q, session));
      case PruneOp(maxKeep) =>
        var finished := Terminals(q);
        if |finished| > maxKeep {
          ForgetKeeps(q, Elements(finished[..|finished| - maxKeep]));
        }
    }
  }

  lemma SameJobs(q: Queue, q': Queue)
    requires RepInv(q)
    requires q' == q.(dirty := q'.dirty, dropped := q'.dropped)
    ensures RepInv(q')
  {
    forall x | x in q'.recs ensures RecordOk(q', x) {
      assert RecordOk(q, x);
    }
  }

  lemma ForgetKeeps(q: Queue, gone: set<int>)
    requires RepInv(q)
    ensures RepInv(Forget(q, gone))
  {
    DropKeeps(q, gone);
    SameJobs(Drop(q, gone), Forget(q, gone));
  }

  /** Every mutator keeps the representation invariant. */
  lemma ApplyKeepsRepInv(q: Queue, op: QueueOp)
    requires RepInv(q)
    ensures RepInv(Apply(q, op))
  {
    match op {
      case AddOp(req, path) => AddKeeps(q, req, path);
      case RenameSessionOp(oldName, newName) => RenameSessionKeeps(q, oldName, newName);
      case DeleteSessionOp(name) => DeleteSessionKeeps(q, name);
      case MakeUrgentOp(_) => OrderOpKeeps(q, op);
      case SwapOp(_, _) => OrderOpKeeps(q, op);
      case RemoveOp(_) => DropOpKeeps(q, op);
      case ClearFinishedOp => DropOpKeeps(q, op);
      case ClearSessionOp(_) => DropOpKeeps(q, op);
      case PruneOp(_) => DropOpKeeps(q, op);
      case CreateSessionOp(_) => TableOpKeeps(q, op);
      case CreateGroupOp(_) => TableOpKeeps(q, op);
      case RenameGroupOp(_, _) => TableOpKeeps(q, op);
      case DeleteGroupOp(_) => TableOpKeeps(q, op);
      case MoveSessionOp(_, _) => TableOpKeeps(q, op);
      case _ => JobOpKeeps(q, op);
    }
  }
}
