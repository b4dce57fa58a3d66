/**
  What client requests can and cannot do to a job, whatever the request: the frame on which
  every invariant of the running system rests.
 */
module QueueEvolution {
  import opened Collections
  import opened Protocol
  import opened QueueModel
  import opened QueueInvariant
  import opened SystemModel

  /** Two records of one job that the scheduler cannot tell apart. */
  predicate SameJob(a: Record, b: Record) {
    && a.id == b.id && a.requireElevel == b.requireElevel
    && a.info.state == b.info.state && a.info.result == b.info.result
    && a.info.dependOn == b.info.dependOn && a.info.numSlots == b.info.numSlots
    && a.info.retries == b.info.retries && a.info.attempt == b.info.attempt
  }

  /** Jobs are kept as they are or forgotten while not running; new ones are queued. */
  ghost predicate Evolves(q: Queue, q': Queue) {
    && q.nextID <= q'.nextID
    && (forall id | id in q.recs && id in q'.recs :: SameJob(q.recs[id], q'.recs[id]))
    && (forall id | id in q.recs && id !in q'.recs :: !IsRunning(q, id))
    && (forall id | id in q'.recs && id !in q.recs ::
          q.nextID <= id && IsQueued(q', id) && q'.recs[id].info.attempt == 0)
  }

  lemma RequestEvolves(q: Queue, op: QueueOp)
    requires RepInv(q) && IsRequest(op)
    ensures Evolves(q, Apply(q, op))
  {
    if op.AddOp? {
      AddEvolves(q, op.req, op.path);
    } else if Forgets(op) {
      DropEvolves(q, op);
    } else if Touches(op) {
      TouchEvolves(q, op);
    } else {
      assert Apply(q, op).recs == q.recs && Apply(q, op).nextID == q.nextID;
    }
  }

  /** Requests that only forget jobs. */
  predicate Forgets(op: QueueOp) {
    op.RemoveOp? || op.ClearFinishedOp? || op.ClearSessionOp? || op.PruneOp? || op.DeleteSessionOp?
  }

  /** Requests that only change fields the scheduler does not read. */
  predicate Touches(op: QueueOp) {
    op.SetLabelOp? || op.SetTimeoutOp? || op.WaitForOp? || op.RenameSessionOp?
  }

  lemma TouchEvolves(q: Queue, op: QueueOp)
    requires Touches(op)
    ensures Evolves(q, Apply(q, op))
  {
    assert Apply(q, op).recs.Keys == q.recs.Keys;
  }

  lemma AddEvolves(q: Queue, req: NewJobRequest, path: string)
    requires RepInv(q)
    ensures Evolves(q, Add(q, req, path))
  {
    NextIsFresh(q);
  }

  lemma DropEvolves(q: Queue, op: QueueOp)
    requires Forgets(op)
    ensures Evolves(q, Apply(q, op))
  {
    forall id | id in q.recs && id !in Apply(q, op).recs ensures !IsRunning(q, id) {
      if op.PruneOp? {
        TerminalsMembers(q, q.order, id);
      }
    }
  }

  lemma RequestAddsNoIds(q: Queue, op: QueueOp)
    requires IsRequest(op) && !op.AddOp?
    ensures Apply(q, op).recs.Keys <= q.recs.Keys
  {
    if Touches(op) {
      assert Apply(q, op).recs.Keys == q.recs.Keys;
    } else if !Forgets(op) {
      assert Apply(q, op).recs == q.recs;
    }
  }

  /** No new running job, and no running job changed its slots. */
  ghost predicate RunningShrinks(q: Queue, q': Queue) {
    forall id | IsRunning(q', id) :: IsRunning(q, id) && q.recs[id].info.numSlots == q'.recs[id].info.numSlots
  }

  ghost predicate SlotsPositive(q: Queue) {
    forall id | id in q.recs :: q.recs[id].info.numSlots >= 1
  }

  lemma RepInvSlots(q: Queue)
    requires RepInv(q)
    ensures SlotsPositive(q)
  {
    forall id | id in q.recs ensures q.recs[id].info.numSlots >= 1 {
      assert RecordOk(q, id);
    }
  }

  lemma BusyShrinks(q: Queue, q': Queue)
    requires SlotsPositive(q) && RunningShrinks(q, q')
    ensures BusySlots(q') <= BusySlots(q)
  {
    forall id | id in q'.recs ensures Slots(q'.recs[id]) <= WeightAt(q.recs, id, Slots) {
      if IsRunning(q', id) {
        assert IsRunning(q, id);
      }
    }
    forall id | id in q.recs ensures Slots(q.recs[id]) >= 0 {
      assert q.recs[id].info.numSlots >= 1;
    }
    MapSumLe(q'.recs, Slots, q.recs, Slots);
  }

  lemma BusyNonNegative(q: Queue)
    requires SlotsPositive(q)
    ensures BusySlots(q) >= 0
    ensures BusySlots(q) == 0 <==> forall id | id in q.recs :: !IsRunning(q, id)
  {
    forall id | id in q.recs ensures Slots(q.recs[id]) >= 0 {
      assert q.recs[id].info.numSlots >= 1;
    }
    MapSumNonNegative(q.recs, Slots);
    if id :| id in q.recs && IsRunning(q, id) {
      MapSumMember(q.recs, id, Slots);
    } else {
      var none: map<int, Record> := map[];
      forall id | id in q.recs ensures Slots(q.recs[id]) <= WeightAt(none, id, Slots) {
        assert !IsRunning(q, id);
      }
      MapSumLe(q.recs, Slots, none, Slots);
    }
  }
}
