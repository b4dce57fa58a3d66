/**
  The invariant of the running daemon: it holds of every state of every run, whatever requests
  arrive between the scheduler's separate critical sections.
 */
module SystemInvariant {
  import opened Collections
  import opened Protocol
  import opened QueueModel
  import opened QueueInvariant
  import opened SystemModel
  import opened Waiters

  /** Every executor's job exists and runs, or was removed before its process began. */
  ghost predicate LiveOk(s: Sys) {
    && (forall g | g in s.live ::
          g < s.nextG && s.live[g].id < s.q.nextID &&
          (s.live[g].id in s.q.recs ==> IsRunning(s.q, s.live[g].id)))
    && (forall g, h | g in s.live && h in s.live && s.live[g].id == s.live[h].id :: g == h)
  }

  ghost predicate NoExecutor(s: Sys, id: int) {
    forall g | g in s.live :: s.live[g].id != id
  }

  /** A running job has an executor, or is about to get one. */
  ghost predicate RunningCovered(s: Sys) {
    forall id | IsRunning(s.q, id) :: s.pc == AtSpawn(id) || exists g :: g in s.live && s.live[g].id == id
  }

  ghost predicate PickedOk(s: Sys, max: int, busy: int, id: int) {
    && id < s.q.nextID && NoExecutor(s, id)
    && BusySlots(s.q) <= busy
    && (id in s.q.recs ==> IsQueued(s.q, id) && Min(s.q.recs[id].info.numSlots, max) <= max - busy)
  }

  ghost predicate PcOk(s: Sys) {
    match s.pc
    case Skipping(ids) =>
      NoDup(ids) && forall id | id in ids :: id < s.q.nextID && (id in s.q.recs ==> IsQueued(s.q, id))
    case AtPick(_, busy) => BusySlots(s.q) <= busy
    case AtStart(max, busy, id) => PickedOk(s, max, busy, id)
    case AtSpawn(id) =>
      id < s.q.nextID && NoExecutor(s, id) && (id in s.q.recs ==> IsRunning(s.q, id))
    case _ => true
  }

  /** The attempts started so far, against the retries used. */
  ghost predicate StartsOk(s: Sys, id: int)
    requires id in s.q.recs
  {
    var info := s.q.recs[id].info;
    && id in s.allowed && s.allowed[id] == MaxRetries(info.retries) + 1
    && StartsOf(s, id) <= info.attempt + (if info.state.Running? || info.state.Finished? then 1 else 0)
  }

  ghost predicate CountsOk(s: Sys) {
    && (forall id | id in s.q.recs :: StartsOk(s, id))
    && (forall id | id in s.starts :: id < s.q.nextID && id in s.allowed && s.starts[id] <= s.allowed[id])
    && (forall id | id in s.allowed :: id < s.q.nextID && s.allowed[id] >= 1)
    && (s.pc.AtStart? ==> s.pc.id in s.allowed && StartsOf(s, s.pc.id) < s.allowed[s.pc.id])
  }

  /** What an answered channel of a listed job carries: that job's final result. */
  ghost predicate AnswersFinal(q: Queue) {
    forall k | 0 <= k < |q.deliveries| && q.deliveries[k].channel < |q.issued| ::
      AnswerFinal(q, q.deliveries[k])
  }

  predicate AnswerFinal(q: Queue, d: Delivery)
    requires d.channel < |q.issued|
  {
    var issue := q.issued[d.channel];
    issue.known ==>
      issue.id < q.nextID &&
      (issue.id in q.recs ==> IsTerminal(q, issue.id) && q.recs[issue.id].info.result == d.result)
  }

  ghost predicate Inv(s: Sys) {
    && RepInv(s.q) && WaiterInv(s.q) && AnswersFinal(s.q)
    && LiveOk(s) && RunningCovered(s) && PcOk(s) && CountsOk(s)
  }

  lemma InitInv(s: Sys)
    requires Init(s)
    ensures Inv(s)
  {
    forall id | id in s.q.recs ensures StartsOk(s, id) && id < s.q.nextID && WaitersOk(s.q, id) {
      assert RecordOk(s.q, id);
    }
    assert forall id | id in s.allowed :: id in s.q.recs;
  }

  /** A daemon in a state that satisfies the invariant. */
  type Daemon = s: Sys | Inv(s) ghost witness FRESH
}
