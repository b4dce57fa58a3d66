/**
  The scheduler and its executors as objects: every method is one critical section, performed on
  the real queue object, and is proved to be the transition of the same name.
 */
module Schedulers {
  import opened Protocol
  import opened JobQueues
  import QM = QueueModel
  import QI = QueueInvariant
  import opened SystemModel
  import SkipRounds
  import Passes

  class Scheduler {
    const queue: JobQueue
    var maxSlots: int
    var trigger: bool
    var pc: PC
    var picked: Job?
    var live: map<nat, Exec>
    var nextG: nat
    var owed: nat
    ghost var starts: map<int, nat>
    ghost var allowed: map<int, nat>

    ghost predicate Valid()
      reads `pc, `picked, queue`jobs, queue`byID
    {
      queue.Valid() && (pc.AtStart? || pc.AtSpawn? ==> picked != null && picked.id == pc.id)
    }

    ghost function View(): Sys
      requires Valid()
      reads this, queue, queue.jobs
    {
      Sys(queue.View(), maxSlots, trigger, pc, live, nextG, owed, starts, allowed)
    }

    constructor (queue: JobQueue, maxSlots: int)
      requires queue.Valid()
      ensures this.queue == queue && Valid()
      ensures View() == Sys(queue.View(), maxSlots, false, Check, map[], 0, 0, map[],
                            map id | id in queue.View().recs :: QI.MaxRetries(queue.View().recs[id].info.retries) + 1)
    {
      this.queue, this.maxSlots := queue, maxSlots;
      trigger, pc, picked := false, Check, null;
      live, nextG, owed := map[], 0, 0;
      starts := map[];
      allowed := map id | id in queue.View().recs :: QI.MaxRetries(queue.View().recs[id].info.retries) + 1;
    }

    // ------------------------------------------------------------ scheduler

    method DoTakeTrigger()
      requires Valid() && Enabled(View(), TakeTrigger)
      modifies `trigger, `pc
      ensures Valid() && View() == SchedulerStep(old(View()), TakeTrigger)
    {
      trigger, pc := false, Check;
    }

    method DoCheckSkip()
      requires Valid() && Enabled(View(), CheckSkip)
      modifies `pc
      ensures Valid() && View() == SchedulerStep(old(View()), CheckSkip)
    {
      var ids := queue.CheckSkippable();
      pc := Skipping(ids);
    }

    method DoSkipNext()
      requires Valid() && Enabled(View(), SkipNext)
      modifies `pc, queue`dirty, queue`deliveries, queue.jobs
      ensures Valid() && View() == SchedulerStep(old(View()), SkipNext)
    {
      if pc.ids == [] {
        pc := AtMax;
      } else {
        queue.MarkSkipped(pc.ids[0]);
        pc := Skipping(pc.ids[1..]);
      }
    }

    method DoReadMax()
      requires Valid() && Enabled(View(), ReadMax)
      modifies `pc
      ensures Valid() && View() == SchedulerStep(old(View()), ReadMax)
    {
      pc := AtBusy(maxSlots);
    }

    method DoReadBusy()
      requires Valid() && Enabled(View(), ReadBusy)
      modifies `pc
      ensures Valid() && View() == SchedulerStep(old(View()), ReadBusy)
    {
      var busy := queue.BusySlots();
      pc := AtPick(pc.max, busy);
    }

    method DoPickNext()
      requires Valid() && Enabled(View(), PickNext)
      modifies `pc, `picked
      ensures Valid() && View() == SchedulerStep(old(View()), PickNext)
    {
      var job := queue.NextRunnable(pc.max, pc.busy);
      Decide(job);
    }

    /** Keeps the picked job, or ends the pass. */
    method Decide(job: Job?)
      requires Valid() && pc.AtPick?
      modifies `pc, `picked
      ensures Valid()
      ensures View() == old(View()).(pc := if job == null then Idle else AtStart(old(pc).max, old(pc).busy, job.id))
    {
      picked := job;
      pc := if job == null then Idle else AtStart(pc.max, pc.busy, job.id);
    }

    method DoStartPicked()
      requires Valid() && Enabled(View(), StartPicked)
      modifies `pc, `starts, queue`dirty, queue.jobs
      ensures Valid() && View() == SchedulerStep(old(View()), StartPicked)
    {
      queue.SetRunning(picked.id, 0, "");
      starts := starts[pc.id := (if pc.id in starts then starts[pc.id] else 0) + 1];
      pc := AtSpawn(pc.id);
    }

    method DoSpawnPicked()
      requires Valid() && Enabled(View(), SpawnPicked)
      modifies `pc, `live, `nextG
      ensures Valid() && View() == SchedulerStep(old(View()), SpawnPicked)
    {
      live := live[nextG := Exec(picked.id, Spawned)];
      nextG := nextG + 1;
      pc := AtMax;
    }

    /** A whole pass when nothing comes between its steps. */
    method TrySchedule()
      requires Valid() && pc.Check?
      modifies `pc, `picked, `starts, `live, `nextG, queue`dirty, queue`deliveries, queue.jobs
      ensures Valid() && pc.Idle? && queue.jobs == old(queue.jobs)
      ensures queue.View() == Passes.StartAll(SkipRounds.Round(old(queue.View())), maxSlots)
    {
      SkipRound();
      StartJobs();
    }

    /** The loop that starts jobs. */
    method StartJobs()
      requires Valid() && pc.AtMax?
      modifies `pc, `picked, `starts, `live, `nextG, queue`dirty, queue.jobs
      ensures Valid() && pc.Idle? && queue.jobs == old(queue.jobs)
      ensures queue.View() == Passes.StartAll(old(queue.View()), maxSlots)
    {
      ghost var end := Passes.StartAll(queue.View(), maxSlots);
      while true
        invariant Valid() && queue.jobs == old(queue.jobs) && pc.AtMax?
        invariant end == Passes.StartAll(queue.View(), maxSlots)
        decreases SkipRounds.QueuedSet(queue.View())
      {
        var more := StartOne();
        if !more {
          return;
        }
      }
    }

    /** The loop that marks the jobs to skip. */
    method SkipRound()
      requires Valid() && pc.Check?
      modifies `pc, queue`dirty, queue`deliveries, queue.jobs
      ensures Valid() && pc.AtMax? && queue.jobs == old(queue.jobs)
      ensures queue.View() == SkipRounds.Round(old(queue.View()))
    {
      ghost var q := queue.View();
      DoCheckSkip();
      while pc.ids != []
        invariant Valid() && pc.Skipping? && queue.jobs == old(queue.jobs)
        invariant SkipRounds.MarkAll(queue.View(), pc.ids) == SkipRounds.Round(q)
        decreases |pc.ids|
      {
        DoSkipNext();
      }
      DoSkipNext();
    }

    /** One turn of the loop that starts jobs; false when no job could be picked. */
    method StartOne() returns (more: bool)
      requires Valid() && pc.AtMax?
      modifies `pc, `picked, `starts, `live, `nextG, queue`dirty, queue.jobs
      ensures Valid() && queue.jobs == old(queue.jobs) && (if more then pc.AtMax? else pc.Idle?)
      ensures queue.View() == TurnOf(old(queue.View()), maxSlots)
      ensures more <==> QM.NextRunnable(old(queue.View()), maxSlots, QM.BusySlots(old(queue.View()))).Some?
      ensures Passes.StartAll(old(queue.View()), maxSlots) ==
              if more then Passes.StartAll(queue.View(), maxSlots) else queue.View()
      ensures more ==> SkipRounds.QueuedSet(queue.View()) < SkipRounds.QueuedSet(old(queue.View()))
    {
      ghost var q := queue.View();
      Passes.PassUnfolds(q, maxSlots);
      PickOne();
      if pc.Idle? {
        return false;
      }
      StartAndSpawn();
      return true;
    }

    /** Sets the picked job running and starts its executor. */
    method StartAndSpawn()
      requires Valid() && pc.AtStart?
      modifies `pc, `starts, `live, `nextG, queue`dirty, queue.jobs
      ensures Valid() && pc.AtMax? && queue.jobs == old(queue.jobs)
      ensures queue.View() == QM.SetRunning(old(queue.View()), old(pc.id), 0, "")
    {
      DoStartPicked();
      ghost var v := queue.View();
      DoSpawnPicked();
      assert queue.View() == v;
    }

    /** The queue after one turn by fresh readings. */
    static ghost function TurnOf(q: QM.Queue, max: int): QM.Queue {
      var next := QM.NextRunnable(q, max, QM.BusySlots(q));
      if next.None? then q else QM.SetRunning(q, next.value, 0, "")
    }

    /** The three readings of one turn. */
    method PickOne()
      requires Valid() && pc.AtMax?
      modifies `pc, `picked
      ensures Valid() && View() == old(View()).(pc := pc)
      ensures var q := old(queue.View());
              ghost var next := QM.NextRunnable(q, maxSlots, QM.BusySlots(q));
              if next.None? then pc.Idle? else pc.AtStart? && pc.id == next.value
    {
      DoReadMax();
      DoReadBusy();
      DoPickNext();
    }

    // ------------------------------------------------------------ executors

    /** Executor `g` goes on to its next phase. */
    method Advance(g: nat, phase: Phase)
      requires Valid() && g in live
      modifies `live
      ensures Valid() && View() == old(View()).(live := old(live)[g := Exec(old(live)[g].id, phase)])
    {
      live := live[g := Exec(live[g].id, phase)];
    }

    /** Executor `g` returns, owing the scheduler a poke. */
    method Retire(g: nat)
      requires Valid() && g in live
      modifies `live, `owed
      ensures Valid() && View() == old(View()).(live := old(live) - {g}, owed := old(owed) + 1)
    {
      live, owed := live - {g}, owed + 1;
    }

    method DoExecStart(g: nat, pid: int, out: string)
      requires Valid() && Enabled(View(), ExecStart(g, pid, out))
      modifies `live, queue`dirty, queue.jobs
      ensures Valid() && View() == ExecutorStep(old(View()), ExecStart(g, pid, out))
    {
      queue.SetRunning(live[g].id, pid, out);
      Advance(g, Started);
    }

    method DoExecEnd(g: nat, result: Result)
      requires Valid() && Enabled(View(), ExecEnd(g, result))
      modifies `live
      ensures Valid() && View() == ExecutorStep(old(View()), ExecEnd(g, result))
    {
      Advance(g, if JobFailed(result) then Ended(result) else Final(result));
    }

    method DoExecRetry(g: nat)
      requires Valid() && Enabled(View(), ExecRetry(g))
      modifies `live, `owed, queue`dirty, queue.jobs
      ensures Valid() && View() == ExecutorStep(old(View()), ExecRetry(g))
    {
      var requeued := queue.RequeueForRetry(live[g].id);
      if requeued {
        Retire(g);
      } else {
        Advance(g, Final(live[g].phase.result));
      }
    }

    method DoExecFinish(g: nat)
      requires Valid() && Enabled(View(), ExecFinish(g))
      modifies `live, `owed, queue`dirty, queue`deliveries, queue.jobs
      ensures Valid() && View() == ExecutorStep(old(View()), ExecFinish(g))
    {
      queue.MarkFinished(live[g].id, live[g].phase.result);
      Retire(g);
    }

    method Poke()
      requires Valid() && Enabled(View(), DeliverPoke)
      modifies `trigger, `owed
      ensures Valid() && View() == Step(old(View()), DeliverPoke)
    {
      trigger, owed := true, owed - 1;
    }

    // -------------------------------------------------------------- clients

    method Submit(req: NewJobRequest, path: string) returns (j: Job)
      requires Valid() && queue.nextID !in queue.byID
      modifies `owed, `allowed, queue
      ensures Valid() && View() == RequestStep(old(View()), QM.AddOp(req, path))
    {
      Permit(queue.nextID, req.retries);
      j := queue.Add(req, path);
      Owe();
    }

    /** Notes how often a job may start. */
    ghost method Permit(id: int, retries: int)
      requires Valid()
      modifies `allowed
      ensures Valid() && View() == old(View()).(allowed := old(allowed)[id := QI.MaxRetries(retries) + 1])
    {
      allowed := allowed[id := QI.MaxRetries(retries) + 1];
    }

    /** The handler has a poke to deliver. */
    method Owe()
      requires Valid()
      modifies `owed
      ensures Valid() && View() == old(View()).(owed := old(owed) + 1)
    {
      owed := owed + 1;
    }

    method ChangeMaxSlots(n: int)
      requires Valid()
      modifies `maxSlots, `owed
      ensures Valid() && View() == Step(old(View()), SetMaxSlots(n))
    {
      maxSlots, owed := n, owed + 1;
    }
  }
}
