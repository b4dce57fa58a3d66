/**
  Lost wake-ups, deadlock and coming to rest, each exactly: which jobs the daemon, left alone, ends
  and which wait for ever.
 */
module Liveness {
  import opened Collections
  import opened Protocol
  import opened QueueModel
  import opened QueueInvariant
  import opened QueueEvolution
  import opened SystemModel
  import opened SystemInvariant
  import opened SystemSteps
  import opened Attempts

  ghost predicate NoneRunning(q: Queue) {
    forall id | id in q.recs :: !IsRunning(q, id)
  }

  ghost predicate NoneQueued(q: Queue) {
    forall id | id in q.recs :: !IsQueued(q, id)
  }

  ghost predicate NoneReady(q: Queue) {
    forall id | id in q.recs :: !Ready(q, id)
  }

  ghost predicate AllEnded(q: Queue) {
    forall id | id in q.recs :: IsTerminal(q, id)
  }

  ghost predicate Unsettled(q: Queue, id: int) {
    id in q.recs && !q.recs[id].info.state.Terminal()
  }

  /** A set of jobs, `one` among them, none of which has ended. */
  ghost predicate AllUnsettled(q: Queue, jobs: set<int>, one: int) {
    one in jobs && forall id | id in jobs :: Unsettled(q, id)
  }

  /** Some job among `jobs` waits for none of them. */
  ghost predicate HasSource(q: Queue, jobs: set<int>) {
    exists id | id in jobs && id in q.recs :: forall d | d in q.recs[id].info.dependOn :: d !in jobs
  }

  /** The jobs that have not ended do not wait for each other in a circle. */
  ghost predicate Acyclic(q: Queue) {
    forall jobs: set<int>, one: int | AllUnsettled(q, jobs, one) :: HasSource(q, jobs)
  }

  /** A submission that closes no circle. */
  ghost predicate Disciplined(s: Sys, l: Label) {
    l.Request? && l.op.AddOp? ==> Acyclic(Apply(s.q, l.op))
  }

  /** No wake-up is under way. */
  predicate Quiet(s: Sys) {
    !s.trigger && s.owed == 0
  }

  /** The scheduler sleeps, nothing is about to wake it and no attempt is running that will. */
  ghost predicate Asleep(s: Sys) {
    s.pc.Idle? && Quiet(s) && NoneRunning(s.q)
  }

  /** A job that could start, and nobody to start it. */
  ghost predicate Sleeper(s: Sys, id: int) {
    Asleep(s) && Ready(s.q, id)
  }

  /** Asleep, the scheduler has nothing to start. */
  ghost predicate Alert(s: Sys) {
    forall id | id in s.q.recs :: !Sleeper(s, id)
  }

  /** Of job `id`'s dependencies only `x` has not ended. */
  predicate LastHeldBy(q: Queue, id: int, x: int) {
    && IsQueued(q, id) && id != x && x in q.recs[id].info.dependOn
    && forall d | d in q.recs[id].info.dependOn :: d == x || Settled(q, d)
  }

  /** A client removes, behind the scheduler's back, the queued job that `id` alone waits for. */
  ghost predicate Unheard(s: Sys, l: Label, id: int) {
    Asleep(s) && l.Request? && l.op.RemoveOp? && IsQueued(s.q, l.op.id) && LastHeldBy(s.q, id, l.op.id)
  }

  /** A pass that no wake-up will repeat has not read an outdated busy count. */
  ghost predicate Fresh(s: Sys) {
    Quiet(s) && NoneRunning(s.q) && s.pc.AtPick? ==> s.pc.busy <= 0
  }

  // ------------------------------------------------------- the key lemma

  /** With nothing running, some queued job waits for no other queued job, and so is ready. */
  lemma SomeReady(q: Queue, id: int) returns (ready: int)
    requires RepInv(q) && Acyclic(q) && NoneRunning(q) && IsQueued(q, id)
    ensures Ready(q, ready)
  {
    var jobs := set x | x in q.recs && IsQueued(q, x);
    ready := SourceOf(q, jobs, id);
    SourceIsReady(q, ready, jobs);
  }

  lemma SourceOf(q: Queue, jobs: set<int>, id: int) returns (source: int)
    requires Acyclic(q) && AllUnsettled(q, jobs, id)
    ensures source in jobs && source in q.recs && forall d | d in q.recs[source].info.dependOn :: d !in jobs
  {
    assert HasSource(q, jobs);
    source :| source in jobs && source in q.recs && forall d | d in q.recs[source].info.dependOn :: d !in jobs;
  }

  lemma SourceIsReady(q: Queue, id: int, queued: set<int>)
    requires RepInv(q) && NoneRunning(q) && IsQueued(q, id)
    requires forall x | IsQueued(q, x) :: x in queued
    requires forall d | d in q.recs[id].info.dependOn :: d !in queued
    ensures Ready(q, id)
  {
    forall d | d in q.recs[id].info.dependOn ensures Settled(q, d) {
      if d in q.recs {
        assert RecordOk(q, d) && !IsRunning(q, d);
      }
    }
  }

  /** With no slot busy the first ready job fits, whatever its need and the limit. */
  lemma ReadyIsPicked(q: Queue, id: int, max: int, busy: int)
    requires RepInv(q) && Ready(q, id) && busy <= 0
    ensures NextRunnable(q, max, busy).Some?
  {
    var k := Pos(q.order, id);
    assert id in q.order && k >= 0 && Ready(q, q.order[k]);
  }

  /** With nothing running and something queued, the next job is found whatever the limit. */
  lemma NextExists(q: Queue, id: int, max: int, busy: int)
    requires RepInv(q) && Acyclic(q) && NoneRunning(q) && IsQueued(q, id) && busy <= 0
    ensures NextRunnable(q, max, busy).Some?
  {
    var ready := SomeReady(q, id);
    ReadyIsPicked(q, ready, max, busy);
  }

  // ------------------------------------------------------- keeping clear of circles

  /** What has not ended in `q'` had not ended in `q` and waited for the same jobs. */
  ghost predicate Inherits(q: Queue, q': Queue) {
    forall id | Unsettled(q', id) :: Unsettled(q, id) && q'.recs[id].info.dependOn == q.recs[id].info.dependOn
  }

  /** Circles need unsettled jobs, and a job never changes its dependencies. */
  lemma FewerUnsettled(q: Queue, q': Queue)
    requires Acyclic(q) && Inherits(q, q')
    ensures Acyclic(q')
  {
    forall jobs: set<int>, one: int | AllUnsettled(q', jobs, one) ensures HasSource(q', jobs) {
      assert AllUnsettled(q, jobs, one);
      var id :| id in jobs && id in q.recs && forall d | d in q.recs[id].info.dependOn :: d !in jobs;
      assert Unsettled(q', id);
    }
  }

  lemma NoNewIds(s: Sys, l: Label, id: int)
    requires Enabled(s, l) && !(l.Request? && l.op.AddOp?) && id in Step(s, l).q.recs
    ensures id in s.q.recs
  {
    if l.Request? {
      RequestAddsNoIds(s.q, l.op);
    } else {
      StepEffect(s, l);
    }
  }

  lemma WasUnsettled(s: Daemon, l: Label, id: int)
    requires Enabled(s, l) && !(l.Request? && l.op.AddOp?) && Unsettled(Step(s, l).q, id)
    ensures Unsettled(s.q, id) && Step(s, l).q.recs[id].info.dependOn == s.q.recs[id].info.dependOn
  {
    NoNewIds(s, l, id);
    SameDependencies(s, l, id);
    if IsTerminal(s.q, id) {
      StepAbsorbs(s, l, id);
    }
  }

  lemma StepInherits(s: Daemon, l: Label)
    requires Enabled(s, l) && !(l.Request? && l.op.AddOp?)
    ensures Inherits(s.q, Step(s, l).q)
  {
    forall id | Unsettled(Step(s, l).q, id)
      ensures Unsettled(s.q, id) && Step(s, l).q.recs[id].info.dependOn == s.q.recs[id].info.dependOn
    {
      WasUnsettled(s, l, id);
    }
  }

  lemma StepKeepsAcyclic(s: Daemon, l: Label)
    requires Enabled(s, l) && Acyclic(s.q) && Disciplined(s, l)
    ensures Acyclic(Step(s, l).q)
  {
    var q' := Step(s, l).q;
    if l.Request? && l.op.AddOp? {
      assert q' == Apply(s.q, l.op);
    } else {
      StepInherits(s, l);
      FewerUnsettled(s.q, q');
    }
  }

  /** Every dependency names a job submitted before. */
  ghost predicate DepsEarlier(q: Queue) {
    forall id | id in q.recs :: forall d | d in q.recs[id].info.dependOn :: d < id
  }

  lemma {:induction false} LeastOf(jobs: set<int>, some: int) returns (least: int)
    requires some in jobs
    ensures least in jobs && forall x | x in jobs :: least <= x
    decreases jobs
  {
    least := some;
    var below := set x | x in jobs && x < some;
    if x :| x in below {
      assert some !in below;
      least := LeastOf(below, x);
    }
    forall x | x in jobs ensures least <= x {
      assert x < some ==> x in below;
    }
  }

  /** Dependencies on earlier jobs alone close no circle. */
  lemma EarlierIsAcyclic(q: Queue)
    requires DepsEarlier(q)
    ensures Acyclic(q)
  {
    forall jobs: set<int>, one: int | AllUnsettled(q, jobs, one) ensures HasSource(q, jobs) {
      var least := LeastOf(jobs, one);
      assert Unsettled(q, least);
    }
  }

  /** So clients that depend only on ids they have been given are disciplined. */
  lemma EarlierIsDisciplined(s: Daemon, l: Label)
    requires DepsEarlier(s.q) && l.Request? && l.op.AddOp?
    requires forall d | d in l.op.req.dependOn :: d < s.q.nextID
    ensures Disciplined(s, l) && DepsEarlier(Apply(s.q, l.op))
  {
    EarlierIsAcyclic(Apply(s.q, l.op));
  }

  // ------------------------------------------------------------ which jobs sleep

  /** What dropping a queued job does to the readiness of the others. */
  lemma RemovalReady(q: Queue, x: int, id: int)
    requires IsQueued(q, x)
    ensures Ready(Remove(q, x), id) <==> id != x && (Ready(q, id) || LastHeldBy(q, id, x))
  {
    var q' := Remove(q, x);
    if id in q'.recs {
      assert q'.recs[id] == q.recs[id];
      assert forall d | d in q.recs[id].info.dependOn :: Settled(q', d) == (d == x || Settled(q, d));
    }
  }

  /** Every other request that forgets jobs forgets only ended ones. */
  lemma ForgetsEnded(q: Queue, op: QueueOp, id: int)
    requires RepInv(q) && Forgets(op) && (op.RemoveOp? ==> !IsQueued(q, op.id))
    requires id in q.recs && id !in Apply(q, op).recs
    ensures IsTerminal(q, id)
  {
    assert RecordOk(q, id);
    if op.PruneOp? {
      TerminalsMembers(q, q.order, id);
    }
  }

  lemma SameReadiness(q: Queue, q': Queue, id: int)
    requires Evolves(q, q') && q'.recs.Keys <= q.recs.Keys
    requires forall x | x in q.recs && x !in q'.recs :: IsTerminal(q, x)
    ensures Ready(q', id) <==> Ready(q, id)
  {
    if id in q'.recs {
      assert SameJob(q.recs[id], q'.recs[id]);
      forall d | d in q.recs[id].info.dependOn ensures Settled(q', d) == Settled(q, d) {
        assert d in q'.recs ==> SameJob(q.recs[d], q'.recs[d]);
      }
    }
  }

  lemma RequestReadiness(q: Queue, op: QueueOp, id: int)
    requires RepInv(q) && IsRequest(op) && !op.AddOp? && (op.RemoveOp? ==> !IsQueued(q, op.id))
    ensures Ready(Apply(q, op), id) <==> Ready(q, id)
  {
    var q' := Apply(q, op);
    RequestEvolves(q, op);
    RequestAddsNoIds(q, op);
    forall x | x in q.recs && x !in q'.recs ensures IsTerminal(q, x) {
      assert !Touches(op);
      ForgetsEnded(q, op, x);
    }
    SameReadiness(q, q', id);
  }

  lemma SameRunning(q: Queue, q': Queue)
    requires Evolves(q, q') && q'.recs.Keys <= q.recs.Keys
    ensures NoneRunning(q') <==> NoneRunning(q)
  {
    forall id | id in q.recs ensures IsRunning(q', id) == IsRunning(q, id) {
      assert id in q'.recs ==> SameJob(q.recs[id], q'.recs[id]);
    }
  }

  /** A request other than a submission starts and ends no attempt. */
  lemma RequestRunning(q: Queue, op: QueueOp)
    requires RepInv(q) && IsRequest(op) && !op.AddOp?
    ensures NoneRunning(Apply(q, op)) <==> NoneRunning(q)
  {
    RequestEvolves(q, op);
    RequestAddsNoIds(q, op);
    SameRunning(q, Apply(q, op));
  }

  /** How one step makes or keeps a sleeper: exactly by an unheard removal, or by waking nobody. */
  ghost predicate SleeperStep(s: Sys, l: Label, s': Sys, id: int) {
    Sleeper(s', id) <==> Unheard(s, l, id) || (Sleeper(s, id) && Quiet(s') && IsQueued(s'.q, id))
  }

  lemma RequestSleeper(s: Daemon, l: Label, id: int)
    requires l.Request? && IsRequest(l.op)
    ensures SleeperStep(s, l, RequestStep(s, l.op), id)
  {
    if !l.op.AddOp? {
      RequestRunning(s.q, l.op);
      if l.op.RemoveOp? && IsQueued(s.q, l.op.id) {
        RemovalReady(s.q, l.op.id, id);
      } else {
        RequestReadiness(s.q, l.op, id);
      }
    }
  }

  /** While nothing runs, an executor that owes no poke has no job to change. */
  lemma ExecutorSleeper(s: Daemon, l: Label, id: int)
    requires IsExecutor(l) && Enabled(s, l)
    ensures SleeperStep(s, l, ExecutorStep(s, l), id)
  {
    var s' := ExecutorStep(s, l);
    var own := s.live[l.g].id;
    if own in s.q.recs {
      assert IsRunning(s.q, own);
      assert s'.owed == s.owed ==> IsRunning(s'.q, own);
    } else {
      assert s'.q == s.q;
    }
  }

  lemma SchedulerSleeper(s: Daemon, l: Label, id: int)
    requires IsScheduler(l) && Enabled(s, l) && Fresh(s)
    ensures SleeperStep(s, l, SchedulerStep(s, l), id)
  {
    if l.PickNext? && Sleeper(SchedulerStep(s, l), id) {
      ReadyIsPicked(s.q, id, s.pc.max, s.pc.busy);
    }
  }

  lemma StepSleeper(s: Daemon, l: Label, id: int)
    requires Enabled(s, l) && Fresh(s)
    ensures SleeperStep(s, l, Step(s, l), id)
  {
    if l.Request? {
      RequestSleeper(s, l, id);
    } else if IsExecutor(l) {
      ExecutorSleeper(s, l, id);
    } else if IsScheduler(l) {
      SchedulerSleeper(s, l, id);
    }
  }

  lemma RequestKeepsFresh(s: Daemon, op: QueueOp)
    requires Fresh(s) && IsRequest(op)
    ensures Fresh(RequestStep(s, op))
  {
    if !op.AddOp? {
      RequestRunning(s.q, op);
    }
  }

  /** An executor that changes its job's state owes a poke for it. */
  lemma ExecutorKeepsFresh(s: Daemon, l: Label)
    requires Fresh(s) && IsExecutor(l) && Enabled(s, l)
    ensures Fresh(ExecutorStep(s, l))
  {
    var s' := ExecutorStep(s, l);
    ExecutorOwnJob(s, l);
    if s'.owed == s.owed {
      assert l.g in s'.live;
      assert forall id | id in s.q.recs :: IsRunning(s'.q, id) == IsRunning(s.q, id);
    }
  }

  lemma SchedulerKeepsFresh(s: Daemon, l: Label)
    requires IsScheduler(l) && Enabled(s, l)
    ensures Fresh(SchedulerStep(s, l))
  {
    if l.ReadBusy? {
      RepInvSlots(s.q);
      BusyNonNegative(s.q);
    }
  }

  lemma StepKeepsFresh(s: Daemon, l: Label)
    requires Enabled(s, l) && Fresh(s)
    ensures Fresh(Step(s, l))
  {
    if l.Request? {
      RequestKeepsFresh(s, l.op);
    } else if IsExecutor(l) {
      ExecutorKeepsFresh(s, l);
    } else if IsScheduler(l) {
      SchedulerKeepsFresh(s, l);
    }
  }

  /** The scheduler stops being alert exactly by an unheard removal. */
  lemma StepAlert(s: Daemon, l: Label)
    requires Enabled(s, l) && Fresh(s) && Alert(s)
    ensures Alert(Step(s, l)) <==> forall id :: !Unheard(s, l, id)
  {
    var s' := Step(s, l);
    forall id ensures Sleeper(s', id) <==> Unheard(s, l, id) {
      StepSleeper(s, l, id);
    }
    assert forall id | Sleeper(s', id) :: id in s'.q.recs;
  }

  // -------------------------------------------------------------- over whole runs

  ghost predicate FreshAt(r: DaemonRun, i: nat) {
    i < |r.states| ==> Fresh(r.states[i])
  }

  lemma {:induction false} RunFresh(r: DaemonRun, i: nat)
    ensures FreshAt(r, i)
  {
    if 0 < i < |r.states| {
      RunFresh(r, i - 1);
      RunInv(r, i - 1);
      assert RunStep(r, i - 1);
      StepKeepsFresh(r.states[i - 1], r.labels[i - 1]);
    }
  }

  /** Job `id` was freed unheard at step `j`, and up to state `i` it stays queued and no wake-up is
      under way. */
  ghost predicate FreedUnheard(r: Run, j: nat, i: nat, id: int) {
    && j < i < |r.states| && j < |r.labels| && Unheard(r.states[j], r.labels[j], id)
    && forall k: nat | j < k <= i :: Quiet(r.states[k]) && IsQueued(r.states[k].q, id)
  }

  lemma RunSleeperStep(r: DaemonRun, i: nat, id: int)
    requires i < |r.labels|
    ensures SleeperStep(r.states[i], r.labels[i], r.states[i + 1], id)
  {
    RunInv(r, i);
    RunFresh(r, i);
    assert RunStep(r, i);
    StepSleeper(r.states[i], r.labels[i], id);
  }

  lemma {:induction false} SleepsOn(r: DaemonRun, j: nat, i: nat, id: int)
    requires FreedUnheard(r, j, i, id)
    ensures Sleeper(r.states[i], id)
    decreases i
  {
    RunSleeperStep(r, i - 1, id);
    if j < i - 1 {
      SleepsOn(r, j, i - 1, id);
    }
  }

  lemma {:induction false} SleepsSince(r: DaemonRun, i: nat, id: int) returns (j: nat)
    requires i < |r.states| && Sleeper(r.states[i], id)
    ensures FreedUnheard(r, j, i, id)
    decreases i
  {
    RunSleeperStep(r, i - 1, id);
    j := i - 1;
    if !Unheard(r.states[j], r.labels[j], id) {
      j := SleepsSince(r, i - 1, id);
    }
  }

  /** Lost wake-ups, exactly: a ready job sleeps with nobody to start it iff, the scheduler asleep, a
      client removed the last queued job it waited for, and nothing has woken the scheduler since.
      Removal is the one request that lets a job start and does not poke. */
  lemma LostWakeup(r: DaemonRun, i: nat, id: int)
    requires i < |r.states|
    ensures Sleeper(r.states[i], id) <==> exists j: nat :: FreedUnheard(r, j, i, id)
  {
    if Sleeper(r.states[i], id) {
      var j := SleepsSince(r, i, id);
    }
    if j: nat :| FreedUnheard(r, j, i, id) {
      SleepsOn(r, j, i, id);
    }
  }

  lemma AlertExactly(r: DaemonRun, i: nat)
    requires i < |r.states|
    ensures Alert(r.states[i]) <==> !exists j: nat, id :: FreedUnheard(r, j, i, id)
  {
    forall id ensures Sleeper(r.states[i], id) <==> exists j: nat :: FreedUnheard(r, j, i, id) {
      LostWakeup(r, i, id);
    }
  }

  // ------------------------------------------------------ what an alert sleeper leaves

  /** The job belongs to a set of unfinished jobs that all wait for jobs of the set. */
  ghost predicate Trapped(q: Queue, id: int) {
    exists jobs: set<int> | AllUnsettled(q, jobs, id) :: !HasSource(q, jobs)
  }

  /** Exactly the jobs caught in a circle of waiting jobs, or behind one, have not ended. */
  ghost predicate OnlyTrappedLeft(q: Queue) {
    forall id | id in q.recs :: IsTerminal(q, id) <==> !Trapped(q, id)
  }

  lemma AcyclicTrapsNone(q: Queue)
    ensures Acyclic(q) <==> forall id | id in q.recs :: !Trapped(q, id)
  {
    if forall id | id in q.recs :: !Trapped(q, id) {
      forall jobs: set<int>, one: int | AllUnsettled(q, jobs, one) ensures HasSource(q, jobs) {
        assert Unsettled(q, one) && !Trapped(q, one);
      }
    }
  }

  lemma WaitsForQueued(q: Queue, id: int, queued: set<int>)
    requires RepInv(q) && NoneRunning(q) && IsQueued(q, id) && !Ready(q, id)
    requires forall x | IsQueued(q, x) :: x in queued
    ensures WaitsWithin(q, id, queued)
  {
    if !WaitsWithin(q, id, queued) {
      SourceIsReady(q, id, queued);
    }
  }

  /** The job waits for one of `jobs`. */
  ghost predicate WaitsWithin(q: Queue, id: int, jobs: set<int>)
    requires id in q.recs
  {
    exists d | d in q.recs[id].info.dependOn :: d in jobs
  }

  lemma NoSource(q: Queue, jobs: set<int>)
    requires forall x | x in jobs :: x in q.recs && WaitsWithin(q, x, jobs)
    ensures !HasSource(q, jobs)
  {
  }

  lemma QueuedIsTrapped(q: Queue, id: int)
    requires RepInv(q) && NoneRunning(q) && IsQueued(q, id) && NoneReady(q)
    ensures Trapped(q, id)
  {
    var jobs := set x | x in q.recs && IsQueued(q, x);
    assert AllUnsettled(q, jobs, id);
    forall x | x in jobs ensures WaitsWithin(q, x, jobs) {
      WaitsForQueued(q, x, jobs);
    }
    NoSource(q, jobs);
  }

  lemma ReadyIsFree(q: Queue, id: int)
    requires Ready(q, id)
    ensures !Trapped(q, id)
  {
    forall jobs: set<int> | AllUnsettled(q, jobs, id) ensures HasSource(q, jobs) {
      forall d | d in q.recs[id].info.dependOn ensures d !in jobs {
        assert d in jobs ==> Unsettled(q, d);
      }
    }
  }

  /** Nothing is ready exactly if every unfinished job is caught by a circle. */
  lemma OnlyTrappedExactly(q: Queue)
    requires RepInv(q) && NoneRunning(q)
    ensures OnlyTrappedLeft(q) <==> NoneReady(q)
  {
    if OnlyTrappedLeft(q) {
      forall id | id in q.recs ensures !Ready(q, id) {
        if Ready(q, id) {
          ReadyIsFree(q, id);
        }
      }
    }
    if NoneReady(q) {
      forall id | id in q.recs ensures IsTerminal(q, id) <==> !Trapped(q, id) {
        assert RecordOk(q, id);
        if IsQueued(q, id) {
          QueuedIsTrapped(q, id);
        }
      }
    }
  }

  /** All have ended iff only trapped jobs are left and there is no circle to trap any. */
  lemma AllEndedExactly(q: Queue)
    ensures AllEnded(q) <==> OnlyTrappedLeft(q) && Acyclic(q)
  {
    AcyclicTrapsNone(q);
    forall id, jobs: set<int> | AllUnsettled(q, jobs, id) ensures Unsettled(q, id) {}
  }

  lemma NoneQueuedExactly(q: Queue)
    requires RepInv(q) && NoneRunning(q)
    ensures NoneQueued(q) <==> AllEnded(q)
  {
    forall id | id in q.recs ensures IsTerminal(q, id) <==> !IsQueued(q, id) {
      assert RecordOk(q, id);
    }
  }

  /** No lost wake-up: unless a removal has gone unheard, a scheduler that sleeps with nothing running
      has nothing to start, and what is still queued is caught by a circle. */
  lemma NoLostWakeup(r: DaemonRun, i: nat)
    requires i < |r.states| && Asleep(r.states[i])
    requires forall j: nat, id | j < i :: !FreedUnheard(r, j, i, id)
    ensures NoneReady(r.states[i].q)
    ensures OnlyTrappedLeft(r.states[i].q) && (NoneQueued(r.states[i].q) <==> Acyclic(r.states[i].q))
  {
    var q := r.states[i].q;
    forall id | id in q.recs ensures !Ready(q, id) {
      LostWakeup(r, i, id);
    }
    RunInv(r, i);
    OnlyTrappedExactly(q);
    AllEndedExactly(q);
    NoneQueuedExactly(q);
  }

  // ------------------------------------------------------------- disciplined clients

  ghost predicate DisciplinedAt(r: Run, i: nat)
    requires i < |r.labels| && i < |r.states|
  {
    Disciplined(r.states[i], r.labels[i])
  }

  /** A run in which no submission closes a circle. */
  type DisciplinedRun = r: DaemonRun |
    Acyclic(r.states[0].q) && forall i: nat | i < |r.labels| :: DisciplinedAt(r, i)
    ghost witness Run([FRESH], [])

  ghost predicate AcyclicAt(r: DisciplinedRun, i: nat) {
    i < |r.states| ==> Acyclic(r.states[i].q)
  }

  lemma RunAcyclicStep(r: DisciplinedRun, i: nat)
    requires i < |r.labels| && Acyclic(r.states[i].q)
    ensures Acyclic(r.states[i + 1].q)
  {
    RunInv(r, i);
    assert RunStep(r, i) && DisciplinedAt(r, i);
    StepKeepsAcyclic(r.states[i], r.labels[i]);
  }

  lemma RunStartsAcyclic(r: DisciplinedRun)
    ensures AcyclicAt(r, 0)
  {
  }

  lemma {:induction false} RunAcyclic(r: DisciplinedRun, i: nat)
    ensures AcyclicAt(r, i)
  {
    if i == 0 {
      RunStartsAcyclic(r);
    } else {
      RunAcyclic(r, i - 1);
      if i < |r.states| {
        RunAcyclicStep(r, i - 1);
      }
    }
  }

  /** Without circles an alert scheduler sleeps only when nothing is queued, so that there is nothing
      to remove behind its back. */
  lemma NothingToRemove(s: Daemon, l: Label, id: int)
    requires Acyclic(s.q) && Alert(s)
    ensures !Unheard(s, l, id)
  {
    if Unheard(s, l, id) {
      var ready := SomeReady(s.q, id);
      assert Sleeper(s, ready);
    }
  }

  ghost predicate AlertAt(r: DisciplinedRun, i: nat) {
    i < |r.states| ==> Alert(r.states[i])
  }

  /** Disciplined clients lose no wake-up, whatever they remove. */
  lemma {:induction false} DisciplinedIsAlert(r: DisciplinedRun, i: nat)
    ensures AlertAt(r, i)
  {
    if 0 < i < |r.states| {
      DisciplinedIsAlert(r, i - 1);
      DisciplinedAlertStep(r, i - 1);
    }
  }

  lemma DisciplinedAlertStep(r: DisciplinedRun, i: nat)
    requires i < |r.labels| && AlertAt(r, i)
    ensures AlertAt(r, i + 1)
  {
    RunAcyclic(r, i);
    RunInv(r, i);
    RunFresh(r, i);
    assert RunStep(r, i);
    forall id ensures !Unheard(r.states[i], r.labels[i], id) {
      NothingToRemove(r.states[i], r.labels[i], id);
    }
    StepAlert(r.states[i], r.labels[i]);
  }

  /** With disciplined clients a scheduler asleep with nothing running has nothing queued. */
  lemma DisciplinedSleep(r: DisciplinedRun, i: nat)
    requires i < |r.states| && Asleep(r.states[i])
    ensures NoneQueued(r.states[i].q)
  {
    RunAcyclic(r, i);
    DisciplinedIsAlert(r, i);
    RunInv(r, i);
    forall id | id in r.states[i].q.recs ensures !IsQueued(r.states[i].q, id) {
      if IsQueued(r.states[i].q, id) {
        var ready := SomeReady(r.states[i].q, id);
        assert Sleeper(r.states[i], ready);
      }
    }
  }

  // ------------------------------------------------------------ no deadlock

  /** The scheduler sleeps and no other goroutine is under way. */
  predicate Resting(s: Sys) {
    s.pc.Idle? && Quiet(s) && s.live == map[]
  }

  /** Nothing left to do. */
  ghost predicate Calm(s: Sys) {
    Resting(s) && AllEnded(s.q)
  }

  /** The daemon's own steps, as opposed to its clients'. */
  predicate Internal(l: Label) {
    IsScheduler(l) || IsExecutor(l) || l.DeliverPoke?
  }

  lemma SchedulerCanStep(s: Sys) returns (l: Label)
    requires !s.pc.Idle? || s.trigger
    ensures IsScheduler(l) && Enabled(s, l)
  {
    match s.pc {
      case Idle => l := TakeTrigger;
      case Check => l := CheckSkip;
      case Skipping(_) => l := SkipNext;
      case AtMax => l := ReadMax;
      case AtBusy(_) => l := ReadBusy;
      case AtPick(_, _) => l := PickNext;
      case AtStart(_, _, _) => l := StartPicked;
      case AtSpawn(_) => l := SpawnPicked;
    }
  }

  lemma ExecutorCanStep(s: Sys, g: nat) returns (l: Label)
    requires g in s.live
    ensures IsExecutor(l) && Enabled(s, l)
  {
    match s.live[g].phase {
      case Spawned => l := ExecStart(g, 0, "");
      case Started => l := ExecEnd(g, NO_RESULT);
      case Ended(_) => l := ExecRetry(g);
      case Final(_) => l := ExecFinish(g);
    }
  }

  /** The daemon can take a step of its own unless it rests. */
  lemma OwnStep(s: Sys) returns (l: Label)
    requires !Resting(s)
    ensures Internal(l) && Enabled(s, l)
  {
    if !s.pc.Idle? || s.trigger {
      l := SchedulerCanStep(s);
    } else if s.owed > 0 {
      l := DeliverPoke;
    } else {
      var g :| g in s.live;
      l := ExecutorCanStep(s, g);
    }
  }

  lemma RestingExactly(s: Sys)
    ensures Resting(s) <==> forall l: Label | Internal(l) :: !Enabled(s, l)
  {
    if !Resting(s) {
      var l := OwnStep(s);
    }
  }

  /** At rest, what has not ended is caught by a circle, exactly if no wake-up was lost. */
  lemma RestExactly(s: Daemon)
    requires Resting(s)
    ensures OnlyTrappedLeft(s.q) <==> Alert(s)
    ensures Calm(s) <==> Acyclic(s.q) && Alert(s)
  {
    assert Asleep(s);
    OnlyTrappedExactly(s.q);
    assert OnlyTrappedLeft(s.q) <==> Alert(s);
    AllEndedExactly(s.q);
  }

  /** Deadlock, exactly: in a reachable state the daemon can take no step of its own although a job has
      not ended iff it rests and either some jobs wait for each other in a circle, or a removal went
      unheard and left a ready job to nobody. */
  lemma Progress(r: DaemonRun, i: nat)
    requires i < |r.states|
    ensures var s := r.states[i];
            (forall l: Label | Internal(l) :: !Enabled(s, l)) && !Calm(s)
            <==> Resting(s) && (!Acyclic(s.q) || exists j: nat, id :: FreedUnheard(r, j, i, id))
  {
    var s := r.states[i];
    RunInv(r, i);
    RestingExactly(s);
    AlertExactly(r, i);
    if Resting(s) {
      RestExactly(s);
    }
  }

  // --------------------------------------------------------------- draining

  function RetriesLeft(r: Record): int {
    MaxRetries(r.info.retries) - r.info.attempt
  }

  /** Queued 2(k+1), running 2k+1, ended 0, with k the retries left. */
  function Rank(r: Record): int {
    match r.info.state
    case Queued => 2 * (RetriesLeft(r) + 1)
    case Running => 2 * RetriesLeft(r) + 1
    case _ => 0
  }

  function Burden(e: Exec): int {
    match e.phase
    case Spawned => 4
    case Started => 3
    case Ended(_) => 2
    case Final(_) => 1
  }

  /** Work left on jobs, plus one while the executor just decided on does not exist yet. */
  ghost function WorkLeft(s: Sys): int {
    2 * MapSum(s.q.recs, Rank) +
    (if s.pc.AtSpawn? || (s.pc.AtStart? && s.pc.id !in s.q.recs) then 1 else 0)
  }

  ghost function ExecLeft(s: Sys): int {
    MapSum(s.live, Burden)
  }

  function PcRank(pc: PC): nat {
    match pc
    case Idle => 0
    case AtSpawn(_) => 1
    case AtStart(_, _, _) => 2
    case AtPick(_, _) => 3
    case AtBusy(_) => 4
    case AtMax => 5
    case Skipping(ids) => 6 + |ids|
    case Check => 0
  }

  function CheckRank(pc: PC): nat {
    if pc.Check? then 1 else 0
  }

  ghost predicate Less(s': Sys, s: Sys) {
    || WorkLeft(s') < WorkLeft(s)
    || (WorkLeft(s') == WorkLeft(s) &&
        (ExecLeft(s') < ExecLeft(s)
         || (ExecLeft(s') == ExecLeft(s) && LessIdle(s', s))))
  }

  predicate LessIdle(s': Sys, s: Sys) {
    || s'.owed < s.owed
    || (s'.owed == s.owed &&
        ((s.trigger && !s'.trigger)
         || (s'.trigger == s.trigger &&
             (CheckRank(s'.pc) < CheckRank(s.pc)
              || (CheckRank(s'.pc) == CheckRank(s.pc) && PcRank(s'.pc) < PcRank(s.pc))))))
  }

  lemma RanksNonNegative(s: Daemon)
    ensures WorkLeft(s) >= 0 && ExecLeft(s) >= 0
  {
    forall id | id in s.q.recs ensures Rank(s.q.recs[id]) >= 0 {
      assert RecordOk(s.q, id);
    }
    MapSumNonNegative(s.q.recs, Rank);
    MapSumNonNegative(s.live, Burden);
  }

  lemma StartLowers(s: Daemon, l: Label)
    requires Enabled(s, l) && l.StartPicked?
    ensures Less(SchedulerStep(s, l), s)
  {
    if s.pc.id in s.q.recs {
      MapSumUpdate(s.q.recs, s.pc.id, SchedulerStep(s, l).q.recs[s.pc.id], Rank);
    }
  }

  lemma SkipLowers(s: Daemon, l: Label)
    requires Enabled(s, l) && l.SkipNext?
    ensures Less(SchedulerStep(s, l), s)
  {
    if s.pc.ids != [] && s.pc.ids[0] in s.q.recs {
      var id := s.pc.ids[0];
      assert id in s.pc.ids && RecordOk(s.q, id);
      MapSumUpdate(s.q.recs, id, SchedulerStep(s, l).q.recs[id], Rank);
    }
  }

  lemma ReadingLowers(s: Daemon, l: Label)
    requires Enabled(s, l) && IsScheduler(l) && !l.SkipNext? && !l.StartPicked?
    ensures Less(SchedulerStep(s, l), s)
  {
    if l.PickNext? {
      var next := NextRunnable(s.q, s.pc.max, s.pc.busy);
      assert next.Some? ==> next.value in s.q.recs;
    }
  }

  lemma ExecutorBurden(s: Daemon, l: Label)
    requires IsExecutor(l) && Enabled(s, l)
    ensures ExecLeft(ExecutorStep(s, l)) < ExecLeft(s)
  {
    var s' := ExecutorStep(s, l);
    if l.g in s'.live {
      MapSumUpdate(s.live, l.g, s'.live[l.g], Burden);
    } else {
      MapSumRemove(s.live, l.g, Burden);
    }
  }

  lemma ExecutorWork(s: Daemon, l: Label)
    requires IsExecutor(l) && Enabled(s, l)
    ensures WorkLeft(ExecutorStep(s, l)) <= WorkLeft(s)
  {
    ExecutorOwnJob(s, l);
    OwnJobWork(s, ExecutorStep(s, l), l.g);
  }

  lemma OwnJobWork(s: Daemon, s': Sys, g: nat)
    requires g in s.live && OwnJob(s, s', g)
    ensures WorkLeft(s') <= WorkLeft(s)
  {
    var id := s.live[g].id;
    if id in s.q.recs {
      assert RecordOk(s.q, id);
      MapSumUpdate(s.q.recs, id, s'.q.recs[id], Rank);
    }
  }

  /** Every step of the daemon's own strictly lowers the measure. */
  lemma InternalLowers(s: Daemon, l: Label)
    requires Internal(l) && Enabled(s, l)
    ensures Less(Step(s, l), s)
  {
    if l.StartPicked? {
      StartLowers(s, l);
    } else if l.SkipNext? {
      SkipLowers(s, l);
    } else if IsScheduler(l) {
      ReadingLowers(s, l);
    } else if IsExecutor(l) {
      ExecutorBurden(s, l);
      ExecutorWork(s, l);
    }
  }

  ghost predicate Moves(f: nat -> Sys, ls: nat -> Label, i: nat) {
    if Resting(f(i)) then f(i + 1) == f(i)
    else Internal(ls(i)) && Enabled(f(i), ls(i)) && f(i + 1) == Step(f(i), ls(i))
  }

  /** An endless run without client requests that halts only when no step is possible. */
  ghost predicate Unattended(f: nat -> Sys, ls: nat -> Label) {
    forall i: nat :: Moves(f, ls, i)
  }

  /** What a step of the daemon's own keeps. */
  ghost predicate Keeps(s: Sys, s': Sys) {
    && Inv(s') && Fresh(s')
    && (Alert(s) ==> Alert(s'))
    && (Acyclic(s.q) ==> Acyclic(s'.q))
  }

  lemma InternalKeeps(s: Daemon, l: Label)
    requires Fresh(s) && Internal(l) && Enabled(s, l)
    ensures Keeps(s, Step(s, l))
  {
    StepInv(s, l);
    StepKeepsFresh(s, l);
    if Alert(s) {
      StepAlert(s, l);
    }
    if Acyclic(s.q) {
      StepKeepsAcyclic(s, l);
    }
  }

  lemma UnattendedStep(f: nat -> Sys, ls: nat -> Label, i: nat)
    requires Unattended(f, ls) && Inv(f(i)) && Fresh(f(i)) && !Resting(f(i))
    ensures Keeps(f(i), f(i + 1)) && Less(f(i + 1), f(i))
  {
    assert Moves(f, ls, i);
    InternalKeeps(f(i), ls(i));
    InternalLowers(f(i), ls(i));
  }

  /** A state the daemon can be in. */
  ghost predicate Sound(s: Sys) {
    Inv(s) && Fresh(s)
  }

  lemma UnattendedLowers(f: nat -> Sys, ls: nat -> Label, i: nat)
    requires Unattended(f, ls) && Sound(f(i)) && !Resting(f(i))
    ensures Sound(f(i + 1)) && Less(f(i + 1), f(i)) && WorkLeft(f(i)) >= 0 && ExecLeft(f(i)) >= 0
  {
    UnattendedStep(f, ls, i);
    RanksNonNegative(f(i));
  }

  lemma {:induction false} RestsFrom(f: nat -> Sys, ls: nat -> Label, i: nat) returns (n: nat)
    requires Unattended(f, ls) && Sound(f(i))
    ensures i <= n && Resting(f(n))
    decreases WorkLeft(f(i)), ExecLeft(f(i)), f(i).owed, f(i).trigger, CheckRank(f(i).pc), PcRank(f(i).pc)
  {
    if Resting(f(i)) {
      n := i;
    } else {
      UnattendedLowers(f, ls, i);
      n := RestsFrom(f, ls, i + 1);
    }
  }

  lemma KeepsNext(f: nat -> Sys, ls: nat -> Label, i: nat)
    requires Unattended(f, ls) && Inv(f(i)) && Fresh(f(i))
    ensures Keeps(f(i), f(i + 1))
  {
    if Resting(f(i)) {
      assert Moves(f, ls, i);
    } else {
      UnattendedStep(f, ls, i);
    }
  }

  ghost predicate KeptAt(f: nat -> Sys, n: nat) {
    Keeps(f(0), f(n))
  }

  lemma KeptNext(f: nat -> Sys, ls: nat -> Label, n: nat)
    requires Unattended(f, ls) && KeptAt(f, n)
    ensures KeptAt(f, n + 1)
  {
    KeepsNext(f, ls, n);
  }

  lemma {:induction false} KeepsUntil(f: nat -> Sys, ls: nat -> Label, n: nat)
    requires Unattended(f, ls) && KeptAt(f, 0)
    ensures KeptAt(f, n)
  {
    if n > 0 {
      KeepsUntil(f, ls, n - 1);
      KeptNext(f, ls, n - 1);
    }
  }

  /** At rest, with every job ended except those caught by a circle; so with every job ended exactly
      if no circle remains. */
  ghost predicate RestsWell(s: Sys) {
    Resting(s) && OnlyTrappedLeft(s.q) && (Calm(s) <==> Acyclic(s.q))
  }

  /** Coming to rest: from any state the daemon can reach, left alone and whatever the interleaving, it
      comes to rest, and if no wake-up had been lost, every job has ended that no circle holds back. */
  lemma ComesToRest(r: DaemonRun, f: nat -> Sys, ls: nat -> Label)
    requires f(0) == Last(r) && Unattended(f, ls)
    ensures exists n: nat :: Resting(f(n)) && (Alert(Last(r)) ==> RestsWell(f(n)))
  {
    var n := RestsFromLast(r, f, ls);
    RestExactly(f(n));
  }

  lemma RestsFromLast(r: DaemonRun, f: nat -> Sys, ls: nat -> Label) returns (n: nat)
    requires f(0) == Last(r) && Unattended(f, ls)
    ensures Resting(f(n)) && Keeps(f(0), f(n))
  {
    RunInv(r, |r.states| - 1);
    RunFresh(r, |r.states| - 1);
    n := RestsFrom(f, ls, 0);
    KeepsUntil(f, ls, n);
  }

  /** Draining: if no circle is there to begin with and no wake-up was lost, every job ends. */
  lemma Drains(r: DaemonRun, f: nat -> Sys, ls: nat -> Label)
    requires f(0) == Last(r) && Unattended(f, ls)
    requires Acyclic(Last(r).q) && Alert(Last(r))
    ensures exists n: nat :: Calm(f(n))
  {
    var n := RestsFromLast(r, f, ls);
    RestExactly(f(n));
  }

  /** In particular, whatever disciplined clients have done. */
  lemma DisciplinedDrains(r: DisciplinedRun, f: nat -> Sys, ls: nat -> Label)
    requires f(0) == Last(r) && Unattended(f, ls)
    ensures exists n: nat :: Calm(f(n))
  {
    RunAcyclic(r, |r.states| - 1);
    DisciplinedIsAlert(r, |r.states| - 1);
    Drains(r, f, ls);
  }
}
