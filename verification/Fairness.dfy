/**
  No starvation: a ready job leaves the queue even if submissions never stop, provided that nobody
  reorders the list and that scheduler, pokes and attempts each get on eventually.
 */
module Fairness {
  import opened Collections
  import opened QueueModel
  import opened QueueInvariant
  import opened QueueEvolution
  import opened SystemModel
  import opened SystemInvariant
  import opened SystemSteps
  import opened Overtaking
  import opened Liveness

  type History = nat -> Sys
  type Labels = nat -> Label

  ghost predicate StepsAt(f: History, ls: Labels, i: nat) {
    && Enabled(f(i), ls(i)) && f(i + 1) == Step(f(i), ls(i))
    && !Reorders(ls(i))
  }

  /** An endless history, clients included, from a state the daemon can be in. */
  ghost predicate Endless(f: History, ls: Labels) {
    Inv(f(0)) && Fresh(f(0)) && forall i: nat :: StepsAt(f, ls, i)
  }

  /** The scheduler goroutine can take a step. */
  predicate SchedulerCan(s: Sys) {
    !s.pc.Idle? || s.trigger
  }

  ghost predicate SchedulerServed(f: History, ls: Labels, i: nat) {
    exists j: nat | i <= j :: IsScheduler(ls(j)) || !SchedulerCan(f(j))
  }

  ghost predicate PokesServed(f: History, ls: Labels, i: nat) {
    exists j: nat | i <= j :: ls(j).DeliverPoke? || f(j).owed == 0
  }

  ghost predicate AttemptEnds(f: History, i: nat, g: nat) {
    exists j: nat | i <= j :: g !in f(j).live
  }

  /** The scheduler does not hesitate for ever, nor does the deliverer of a poke, and every attempt
      ends and is reported. */
  ghost predicate Fair(f: History, ls: Labels) {
    && (forall i: nat :: SchedulerServed(f, ls, i))
    && (forall i: nat :: PokesServed(f, ls, i))
    && (forall i: nat, g | g in f(i).live :: AttemptEnds(f, i, g))
  }

  // --------------------------------------------------------- what holds throughout

  lemma {:induction false} AlwaysGood(f: History, ls: Labels, i: nat)
    requires Endless(f, ls)
    ensures Inv(f(i)) && Fresh(f(i))
  {
    if i > 0 {
      AlwaysGood(f, ls, i - 1);
      assert StepsAt(f, ls, i - 1);
      StepInv(f(i - 1), ls(i - 1));
      StepKeepsFresh(f(i - 1), ls(i - 1));
    }
  }

  /** At step `i` the job waits, ready, with all its dependencies submitted. */
  ghost predicate WaitsAt(f: History, id: int, i: nat) {
    Ready(f(i).q, id) && id in f(i).q.recs && DepsKnown(f(i).q, id)
  }

  ghost predicate QueuedFrom(f: History, id: int, i: nat) {
    forall j: nat | i <= j :: IsQueued(f(j).q, id)
  }

  lemma WaitsOn(f: History, ls: Labels, id: int, i: nat)
    requires Endless(f, ls) && QueuedFrom(f, id, i) && WaitsAt(f, id, i)
    ensures WaitsAt(f, id, i + 1) && QueuedFrom(f, id, i + 1)
    ensures Budget(f(i + 1), id) + (if ls(i).StartPicked? then 1 else 0) <= Budget(f(i), id)
  {
    AlwaysGood(f, ls, i);
    assert StepsAt(f, ls, i) && IsQueued(f(i + 1).q, id);
    StaysReady(f(i), ls(i), id);
    KeepsDepsKnown(f(i), ls(i), id);
    StepBudget(f(i), ls(i), id);
  }

  lemma {:induction false} WaitsUntil(f: History, ls: Labels, id: int, i: nat, j: nat)
    requires Endless(f, ls) && QueuedFrom(f, id, i) && WaitsAt(f, id, i) && i <= j
    ensures WaitsAt(f, id, j) && QueuedFrom(f, id, j) && Budget(f(j), id) <= Budget(f(i), id)
    decreases j - i
  {
    if i < j {
      WaitsUntil(f, ls, id, i, j - 1);
      WaitsOn(f, ls, id, j - 1);
    }
  }

  lemma StaysOffSleep(f: History, ls: Labels, id: int, i: nat)
    requires Endless(f, ls) && WaitsAt(f, id, i) && WaitsAt(f, id, i + 1) && !Asleep(f(i))
    ensures !Asleep(f(i + 1))
  {
    AlwaysGood(f, ls, i);
    assert StepsAt(f, ls, i);
    StepSleeper(f(i), ls(i), id);
  }

  /** Once the scheduler does not sleep on the job, it never will. */
  lemma {:induction false} NeverSleptOn(f: History, ls: Labels, id: int, i: nat, j: nat)
    requires Endless(f, ls) && QueuedFrom(f, id, i) && WaitsAt(f, id, i) && !Asleep(f(i)) && i <= j
    ensures !Asleep(f(j))
    decreases j - i
  {
    if i < j {
      NeverSleptOn(f, ls, id, i, j - 1);
      WaitsUntil(f, ls, id, i, j - 1);
      WaitsUntil(f, ls, id, i, j);
      StaysOffSleep(f, ls, id, j - 1);
    }
  }

  // -------------------------------------------------------------- starts run out

  ghost predicate NoStartsFrom(ls: Labels, n: nat) {
    forall j: nat | n <= j :: !ls(j).StartPicked?
  }

  /** While the job waits, other jobs start only so often. */
  lemma {:induction false} StartsRunOut(f: History, ls: Labels, id: int, i: nat) returns (n: nat)
    requires Endless(f, ls) && QueuedFrom(f, id, i) && WaitsAt(f, id, i)
    ensures i <= n && NoStartsFrom(ls, n)
    decreases Budget(f(i), id)
  {
    n := i;
    if j: nat :| i <= j && ls(j).StartPicked? {
      WaitsUntil(f, ls, id, i, j);
      WaitsOn(f, ls, id, j);
      AlwaysGood(f, ls, j + 1);
      BudgetNonNegative(f(j + 1), id);
      n := StartsRunOut(f, ls, id, j + 1);
    }
  }

  // ----------------------------------------------------------- the scheduler's turn

  lemma OthersLeaveScheduler(s: Sys, l: Label)
    requires Enabled(s, l) && !IsScheduler(l)
    ensures Step(s, l).pc == s.pc && (s.trigger ==> Step(s, l).trigger)
  {
  }

  lemma {:induction false} TurnBy(f: History, ls: Labels, i: nat, bound: nat) returns (j: nat)
    requires Endless(f, ls) && SchedulerCan(f(i)) && i <= bound
    requires IsScheduler(ls(bound)) || !SchedulerCan(f(bound))
    ensures i <= j && f(j).pc == f(i).pc && IsScheduler(ls(j))
    decreases bound - i
  {
    if IsScheduler(ls(i)) {
      j := i;
    } else {
      assert StepsAt(f, ls, i);
      OthersLeaveScheduler(f(i), ls(i));
      j := TurnBy(f, ls, i + 1, bound);
    }
  }

  /** The next step of a scheduler that can take one. */
  lemma NextTurn(f: History, ls: Labels, i: nat) returns (j: nat)
    requires Endless(f, ls) && Fair(f, ls) && SchedulerCan(f(i))
    ensures i <= j && f(j).pc == f(i).pc && IsScheduler(ls(j))
  {
    assert SchedulerServed(f, ls, i);
    var bound: nat :| i <= bound && (IsScheduler(ls(bound)) || !SchedulerCan(f(bound)));
    j := TurnBy(f, ls, i, bound);
  }

  // ------------------------------------------------------- attempts run out as well

  lemma {:induction false} NeverSpawning(f: History, ls: Labels, n: nat, j: nat)
    requires Endless(f, ls) && NoStartsFrom(ls, n) && !f(n).pc.AtSpawn? && n <= j
    ensures !f(j).pc.AtSpawn?
    decreases j - n
  {
    if n < j {
      NeverSpawning(f, ls, n, j - 1);
      assert StepsAt(f, ls, j - 1);
      OnlyStartsSpawn(f(j - 1), ls(j - 1));
    }
  }

  lemma OnlyStartsSpawn(s: Sys, l: Label)
    requires Enabled(s, l) && !l.StartPicked? && !s.pc.AtSpawn?
    ensures !Step(s, l).pc.AtSpawn?
  {
  }

  lemma SpawningEnds(f: History, ls: Labels, n: nat) returns (m: nat)
    requires Endless(f, ls) && Fair(f, ls) && NoStartsFrom(ls, n)
    ensures n <= m && !f(m).pc.AtSpawn?
  {
    m := n;
    if f(n).pc.AtSpawn? {
      var j := NextTurn(f, ls, n);
      assert StepsAt(f, ls, j);
      m := j + 1;
    }
  }

  lemma LiveShrinks(s: Sys, l: Label)
    requires Enabled(s, l) && !l.SpawnPicked?
    ensures Step(s, l).live.Keys <= s.live.Keys
  {
  }

  lemma {:induction false} LiveShrinksTo(f: History, ls: Labels, n: nat, j: nat)
    requires Endless(f, ls) && NoStartsFrom(ls, n) && !f(n).pc.AtSpawn? && n <= j
    ensures f(j).live.Keys <= f(n).live.Keys
    decreases j - n
  {
    if n < j {
      LiveShrinksTo(f, ls, n, j - 1);
      NeverSpawning(f, ls, n, j - 1);
      assert StepsAt(f, ls, j - 1);
      LiveShrinks(f(j - 1), ls(j - 1));
    }
  }

  lemma {:induction false} AttemptsRunOut(f: History, ls: Labels, n: nat) returns (m: nat)
    requires Endless(f, ls) && Fair(f, ls) && NoStartsFrom(ls, n) && !f(n).pc.AtSpawn?
    ensures n <= m && !f(m).pc.AtSpawn? && f(m).live == map[]
    decreases f(n).live.Keys
  {
    m := n;
    if g :| g in f(n).live {
      assert AttemptEnds(f, n, g);
      var j: nat :| n <= j && g !in f(j).live;
      LiveShrinksTo(f, ls, n, j);
      NeverSpawning(f, ls, n, j);
      m := AttemptsRunOut(f, ls, j);
    }
  }

  // ----------------------------------------------------------------- the last pass

  /** The job waits, and nothing runs or ever starts again. */
  ghost predicate Late(f: History, ls: Labels, id: int, n: nat) {
    && Endless(f, ls) && Fair(f, ls) && NoStartsFrom(ls, n)
    && QueuedFrom(f, id, n) && WaitsAt(f, id, n)
    && !f(n).pc.AtSpawn? && f(n).live == map[] && !Asleep(f(n))
  }

  lemma LateOn(f: History, ls: Labels, id: int, n: nat, j: nat)
    requires Late(f, ls, id, n) && n <= j
    ensures Late(f, ls, id, j) && NoneRunning(f(j).q)
  {
    WaitsUntil(f, ls, id, n, j);
    NeverSpawning(f, ls, n, j);
    LiveShrinksTo(f, ls, n, j);
    NeverSleptOn(f, ls, id, n, j);
    AlwaysGood(f, ls, j);
    assert f(j).live == map[];
  }

  /** The scheduler's next turn, late as it is. */
  lemma LateTurn(f: History, ls: Labels, id: int, n: nat) returns (j: nat)
    requires Late(f, ls, id, n) && SchedulerCan(f(n))
    ensures n <= j && f(j).pc == f(n).pc && IsScheduler(ls(j)) && StepsAt(f, ls, j)
    ensures Inv(f(j)) && NoneRunning(f(j).q) && Ready(f(j).q, id)
    ensures Late(f, ls, id, j + 1)
  {
    j := NextTurn(f, ls, n);
    LateOn(f, ls, id, n, j);
    LateOn(f, ls, id, n, j + 1);
    AlwaysGood(f, ls, j);
  }

  lemma StartsNext(f: History, ls: Labels, j: nat)
    requires Endless(f, ls) && f(j).pc.AtStart? && IsScheduler(ls(j))
    ensures ls(j).StartPicked?
  {
    assert StepsAt(f, ls, j);
  }

  /** A decision to start would be carried out. */
  lemma NothingPicked(f: History, ls: Labels, id: int, n: nat)
    requires Late(f, ls, id, n)
    ensures !f(n).pc.AtStart?
  {
    if f(n).pc.AtStart? {
      var j := NextTurn(f, ls, n);
      StartsNext(f, ls, j);
    }
  }

  lemma PickTurn(s: Daemon, l: Label, id: int)
    requires Enabled(s, l) && IsScheduler(l) && s.pc.AtPick? && s.pc.busy <= 0 && Ready(s.q, id)
    ensures SchedulerStep(s, l).pc.AtStart?
  {
    ReadyIsPicked(s.q, id, s.pc.max, s.pc.busy);
  }

  /** So the scheduler cannot pick by a busy count of zero. */
  lemma NoFreshPick(f: History, ls: Labels, id: int, n: nat)
    requires Late(f, ls, id, n)
    ensures !(f(n).pc.AtPick? && f(n).pc.busy <= 0)
  {
    if f(n).pc.AtPick? && f(n).pc.busy <= 0 {
      var j := LateTurn(f, ls, id, n);
      PickTurn(f(j), ls(j), id);
      NothingPicked(f, ls, id, j + 1);
    }
  }

  predicate Reading(pc: PC) {
    pc.Check? || pc.Skipping? || pc.AtMax? || pc.AtBusy?
  }

  lemma ReadingTurn(s: Daemon, l: Label)
    requires Enabled(s, l) && IsScheduler(l) && Reading(s.pc) && NoneRunning(s.q)
    ensures var pc := SchedulerStep(s, l).pc;
            if s.pc.AtBusy? then pc.AtPick? && pc.busy <= 0
            else Reading(pc) && (CheckRank(pc) < CheckRank(s.pc)
                                 || (CheckRank(pc) == CheckRank(s.pc) && PcRank(pc) < PcRank(s.pc)))
  {
    RepInvSlots(s.q);
    BusyNonNegative(s.q);
  }

  /** Nor can it be on its way to such a pick. */
  lemma {:induction false} NotReading(f: History, ls: Labels, id: int, n: nat)
    requires Late(f, ls, id, n)
    ensures !Reading(f(n).pc)
    decreases CheckRank(f(n).pc), PcRank(f(n).pc)
  {
    if Reading(f(n).pc) {
      var j := LateTurn(f, ls, id, n);
      ReadingTurn(f(j), ls(j));
      if f(j).pc.AtBusy? {
        NoFreshPick(f, ls, id, j + 1);
      } else {
        NotReading(f, ls, id, j + 1);
      }
    }
  }

  /** Asleep with the trigger set it would begin a pass. */
  lemma NotTriggered(f: History, ls: Labels, id: int, n: nat)
    requires Late(f, ls, id, n)
    ensures !(f(n).pc.Idle? && f(n).trigger)
  {
    if f(n).pc.Idle? && f(n).trigger {
      var j := LateTurn(f, ls, id, n);
      NotReading(f, ls, id, j + 1);
    }
  }

  lemma {:induction false} PokedBy(f: History, ls: Labels, id: int, n: nat, bound: nat)
    requires Late(f, ls, id, n) && n <= bound
    requires ls(bound).DeliverPoke? || f(bound).owed == 0
    ensures !f(n).pc.Idle?
    decreases bound - n
  {
    if f(n).pc.Idle? {
      LateOn(f, ls, id, n, n);
      LateOn(f, ls, id, n, n + 1);
      AlwaysGood(f, ls, n);
      NotTriggered(f, ls, id, n);
      assert f(n).owed > 0;
      assert StepsAt(f, ls, n);
      if ls(n).DeliverPoke? {
        NotTriggered(f, ls, id, n + 1);
      } else {
        OthersLeaveScheduler(f(n), ls(n));
        PokedBy(f, ls, id, n + 1, bound);
      }
    }
  }

  /** But asleep it would be poked. */
  lemma NeverIdle(f: History, ls: Labels, id: int, n: nat)
    requires Late(f, ls, id, n)
    ensures !f(n).pc.Idle?
  {
    assert PokesServed(f, ls, n);
    var bound: nat :| n <= bound && (ls(bound).DeliverPoke? || f(bound).owed == 0);
    PokedBy(f, ls, id, n, bound);
  }

  /** That leaves a pick by an outdated count, after which the scheduler would have to be somewhere. */
  lemma OnlyOutdatedPick(f: History, ls: Labels, id: int, n: nat)
    requires Late(f, ls, id, n)
    ensures f(n).pc.AtPick?
  {
    NotReading(f, ls, id, n);
    NothingPicked(f, ls, id, n);
    NeverIdle(f, ls, id, n);
  }

  lemma PickLeadsOn(f: History, ls: Labels, j: nat)
    requires Endless(f, ls) && f(j).pc.AtPick? && IsScheduler(ls(j))
    ensures !f(j + 1).pc.AtPick?
  {
    assert StepsAt(f, ls, j);
  }

  lemma NeverLate(f: History, ls: Labels, id: int, n: nat)
    ensures !Late(f, ls, id, n)
  {
    if Late(f, ls, id, n) {
      OnlyOutdatedPick(f, ls, id, n);
      var j := NextTurn(f, ls, n);
      PickLeadsOn(f, ls, j);
      LateOn(f, ls, id, n, j + 1);
      OnlyOutdatedPick(f, ls, id, j + 1);
    }
  }

  lemma LeavesTheQueue(f: History, ls: Labels, id: int, i: nat)
    requires Endless(f, ls) && Fair(f, ls) && WaitsAt(f, id, i) && !Asleep(f(i))
    ensures !QueuedFrom(f, id, i)
  {
    if QueuedFrom(f, id, i) {
      var n := StartsRunOut(f, ls, id, i);
      var m := SpawningEnds(f, ls, n);
      var k := AttemptsRunOut(f, ls, m);
      WaitsUntil(f, ls, id, i, k);
      NeverSleptOn(f, ls, id, i, k);
      NeverLate(f, ls, id, k);
    }
  }

  /** A ready job is never starved: it starts, is skipped or is removed, whatever else is submitted or
      removed in the meantime - unless a lost wake-up left it to a scheduler that nothing wakes again. */
  lemma NeverStarved(f: History, ls: Labels, id: int, i: nat)
    requires Endless(f, ls) && Fair(f, ls) && WaitsAt(f, id, i)
    ensures (exists j: nat :: i <= j && !IsQueued(f(j).q, id)) || forall j: nat | i <= j :: Asleep(f(j))
  {
    if QueuedFrom(f, id, i) {
      forall j: nat | i <= j ensures Asleep(f(j)) {
        WaitsUntil(f, ls, id, i, j);
        if !Asleep(f(j)) {
          LeavesTheQueue(f, ls, id, j);
        }
      }
    }
  }
}
