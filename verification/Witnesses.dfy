/**
  Concrete runs of a freshly loaded daemon that show where the scheduling rules promise less than
  one might read into them.
 */
module Witnesses {
  import opened Collections
  import opened Protocol
  import opened QueueModel
  import opened QueueInvariant
  import opened QueueEvolution
  import opened SystemModel
  import opened SkipRounds
  import opened Liveness
  import opened RequiredSuccess

  /** The labels lead from `s` to `t`. */
  ghost predicate Reaches(s: Sys, ls: seq<Label>, t: Sys)
    decreases ls
  {
    if ls == [] then s == t else Enabled(s, ls[0]) && Reaches(Step(s, ls[0]), ls[1..], t)
  }

  lemma {:induction false} ReachesThen(s: Sys, ls: seq<Label>, m: Sys, more: seq<Label>, t: Sys)
    requires Reaches(s, ls, m) && Reaches(m, more, t)
    ensures Reaches(s, ls + more, t)
    decreases ls
  {
    if ls == [] {
      assert ls + more == more;
    } else {
      ReachesThen(Step(s, ls[0]), ls[1..], m, more, t);
      assert (ls + more)[1..] == ls[1..] + more;
    }
  }

  lemma OneStep(s: Sys, l: Label)
    requires Enabled(s, l)
    ensures Reaches(s, [l], Step(s, l))
  {
    assert [l][1..] == [];
  }

  // ------------------------------------------------------- stretches of a pass

  const CHECK := [CheckSkip, SkipNext]
  const PICK := [ReadMax, ReadBusy, PickNext]

  ghost predicate AtRest(q: Queue) {
    SlotsPositive(q) && NoneRunning(q)
  }

  /** A skip check that finds nothing. */
  lemma Checks(s: Sys)
    requires s.pc.Check? && CheckSkippable(s.q) == []
    ensures Reaches(s, CHECK, s.(pc := AtMax))
  {
    OneStep(s, CheckSkip);
    OneStep(s.(pc := Skipping([])), SkipNext);
    ReachesThen(s, [CheckSkip], s.(pc := Skipping([])), [SkipNext], s.(pc := AtMax));
  }

  function Picked(q: Queue, max: int): PC {
    var next := NextRunnable(q, max, 0);
    if next.None? then Idle else AtStart(max, 0, next.value)
  }

  /** The readings of one turn while nothing runs. */
  lemma Picks(s: Sys)
    requires s.pc.AtMax? && AtRest(s.q)
    ensures Reaches(s, PICK, s.(pc := Picked(s.q, s.maxSlots)))
  {
    BusyNonNegative(s.q);
    var m, b := s.(pc := AtBusy(s.maxSlots)), s.(pc := AtPick(s.maxSlots, 0));
    OneStep(s, ReadMax);
    OneStep(m, ReadBusy);
    OneStep(b, PickNext);
    ReachesThen(s, [ReadMax], m, [ReadBusy], b);
    ReachesThen(s, [ReadMax] + [ReadBusy], b, [PickNext], s.(pc := Picked(s.q, s.maxSlots)));
    assert [ReadMax] + [ReadBusy] + [PickNext] == PICK;
  }

  lemma ChecksAndPicks(s: Sys)
    requires s.pc.Check? && CheckSkippable(s.q) == [] && AtRest(s.q)
    ensures Reaches(s, CHECK + PICK, s.(pc := Picked(s.q, s.maxSlots)))
  {
    Checks(s);
    Picks(s.(pc := AtMax));
    ReachesThen(s, CHECK, s.(pc := AtMax), PICK, s.(pc := Picked(s.q, s.maxSlots)));
  }

  /** The picked job starts, its process cannot be started, and it has no retry. */
  const FAIL := [StartPicked, SpawnPicked, ExecEnd(0, START_FAILED), ExecRetry(0), ExecFinish(0)]

  ghost function Failed(s: Sys): Queue
    requires s.pc.AtStart?
  {
    MarkFinished(SetRunning(s.q, s.pc.id, 0, ""), s.pc.id, START_FAILED)
  }

  lemma Spawns(s: Sys) returns (t: Sys)
    requires s.pc.AtStart? && s.live == map[] && s.nextG == 0
    ensures Reaches(s, [StartPicked, SpawnPicked], t)
    ensures t.pc.AtMax? && t.q == SetRunning(s.q, s.pc.id, 0, "") && t.maxSlots == s.maxSlots
    ensures t.live == map[0 := Exec(s.pc.id, Spawned)]
  {
    var a := Step(s, StartPicked);
    t := Step(a, SpawnPicked);
    OneStep(s, StartPicked);
    OneStep(a, SpawnPicked);
    ReachesThen(s, [StartPicked], a, [SpawnPicked], t);
    assert [StartPicked] + [SpawnPicked] == [StartPicked, SpawnPicked];
  }

  lemma Dies(s: Sys, id: int) returns (t: Sys)
    requires s.live == map[0 := Exec(id, Spawned)] && !CanRetry(s.q, id)
    ensures Reaches(s, [ExecEnd(0, START_FAILED), ExecRetry(0), ExecFinish(0)], t)
    ensures t.pc == s.pc && t.q == MarkFinished(s.q, id, START_FAILED) && t.maxSlots == s.maxSlots
  {
    var c := s.(live := map[0 := Exec(id, Ended(START_FAILED))]);
    var d := s.(live := map[0 := Exec(id, Final(START_FAILED))]);
    t := Step(d, ExecFinish(0));
    OneStep(s, ExecEnd(0, START_FAILED));
    OneStep(c, ExecRetry(0));
    OneStep(d, ExecFinish(0));
    ReachesThen(s, [ExecEnd(0, START_FAILED)], c, [ExecRetry(0)], d);
    ReachesThen(s, [ExecEnd(0, START_FAILED)] + [ExecRetry(0)], d, [ExecFinish(0)], t);
    assert [ExecEnd(0, START_FAILED)] + [ExecRetry(0)] + [ExecFinish(0)]
        == [ExecEnd(0, START_FAILED), ExecRetry(0), ExecFinish(0)];
  }

  lemma Fails(s: Sys) returns (t: Sys)
    requires s.pc.AtStart? && s.live == map[] && s.nextG == 0
    requires s.pc.id in s.q.recs && !CanRetry(s.q, s.pc.id)
    ensures Reaches(s, FAIL, t) && t.pc.AtMax? && t.q == Failed(s) && t.maxSlots == s.maxSlots
  {
    var b := Spawns(s);
    t := Dies(b, s.pc.id);
    ReachesThen(s, [StartPicked, SpawnPicked], b, [ExecEnd(0, START_FAILED), ExecRetry(0), ExecFinish(0)], t);
    assert [StartPicked, SpawnPicked] + [ExecEnd(0, START_FAILED), ExecRetry(0), ExecFinish(0)] == FAIL;
  }

  /** The daemon started on queue `q` with two slots. */
  ghost function Loaded(q: Queue): Sys {
    FRESH.(q := q, maxSlots := 2, allowed := map id | id in q.recs :: MaxRetries(q.recs[id].info.retries) + 1)
  }

  // ----------------------------------------------- required success, not enforced

  /** A queue of job 0, as given, and job 1, which requires the success of job 0. */
  function Pair(first: Record): Queue {
    EMPTY.(order := [0, 1], nextID := 2, lastID := 1, recs := map[0 := first, 1 := Member(1, Queued, 0, [0])])
  }

  function Timed(): Record {
    Member(0, Finished, 0, []).(info := Member(0, Finished, 0, []).info.(result := Result(0, false, true, false)))
  }

  lemma PairIsProper(first: Record)
    requires first in [Member(0, Queued, 0, []), Member(0, Finished, 1, []), Timed()]
    ensures Init(Loaded(Pair(first))) && AtRest(Pair(first))
  {
  }

  /** The scheduler is about to start job 1, and its required dependency failed. */
  predicate StartsAfterFailure(t: Sys) {
    t.pc.AtStart? && t.pc.id == 1 && IsQueued(t.q, 1) && t.q.recs[1].requireElevel
    && 0 in t.q.recs[1].info.dependOn && EndedBadly(t.q, 0)
  }

  lemma PairPicksSecond(q: Queue, max: int)
    requires q.order == [0, 1] && !Ready(q, 0) && Ready(q, 1) && q.recs[1].info.numSlots == 1 && max == 2
    ensures Picked(q, max) == AtStart(2, 0, 1)
  {
    assert FirstReady(q, 1) == 1 && FirstReady(q, 0) == 1;
  }

  lemma PairNothingToSkip(q: Queue)
    requires q.order == [0, 1] && !Skippable(q, 0) && !Skippable(q, 1)
    ensures CheckSkippable(q) == []
  {
    assert [0, 1][..1] == [0] && [0][..0] == [];
    assert SkippableIn(q, [0]) == [];
  }

  lemma NothingSpoiled(q: Queue)
    requires q == Pair(Member(0, Queued, 0, []))
    ensures !Skippable(q, 0) && !Skippable(q, 1) && ChainFree(q)
  {
  }

  lemma BothWaiting(q: Queue)
    requires q == Pair(Member(0, Queued, 0, []))
    ensures CheckSkippable(q) == [] && Picked(q, 2) == AtStart(2, 0, 0)
  {
    NothingSpoiled(q);
    PairNothingToSkip(q);
    assert Ready(q, 0) && FirstReady(q, 0) == 0;
  }

  lemma FirstHasFailed(q: Queue)
    requires q == MarkFinished(SetRunning(Pair(Member(0, Queued, 0, [])), 0, 0, ""), 0, START_FAILED)
    ensures AtRest(q) && EndedBadly(q, 0) && IsQueued(q, 1) && q.recs[1] == Member(1, Queued, 0, [0])
    ensures Picked(q, 2) == AtStart(2, 0, 1)
  {
    assert !Ready(q, 0) && Ready(q, 1);
    PairPicksSecond(q, 2);
  }

  /** The dependency fails after the skip check of the pass that starts its dependent. */
  lemma LateFailure() returns (ls: seq<Label>, t: Sys)
    ensures var q := Pair(Member(0, Queued, 0, []));
            Init(Loaded(q)) && ChainFree(q) && Reaches(Loaded(q), ls, t) && StartsAfterFailure(t)
  {
    var q := Pair(Member(0, Queued, 0, []));
    var s := Loaded(q);
    PairIsProper(Member(0, Queued, 0, []));
    NothingSpoiled(q);
    BothWaiting(q);
    ChecksAndPicks(s);
    var p := s.(pc := AtStart(2, 0, 0));
    var m := Fails(p);
    ReachesThen(s, CHECK + PICK, p, FAIL, m);
    FirstHasFailed(m.q);
    Picks(m);
    t := m.(pc := AtStart(2, 0, 1));
    ls := CHECK + PICK + FAIL + PICK;
    ReachesThen(s, CHECK + PICK + FAIL, m, PICK, t);
  }

  const FAILED_ALONE := EMPTY.(order := [0], nextID := 1, lastID := 0, recs := map[0 := Member(0, Finished, 1, [])])

  lemma NothingToCheck()
    ensures Init(Loaded(FAILED_ALONE)) && ChainFree(FAILED_ALONE) && CheckSkippable(FAILED_ALONE) == []
  {
    var q := FAILED_ALONE;
    assert !Skippable(q, 0);
    assert [0][..0] == [] && SkippableIn(q, []) == [];
    assert SkippableIn(q, [0]) == SkippableIn(q, [0][..0]);
  }

  lemma ArrivedLate(req: NewJobRequest, q: Queue)
    requires req.dependOn == [0] && req.requireElevel && req.numSlots == 1 && q == Add(FAILED_ALONE, req, "")
    ensures AtRest(q) && EndedBadly(q, 0) && IsQueued(q, 1)
    ensures q.recs[1].requireElevel && q.recs[1].info.dependOn == [0] && Picked(q, 2) == AtStart(2, 0, 1)
  {
    assert q.order == [0, 1] && !Ready(q, 0) && Ready(q, 1);
    PairPicksSecond(q, 2);
  }

  /** The dependent arrives after the skip check. */
  lemma LateSubmission(req: NewJobRequest) returns (ls: seq<Label>, t: Sys)
    requires req.dependOn == [0] && req.requireElevel && req.numSlots == 1
    ensures Init(Loaded(FAILED_ALONE)) && ChainFree(FAILED_ALONE)
    ensures Reaches(Loaded(FAILED_ALONE), ls, t) && StartsAfterFailure(t)
  {
    var s := Loaded(FAILED_ALONE);
    NothingToCheck();
    Checks(s);
    var l := Request(AddOp(req, ""));
    var m := s.(pc := AtMax);
    var n := Step(m, l);
    OneStep(m, l);
    ReachesThen(s, CHECK, m, [l], n);
    ArrivedLate(req, n.q);
    Picks(n);
    t := n.(pc := AtStart(2, 0, 1));
    ls := CHECK + [l] + PICK;
    ReachesThen(s, CHECK + [l], n, PICK, t);
  }

  const DOOMED_PAIR := Pair(Member(0, Finished, 1, []))

  lemma ClearedOrder()
    ensures ClearFinished(DOOMED_PAIR).order == [1]
    ensures ClearFinished(DOOMED_PAIR).recs == map[1 := Member(1, Queued, 0, [0])]
  {
    var q := DOOMED_PAIR;
    assert EndedJobs(q) == {0};
    assert [0, 1][..1] == [0] && [0][..0] == [];
    assert Without([0], {0}) == Without([0][..0], {0}) == [];
  }

  lemma AfterClearing(p: Queue)
    requires p.order == [1] && p.recs == map[1 := Member(1, Queued, 0, [0])]
    ensures CheckSkippable(p) == [] && AtRest(p) && Picked(p, 2) == AtStart(2, 0, 1)
  {
    assert !Skippable(p, 1) && [1][..0] == [] && SkippableIn(p, []) == [];
    assert SkippableIn(p, [1]) == SkippableIn(p, [1][..0]);
    assert Ready(p, 1) && FirstReady(p, 0) == 0;
  }

  /** The failure is forgotten before the skip check. */
  lemma ForgottenFailure() returns (ls: seq<Label>, t: Sys)
    ensures Init(Loaded(DOOMED_PAIR)) && EndedBadly(DOOMED_PAIR, 0) && Skippable(DOOMED_PAIR, 1)
    ensures Reaches(Loaded(DOOMED_PAIR), ls, t) && t.pc.AtStart? && t.pc.id == 1
  {
    var s := Loaded(DOOMED_PAIR);
    PairIsProper(Member(0, Finished, 1, []));
    assert Spoiled(DOOMED_PAIR, 0);
    var l := Request(ClearFinishedOp);
    var m := Step(s, l);
    OneStep(s, l);
    ClearedOrder();
    AfterClearing(m.q);
    ChecksAndPicks(m);
    t := m.(pc := AtStart(2, 0, 1));
    ls := [l] + (CHECK + PICK);
    ReachesThen(s, [l], m, CHECK + PICK, t);
  }

  /** The dependency timed out with exit code 0. */
  lemma HiddenTimeout() returns (ls: seq<Label>, t: Sys)
    ensures var q := Pair(Timed());
            Init(Loaded(q)) && ChainFree(q) && Reaches(Loaded(q), ls, t) && StartsAfterFailure(t)
  {
    var q := Pair(Timed());
    var s := Loaded(q);
    PairIsProper(Timed());
    assert !Skippable(q, 0) && !Skippable(q, 1);
    PairNothingToSkip(q);
    ChecksAndPicks(s);
    assert !Ready(q, 0) && Ready(q, 1);
    PairPicksSecond(q, 2);
    ls, t := CHECK + PICK, s.(pc := AtStart(2, 0, 1));
  }

  // ------------------------------------------------------------------- deadlock

  /** Asleep for good although a job is queued: no step of the daemon's own is possible. */
  ghost predicate Stuck(s: Sys, id: int) {
    IsQueued(s.q, id) && forall l: Label | Internal(l) :: !Enabled(s, l)
  }

  lemma PairPicksNone(q: Queue, max: int)
    requires q.order == [0, 1] && !Ready(q, 0) && !Ready(q, 1)
    ensures Picked(q, max) == Idle
  {
    assert FirstReady(q, 2) == -1 && FirstReady(q, 1) == -1 && FirstReady(q, 0) == -1;
  }

  const WAKE := [DeliverPoke, DeliverPoke, TakeTrigger]

  lemma PokedTwice(s: Sys)
    requires s.pc.Idle? && s.owed == 2
    ensures Reaches(s, WAKE, s.(pc := Check, owed := 0, trigger := false))
  {
    var a := Step(s, DeliverPoke);
    var b := Step(a, DeliverPoke);
    var t := Step(b, TakeTrigger);
    OneStep(s, DeliverPoke);
    OneStep(a, DeliverPoke);
    OneStep(b, TakeTrigger);
    ReachesThen(s, [DeliverPoke], a, [DeliverPoke], b);
    ReachesThen(s, [DeliverPoke] + [DeliverPoke], b, [TakeTrigger], t);
    assert [DeliverPoke] + [DeliverPoke] + [TakeTrigger] == WAKE;
  }

  lemma Entangled(first: NewJobRequest, second: NewJobRequest, q: Queue)
    requires first.dependOn == [1] && second.dependOn == [0] && !first.requireElevel && !second.requireElevel
    requires q == Add(Add(EMPTY, first, ""), second, "")
    ensures IsQueued(q, 0) && IsQueued(q, 1) && AtRest(q)
    ensures CheckSkippable(q) == [] && Picked(q, 1) == Idle
  {
    assert q.order == [0, 1] && !Settled(q, 0) && !Settled(q, 1);
    PairNothingToSkip(q);
    PairPicksNone(q, 1);
  }

  /** A pass, two pokes and another pass that start nothing. */
  lemma TwoIdlePasses(s: Sys)
    requires s.pc.Check? && s.owed == 2 && !s.trigger
    requires CheckSkippable(s.q) == [] && AtRest(s.q) && Picked(s.q, s.maxSlots) == Idle
    ensures Reaches(s, CHECK + PICK + WAKE + (CHECK + PICK), s.(pc := Idle, owed := 0))
  {
    var a, b, t := s.(pc := Idle), s.(owed := 0), s.(pc := Idle, owed := 0);
    ChecksAndPicks(s);
    PokedTwice(a);
    ChecksAndPicks(b);
    ReachesThen(s, CHECK + PICK, a, WAKE, b);
    ReachesThen(s, CHECK + PICK + WAKE, b, CHECK + PICK, t);
  }

  lemma SubmitsTwo(first: NewJobRequest, second: NewJobRequest) returns (t: Sys)
    ensures Reaches(FRESH, [Request(AddOp(first, "")), Request(AddOp(second, ""))], t)
    ensures t.q == Add(Add(EMPTY, first, ""), second, "") && t.pc.Check? && t.owed == 2 && !t.trigger
    ensures t.live == map[] && t.maxSlots == 1
  {
    var l1, l2 := Request(AddOp(first, "")), Request(AddOp(second, ""));
    var a := Step(FRESH, l1);
    t := Step(a, l2);
    OneStep(FRESH, l1);
    OneStep(a, l2);
    ReachesThen(FRESH, [l1], a, [l2], t);
    assert [l1] + [l2] == [l1, l2];
  }

  lemma AsleepIsStuck(s: Sys, id: int)
    requires s.pc.Idle? && !s.trigger && s.owed == 0 && s.live == map[] && IsQueued(s.q, id)
    ensures Stuck(s, id)
  {
  }

  /** Two submissions that name each other, before the next pass: the first depends on an id that
      has not been handed out yet. */
  lemma DeadlockOfTwo(first: NewJobRequest, second: NewJobRequest) returns (ls: seq<Label>, t: Sys)
    requires first.dependOn == [1] && second.dependOn == [0] && !first.requireElevel && !second.requireElevel
    ensures Init(FRESH) && Reaches(FRESH, ls, t) && Stuck(t, 0) && Stuck(t, 1)
    ensures t.q == Add(Add(EMPTY, first, ""), second, "") && Resting(t)
  {
    var b := SubmitsTwo(first, second);
    Entangled(first, second, b.q);
    TwoIdlePasses(b);
    t := b.(pc := Idle, owed := 0);
    ls := [Request(AddOp(first, "")), Request(AddOp(second, ""))] + (CHECK + PICK + WAKE + (CHECK + PICK));
    ReachesThen(FRESH, [Request(AddOp(first, "")), Request(AddOp(second, ""))], b,
                CHECK + PICK + WAKE + (CHECK + PICK), t);
    AsleepIsStuck(t, 0);
    AsleepIsStuck(t, 1);
  }

  lemma Untangled(first: NewJobRequest, second: NewJobRequest, q: Queue)
    requires first.dependOn == [1] && second.dependOn == [0] && !first.requireElevel && !second.requireElevel
    requires q == Add(Add(EMPTY, first, ""), second, "")
    ensures Ready(Remove(q, 1), 0) && NoneRunning(Remove(q, 1))
  {
    Entangled(first, second, q);
    RemovalReady(q, 1, 0);
  }

  /** Removing one of the two sets the other free, but nobody starts it. */
  lemma RemovalGoesUnheard(first: NewJobRequest, second: NewJobRequest) returns (ls: seq<Label>, t: Sys)
    requires first.dependOn == [1] && second.dependOn == [0] && !first.requireElevel && !second.requireElevel
    ensures Init(FRESH) && Reaches(FRESH, ls, t) && Sleeper(t, 0) && Stuck(t, 0)
  {
    var stuck, d := DeadlockOfTwo(first, second);
    var l := Request(RemoveOp(1));
    t := Step(d, l);
    ls := stuck + [l];
    OneStep(d, l);
    ReachesThen(FRESH, stuck, d, [l], t);
    Untangled(first, second, d.q);
    AsleepIsStuck(t, 0);
  }
}
