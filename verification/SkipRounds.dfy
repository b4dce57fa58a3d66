/**
  Skip propagation: what one round of CheckSkippable and MarkSkipped does, what repeating it
  computes, and exactly when the single round of a scheduling pass is enough.
 */
module SkipRounds {
  import opened Collections
  import opened Protocol
  import opened QueueModel
  import opened QueueInvariant
  import opened SystemModel
  import opened SystemSteps

  function MarkAll(q: Queue, ids: seq<int>): Queue
    decreases ids
  {
    if ids == [] then q else MarkAll(MarkSkipped(q, ids[0]), ids[1..])
  }

  /** The uninterrupted skip round at the head of a scheduling pass. */
  function Round(q: Queue): Queue {
    MarkAll(q, CheckSkippable(q))
  }

  /** `now` differs from `was` in that the jobs in `ids` are skipped. */
  ghost predicate SkipsExactly(was: Queue, now: Queue, ids: set<int>) {
    && now.order == was.order && now.recs.Keys == was.recs.Keys
    && forall id | id in was.recs ::
         now.recs[id].requireElevel == was.recs[id].requireElevel &&
         now.recs[id].info == if id in ids then was.recs[id].info.(state := Skipped, result := SKIP_RESULT)
                              else was.recs[id].info
  }

  lemma {:induction false} MarkAllExact(q: Queue, ids: seq<int>)
    ensures SkipsExactly(q, MarkAll(q, ids), Elements(ids))
    decreases ids
  {
    if ids != [] {
      MarkAllExact(MarkSkipped(q, ids[0]), ids[1..]);
      assert ids == [ids[0]] + ids[1..];
    }
  }

  ghost function SkippableSet(q: Queue): set<int> {
    set id | id in q.recs && Skippable(q, id)
  }

  /** One round skips exactly the queued require-success jobs with a dependency that had failed
      or been skipped before the round. */
  lemma RoundExact(q: Queue)
    requires Indexed(q)
    ensures SkipsExactly(q, Round(q), SkippableSet(q))
  {
    SkippableMembers(q, q.order);
    MarkAllExact(q, CheckSkippable(q));
    assert Elements(CheckSkippable(q)) == SkippableSet(q);
  }

  lemma RoundKeepsIndex(q: Queue)
    requires Indexed(q)
    ensures Indexed(Round(q))
  {
    RoundExact(q);
  }

  // -------------------------------------------------------------- saturation

  ghost function QueuedSet(q: Queue): set<int> {
    set id | id in q.recs && IsQueued(q, id)
  }

  lemma RoundShrinks(q: Queue)
    requires Indexed(q) && CheckSkippable(q) != []
    ensures QueuedSet(Round(q)) < QueuedSet(q)
  {
    RoundExact(q);
    SkippableMembers(q, q.order);
    var id := CheckSkippable(q)[0];
    assert id in CheckSkippable(q) && id in QueuedSet(q);
    forall x | x in QueuedSet(Round(q)) ensures x in QueuedSet(q) && x != id {
      assert Round(q).recs[x].info.state.Queued?;
    }
  }

  /** Rounds repeated until nothing is left to skip. */
  ghost function Saturate(q: Queue): Queue
    requires Indexed(q)
    decreases QueuedSet(q)
  {
    if CheckSkippable(q) == [] then q else
      RoundKeepsIndex(q);
      RoundShrinks(q);
      Saturate(Round(q))
  }

  ghost function NewlySkipped(q: Queue): set<int>
    requires Indexed(q)
  {
    set id | id in q.recs && IsQueued(q, id) && id in Saturate(q).recs && Saturate(q).recs[id].info.state.Skipped?
  }

  /** `doomed` holds every queued require-success job that depends on a spoiled or doomed job. */
  ghost predicate Closed(q: Queue, doomed: set<int>) {
    forall id | IsQueued(q, id) && DependsOnDoomed(q, q.recs[id], doomed) :: id in doomed
  }

  predicate DependsOnDoomed(q: Queue, r: Record, doomed: set<int>) {
    r.requireElevel && exists d | d in r.info.dependOn :: Spoiled(q, d) || d in doomed
  }

  lemma {:induction false} SaturateExact(q: Queue)
    requires Indexed(q)
    ensures SkipsExactly(q, Saturate(q), NewlySkipped(q))
    ensures Indexed(Saturate(q)) && CheckSkippable(Saturate(q)) == []
    decreases QueuedSet(q)
  {
    if CheckSkippable(q) != [] {
      RoundKeepsIndex(q);
      RoundShrinks(q);
      RoundExact(q);
      SaturateExact(Round(q));
      forall id | id in q.recs
        ensures Saturate(q).recs[id].requireElevel == q.recs[id].requireElevel
        ensures Saturate(q).recs[id].info ==
                  if id in NewlySkipped(q) then q.recs[id].info.(state := Skipped, result := SKIP_RESULT)
                  else q.recs[id].info
      {
        assert id in Round(q).recs;
      }
    }
  }

  lemma RoundKeepsClosed(q: Queue, doomed: set<int>)
    requires Indexed(q) && Closed(q, doomed)
    ensures SkippableSet(q) <= doomed && Closed(Round(q), doomed)
  {
    RoundExact(q);
    forall id | id in SkippableSet(q) ensures id in doomed {
      assert DependsOnDoomed(q, q.recs[id], doomed);
    }
    forall id | IsQueued(Round(q), id) && DependsOnDoomed(Round(q), Round(q).recs[id], doomed) ensures id in doomed {
      var d :| d in q.recs[id].info.dependOn && (Spoiled(Round(q), d) || d in doomed);
      assert Spoiled(q, d) || d in doomed;
      assert DependsOnDoomed(q, q.recs[id], doomed);
    }
  }

  lemma {:induction false} SaturateWithin(q: Queue, doomed: set<int>)
    requires Indexed(q) && Closed(q, doomed)
    ensures NewlySkipped(q) <= doomed
    decreases QueuedSet(q)
  {
    if CheckSkippable(q) != [] {
      RoundKeepsIndex(q);
      RoundShrinks(q);
      RoundExact(q);
      RoundKeepsClosed(q, doomed);
      SaturateWithin(Round(q), doomed);
      forall id | id in NewlySkipped(q) ensures id in doomed {
        assert id in SkippableSet(q) || id in NewlySkipped(Round(q));
      }
    }
  }

  lemma SaturateClosed(q: Queue)
    requires Indexed(q)
    ensures Closed(q, NewlySkipped(q))
  {
    SaturateExact(q);
    var end, doomed := Saturate(q), NewlySkipped(q);
    SkippableMembers(end, end.order);
    forall id | IsQueued(q, id) && DependsOnDoomed(q, q.recs[id], doomed) ensures id in doomed {
      var d :| d in q.recs[id].info.dependOn && (Spoiled(q, d) || d in doomed);
      assert Spoiled(end, d);
      assert id !in CheckSkippable(end);
    }
  }

  /** Repeated rounds reach the least closed set: every doomed job and no other. */
  lemma SaturateIsLeast(q: Queue)
    requires Indexed(q)
    ensures Closed(q, NewlySkipped(q))
    ensures forall doomed | Closed(q, doomed) :: NewlySkipped(q) <= doomed
  {
    SaturateClosed(q);
    forall doomed | Closed(q, doomed) ensures NewlySkipped(q) <= doomed {
      SaturateWithin(q, doomed);
    }
  }

  /** So the list order does not matter. */
  lemma OrderIrrelevant(q: Queue, p: Queue)
    requires Indexed(q) && Indexed(p) && p.recs == q.recs
    ensures NewlySkipped(p) == NewlySkipped(q)
  {
    SaturateClosed(q);
    SaturateClosed(p);
    assert Closed(p, NewlySkipped(q)) && Closed(q, NewlySkipped(p));
    SaturateWithin(p, NewlySkipped(q));
    SaturateWithin(q, NewlySkipped(p));
  }

  // ---------------------------------------------------- one round per pass

  ghost predicate ChainFree(q: Queue) {
    forall id | IsQueued(q, id) && q.recs[id].requireElevel && !Skippable(q, id) ::
      forall d | d in q.recs[id].info.dependOn :: !Skippable(q, d)
  }

  /** A require-success job left by the round should have been skipped exactly when one of its
      dependencies was skipped in that very round. */
  lemma LeftBehind(q: Queue, id: int)
    requires Indexed(q) && IsQueued(q, id) && IsQueued(Round(q), id)
    ensures Skippable(Round(q), id) <==>
              q.recs[id].requireElevel && exists d | d in q.recs[id].info.dependOn :: Skippable(q, d)
  {
    RoundExact(q);
    var after := Round(q);
    assert !Skippable(q, id);
    if d :| d in q.recs[id].info.dependOn && Skippable(q, d) {
      assert Spoiled(after, d);
    }
    if d :| d in after.recs[id].info.dependOn && Spoiled(after, d) {
      assert d in SkippableSet(q) || Spoiled(q, d);
    }
  }

  /** The single round suffices exactly when no require-success job it leaves queued depends on a
      job it skips. */
  lemma OneRoundSuffices(q: Queue)
    requires Indexed(q)
    ensures CheckSkippable(Round(q)) == [] <==> ChainFree(q)
  {
    RoundExact(q);
    var after := Round(q);
    SkippableMembers(after, after.order);
    if CheckSkippable(after) != [] {
      var id := CheckSkippable(after)[0];
      assert id in CheckSkippable(after) && IsQueued(q, id);
      LeftBehind(q, id);
    } else {
      forall id | IsQueued(q, id) && q.recs[id].requireElevel && !Skippable(q, id)
        ensures forall d | d in q.recs[id].info.dependOn :: !Skippable(q, d)
      {
        assert IsQueued(after, id) && id in after.order;
        assert !Skippable(after, id);
        LeftBehind(q, id);
      }
    }
  }

  // ------------------------------------------- what a required success means

  predicate Succeeded(q: Queue, dep: int) {
    dep in q.recs && q.recs[dep].info.state.Finished? && !JobFailed(q.recs[dep].info.result)
  }

  /** A failure that the retry rule sees and the skip rule does not: timed out or killed, but exit code 0. */
  predicate HiddenFailure(q: Queue, dep: int) {
    dep in q.recs && q.recs[dep].info.state.Finished? && q.recs[dep].info.result.exitCode == 0
    && JobFailed(q.recs[dep].info.result)
  }

  /** A require-success job picked by an uninterrupted pass has only successful dependencies exactly
      when none of them was skipped in that pass and none failed with exit code 0. */
  lemma PickedAfterSuccess(q: Queue, max: int, busy: int, id: int)
    requires Indexed(q) && NextRunnable(Round(q), max, busy) == Some(id) && id in q.recs && q.recs[id].requireElevel
    ensures (forall d | d in q.recs[id].info.dependOn && d in q.recs :: Succeeded(Round(q), d)) <==>
            (forall d | d in q.recs[id].info.dependOn && d in q.recs :: !Skippable(q, d) && !HiddenFailure(q, d))
  {
    RoundExact(q);
    var after := Round(q);
    assert Ready(after, id) && id !in SkippableSet(q);
    forall d | d in q.recs[id].info.dependOn && d in q.recs
      ensures Succeeded(after, d) <==> !Skippable(q, d) && !HiddenFailure(q, d)
    {
      assert Settled(after, d) && !Spoiled(q, d);
    }
  }

  function Member(id: int, state: JobState, exitCode: int, dependOn: seq<int>): Record {
    Record(id, JobInfo("", state, Result(exitCode, false, false, false), "", false, 0, dependOn, "", DEFAULT,
                       1, 0, 0, 0), [], true, [])
  }

  /** Job 0 failed, job 1 requires job 0, job 2 requires job 1. */
  const CHAIN := EMPTY.(
    order := [0, 1, 2], nextID := 3, lastID := 2,
    recs := map[0 := Member(0, Finished, 1, []), 1 := Member(1, Queued, 0, [0]), 2 := Member(2, Queued, 0, [1])])

  lemma ChainIsProper()
    ensures RepInv(CHAIN)
  {
  }

  lemma ChainSkipsTheMiddle()
    ensures CheckSkippable(CHAIN) == [1]
  {
    assert Spoiled(CHAIN, 0) && Skippable(CHAIN, 1);
    assert !Skippable(CHAIN, 0) && !Skippable(CHAIN, 2);
    assert SkippableIn(CHAIN, [0]) == [];
    assert [0, 1][..1] == [0] && SkippableIn(CHAIN, [0, 1]) == [1];
    assert CHAIN.order[..2] == [0, 1];
  }

  /** On this chain the pass skips job 1 and then starts job 2, whose required dependency it has
      just skipped. */
  lemma ChainStartsSpoiledJob()
    ensures RepInv(CHAIN)
    ensures CheckSkippable(CHAIN) == [1]
    ensures Skippable(Round(CHAIN), 2)
    ensures NextRunnable(Round(CHAIN), 1, 0) == Some(2)
  {
    ChainIsProper();
    ChainSkipsTheMiddle();
    ChainAfterRound();
  }

  lemma ChainAfterRound()
    ensures var after := MarkAll(CHAIN, [1]);
            Skippable(after, 2) && NextRunnable(after, 1, 0) == Some(2)
  {
    var after := MarkSkipped(CHAIN, 1);
    assert MarkAll(CHAIN, [1]) == MarkAll(after, [1][1..]) == after;
    assert Spoiled(after, 1) && Settled(after, 1) && Ready(after, 2);
    assert FirstReady(after, 2) == 2 && FirstReady(after, 1) == 2;
  }
}
