/** What a scheduling pass does when nothing comes between its steps. */
module Passes {
  import opened Collections
  import opened QueueModel
  import opened QueueOrder
  import opened SkipRounds
  import opened SlotSafety

  lemma StartingShrinks(q: Queue, id: int)
    requires IsQueued(q, id)
    ensures QueuedSet(SetRunning(q, id, 0, "")) < QueuedSet(q)
  {
    assert id in QueuedSet(q) && id !in QueuedSet(SetRunning(q, id, 0, ""));
  }

  /** The queue after jobs were started until none could be. */
  ghost function StartAll(q: Queue, max: int): Queue
    decreases QueuedSet(q)
  {
    var next := NextRunnable(q, max, BusySlots(q));
    if next.None? then q else
      StartingShrinks(q, next.value);
      StartAll(SetRunning(q, next.value, 0, ""), max)
  }

  /** The jobs started on the way, in that order. */
  ghost function Started(q: Queue, max: int): seq<int>
    decreases QueuedSet(q)
  {
    var next := NextRunnable(q, max, BusySlots(q));
    if next.None? then [] else
      StartingShrinks(q, next.value);
      [next.value] + Started(SetRunning(q, next.value, 0, ""), max)
  }

  /** The first start of a pass, and the rest of it. */
  lemma PassUnfolds(q: Queue, max: int)
    ensures var next := NextRunnable(q, max, BusySlots(q));
            if next.None? then StartAll(q, max) == q
            else var q' := SetRunning(q, next.value, 0, "");
                 StartAll(q, max) == StartAll(q', max) && QueuedSet(q') < QueuedSet(q)
  {
    var next := NextRunnable(q, max, BusySlots(q));
    if next.Some? {
      StartingShrinks(q, next.value);
    }
  }

  // ------------------------------------------------------------ strict order

  /** The ready jobs of a list, in order. */
  function ReadyIn(q: Queue, ids: seq<int>): seq<int> {
    if ids == [] then [] else
      ReadyIn(q, ids[..|ids| - 1]) + if Ready(q, ids[|ids| - 1]) then [ids[|ids| - 1]] else []
  }

  /** Starting a job makes no other job ready or unready. */
  lemma StartKeepsReady(q: Queue, id: int, x: int)
    requires IsQueued(q, id)
    ensures Ready(SetRunning(q, id, 0, ""), x) <==> x != id && Ready(q, x)
  {
    var q' := SetRunning(q, id, 0, "");
    assert forall d :: Settled(q', d) == Settled(q, d);
    assert x in q.recs ==> q'.recs[x].info.dependOn == q.recs[x].info.dependOn;
  }

  lemma {:induction false} ReadyAfterStart(q: Queue, id: int, ids: seq<int>)
    requires IsQueued(q, id)
    ensures ReadyIn(SetRunning(q, id, 0, ""), ids) == Without(ReadyIn(q, ids), {id})
  {
    if ids != [] {
      var front, last := ids[..|ids| - 1], ids[|ids| - 1];
      ReadyAfterStart(q, id, front);
      StartKeepsReady(q, id, last);
      if Ready(q, last) {
        WithoutLast(ReadyIn(q, front), last, {id});
      } else {
        assert ReadyIn(q, ids) == ReadyIn(q, front);
      }
    }
  }

  lemma {:induction false} ReadyMembers(q: Queue, ids: seq<int>, x: int)
    ensures x in ReadyIn(q, ids) <==> x in ids && Ready(q, x)
  {
    if ids != [] {
      ReadyMembers(q, ids[..|ids| - 1], x);
      assert ids == ids[..|ids| - 1] + [ids[|ids| - 1]];
    }
  }

  lemma {:induction false} ReadyNoDup(q: Queue, ids: seq<int>)
    requires NoDup(ids)
    ensures NoDup(ReadyIn(q, ids))
  {
    if ids != [] {
      var front, last := ids[..|ids| - 1], ids[|ids| - 1];
      ReadyNoDup(q, front);
      assert last !in front;
      ReadyMembers(q, front, last);
    }
  }

  lemma {:induction false} ReadyConcat(q: Queue, a: seq<int>, b: seq<int>)
    ensures ReadyIn(q, a + b) == ReadyIn(q, a) + ReadyIn(q, b)
  {
    if b == [] {
      assert a + b == a;
    } else {
      ReadyConcat(q, a, b[..|b| - 1]);
      assert (a + b)[..|a + b| - 1] == a + b[..|b| - 1];
    }
  }

  lemma {:induction false} NoneReady(q: Queue, ids: seq<int>)
    requires forall i | 0 <= i < |ids| :: !Ready(q, ids[i])
    ensures ReadyIn(q, ids) == []
  {
    if ids != [] {
      NoneReady(q, ids[..|ids| - 1]);
    }
  }

  // ------------------------------------------------------- what is picked, exactly

  function Need(q: Queue, id: int): int {
    if id in q.recs then q.recs[id].info.numSlots else 0
  }

  /** The job's need, cut down to the machine, fits beside `busy` busy slots. */
  predicate Fits(q: Queue, id: int, max: int, busy: int) {
    (if Need(q, id) > max then max else Need(q, id)) <= max - busy
  }

  /** The job picked is the first of the ready jobs, and it fits; no job is picked when nothing is
      ready or that first job does not fit. Nothing else holds a job back: neither busy slots beside
      which it fits, nor older jobs that wait for others. */
  lemma PickExactly(q: Queue, max: int, busy: int)
    ensures var ready := ReadyIn(q, q.order);
            NextRunnable(q, max, busy) ==
              if ready != [] && Fits(q, ready[0], max, busy) then Some(ready[0]) else None
  {
    var k := FirstReady(q, 0);
    if k < 0 {
      NoneReady(q, q.order);
    } else {
      FirstOfReady(q, k);
    }
  }

  lemma FirstOfReady(q: Queue, k: nat)
    requires k < |q.order| && Ready(q, q.order[k]) && forall i | 0 <= i < k :: !Ready(q, q.order[i])
    ensures ReadyIn(q, q.order) != [] && ReadyIn(q, q.order)[0] == q.order[k]
  {
    var id := q.order[k];
    var front, rest := q.order[..k], q.order[k + 1..];
    assert q.order == front + ([id] + rest);
    ReadyConcat(q, front, [id] + rest);
    ReadyConcat(q, [id], rest);
    assert [id][..0] == [] && ReadyIn(q, [id]) == [id];
    NoneReady(q, front);
  }

  /** How many of these needs are met one after the other, the first that does not fit ending it. */
  function Filled(needs: seq<int>, max: int, busy: int): (n: nat)
    ensures n <= |needs|
    decreases needs
  {
    if needs == [] || (if needs[0] > max then max else needs[0]) > max - busy then 0
    else 1 + Filled(needs[1..], max, busy + needs[0])
  }

  function NeedsOf(q: Queue, ids: seq<int>): seq<int> {
    seq(|ids|, i requires 0 <= i < |ids| => Need(q, ids[i]))
  }

  /** Starting the job picked takes the first one off the ready list. */
  lemma StartTakesFirst(q: Queue, max: int, busy: int, id: int)
    requires NoDup(q.order) && NextRunnable(q, max, busy) == Some(id)
    ensures ReadyIn(q, q.order) == [id] + ReadyIn(SetRunning(q, id, 0, ""), q.order)
  {
    var ready := ReadyIn(q, q.order);
    PickExactly(q, max, busy);
    ReadyAfterStart(q, id, q.order);
    ReadyNoDup(q, q.order);
    WithoutOne(ready, 0);
    assert ready == [ready[0]] + (ready[..0] + ready[1..]);
  }

  lemma StartKeepsNeeds(q: Queue, id: int)
    ensures forall x :: Need(SetRunning(q, id, 0, ""), x) == Need(q, x)
  {
  }

  lemma FilledFirst(q: Queue, q': Queue, id: int, rest: seq<int>, max: int, busy: int)
    requires id in q.recs && Fits(q, id, max, busy) && forall x :: Need(q', x) == Need(q, x)
    ensures Filled(NeedsOf(q, [id] + rest), max, busy) == 1 + Filled(NeedsOf(q', rest), max, busy + Need(q, id))
  {
    assert NeedsOf(q, [id] + rest)[1..] == NeedsOf(q', rest);
  }

  /** The ready jobs that fit one after the other. */
  ghost function FilledJobs(q: Queue, max: int): nat {
    Filled(NeedsOf(q, ReadyIn(q, q.order)), max, BusySlots(q))
  }

  ghost predicate Greedy(q: Queue, max: int) {
    Started(q, max) == ReadyIn(q, q.order)[..FilledJobs(q, max)]
  }

  lemma StartedFirst(q: Queue, max: int, id: int)
    requires NextRunnable(q, max, BusySlots(q)) == Some(id)
    ensures Started(q, max) == [id] + Started(SetRunning(q, id, 0, ""), max)
  {
    StartingShrinks(q, id);
  }

  lemma FilledStep(q: Queue, max: int, id: int)
    requires NoDup(q.order) && NextRunnable(q, max, BusySlots(q)) == Some(id)
    ensures FilledJobs(q, max) == 1 + FilledJobs(SetRunning(q, id, 0, ""), max)
  {
    var q' := SetRunning(q, id, 0, "");
    PickExactly(q, max, BusySlots(q));
    StartTakesFirst(q, max, BusySlots(q), id);
    StartAdds(q, id, max);
    StartKeepsNeeds(q, id);
    FilledFirst(q, q', id, ReadyIn(q', q.order), max, BusySlots(q));
  }

  lemma GreedyStep(q: Queue, max: int, id: int)
    requires NoDup(q.order) && NextRunnable(q, max, BusySlots(q)) == Some(id)
    requires Greedy(SetRunning(q, id, 0, ""), max)
    ensures Greedy(q, max)
  {
    StartTakesFirst(q, max, BusySlots(q), id);
    FilledStep(q, max, id);
    StartedFirst(q, max, id);
  }

  /** A pass starts exactly as many of the ready jobs, in list order, as fit one after the other beside
      what already runs. None that fits is left, and none passes another. */
  lemma {:induction false} PassIsGreedy(q: Queue, max: int)
    requires NoDup(q.order)
    ensures Started(q, max) == ReadyIn(q, q.order)[..FilledJobs(q, max)]
    decreases QueuedSet(q)
  {
    var next := NextRunnable(q, max, BusySlots(q));
    PickExactly(q, max, BusySlots(q));
    if next.Some? {
      StartingShrinks(q, next.value);
      PassIsGreedy(SetRunning(q, next.value, 0, ""), max);
      GreedyStep(q, max, next.value);
    }
  }

  /** A pass leaves no ready job behind, or the first one it leaves does not fit beside what then
      runs. */
  lemma {:induction false} PassIsMaximal(q: Queue, max: int)
    ensures var p := StartAll(q, max);
            var ready := ReadyIn(p, p.order);
            ready != [] ==> !Fits(p, ready[0], max, BusySlots(p))
    decreases QueuedSet(q)
  {
    var next := NextRunnable(q, max, BusySlots(q));
    PickExactly(q, max, BusySlots(q));
    if next.Some? {
      StartingShrinks(q, next.value);
      PassIsMaximal(SetRunning(q, next.value, 0, ""), max);
    }
  }

  /** Strict order: a pass starts the first so many of the ready jobs, in list order. None is
      passed over. */
  lemma PassStartsAPrefix(q: Queue, max: int)
    requires NoDup(q.order)
    ensures Started(q, max) <= ReadyIn(q, q.order)
  {
    PassIsGreedy(q, max);
  }
}
