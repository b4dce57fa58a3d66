/**
  What the list surgery of the mutators means for the order of jobs.
 */
module QueueOrder {
  import opened Collections
  import opened QueueModel
  import opened QueueInvariant

  /** Removing a job closes the gap and moves nothing else. */
  lemma RemoveClosesGap(q: Queue, id: int)
    requires Indexed(q) && id in q.recs && !IsRunning(q, id)
    ensures var k := Pos(q.order, id);
            k >= 0 && Remove(q, id).order == q.order[..k] + q.order[k + 1..]
  {
    assert id in q.order;
    WithoutOne(q.order, Pos(q.order, id));
  }

  // -------------------------------------------------------------- MakeUrgent

  /** The urgent job takes the first queued place; what lay between moves back by one. */
  lemma MakeUrgentShifts(q: Queue, id: int)
    requires Indexed(q) && IsQueued(q, id)
    ensures var k, f, now := Pos(q.order, id), FirstQueued(q, 0), MakeUrgent(q, id).order;
            && 0 <= f <= k && |now| == |q.order| && now[f] == id
            && (forall i | 0 <= i < |now| && (i < f || i > k) :: now[i] == q.order[i])
            && (forall i | f < i <= k :: now[i] == q.order[i - 1])
  {
    var k, f := Pos(q.order, id), FirstQueued(q, 0);
    assert IsQueued(q, q.order[k]);
    if f < k {
      ShiftedAt(q.order, f, k);
    }
  }

  /** It is then the first queued job, and so starts next if it is ready and fits. */
  lemma MakeUrgentIsNext(q: Queue, id: int, max: int, busy: int)
    requires Indexed(q) && Ready(q, id)
    ensures NextRunnable(MakeUrgent(q, id), max, busy) ==
            if Min(q.recs[id].info.numSlots, max) <= max - busy then Some(id) else None
  {
    MakeUrgentShifts(q, id);
    var q', f := MakeUrgent(q, id), FirstQueued(q, 0);
    assert Ready(q', id) && q'.order[f] == id;
    forall i | 0 <= i < f ensures !Ready(q', q'.order[i]) {
      assert !IsQueued(q, q.order[i]);
    }
    assert FirstReady(q', 0) == f;
  }

  // -------------------------------------------------------------------- Swap

  lemma SwapExchanges(q: Queue, id1: int, id2: int)
    requires Indexed(q) && id1 in q.recs && id2 in q.recs
    ensures var i, j, now := Pos(q.order, id1), Pos(q.order, id2), Swap(q, id1, id2).order;
            && |now| == |q.order| && now[i] == id2 && now[j] == id1
            && forall k | 0 <= k < |now| && k != i && k != j :: now[k] == q.order[k]
  {
  }

  lemma PosUnique(s: seq<int>, k: nat)
    requires NoDup(s) && k < |s|
    ensures Pos(s, s[k]) == k
  {
    var p := Pos(s, s[k]);
    assert s[p] == s[k];
  }

  /** Swapping twice restores the order. */
  lemma SwapUndoesSwap(q: Queue, id1: int, id2: int)
    requires Indexed(q) && id1 in q.recs && id2 in q.recs
    ensures Swap(Swap(q, id1, id2), id1, id2).order == q.order
  {
    var i, j, now := Pos(q.order, id1), Pos(q.order, id2), Swap(q, id1, id2);
    SwapIndexed(q, id1, id2);
    SwapExchanges(q, id1, id2);
    PosUnique(now.order, j);
    PosUnique(now.order, i);
  }

  // ------------------------------------------------------------------ pruning

  /** The listed jobs that have not ended, in list order. */
  function ActivesIn(q: Queue, ids: seq<int>): seq<int> {
    if ids == [] then [] else
      var last := ids[|ids| - 1];
      ActivesIn(q, ids[..|ids| - 1]) + if IsTerminal(q, last) then [] else [last]
  }

  lemma {:induction false} TerminalsNoDup(q: Queue, ids: seq<int>)
    requires NoDup(ids)
    ensures NoDup(TerminalsIn(q, ids))
  {
    if ids != [] {
      var front, last := ids[..|ids| - 1], ids[|ids| - 1];
      TerminalsNoDup(q, front);
      assert last !in front;
      TerminalsMembers(q, front, last);
    }
  }

  lemma WithoutLast(s: seq<int>, y: int, gone: set<int>)
    ensures Without(s + [y], gone) == if y in gone then Without(s, gone) else Without(s, gone) + [y]
  {
    assert (s + [y])[..|s|] == s;
  }

  lemma TerminalsLast(q: Queue, ids: seq<int>, y: int)
    ensures TerminalsIn(q, ids + [y]) == if IsTerminal(q, y) then TerminalsIn(q, ids) + [y] else TerminalsIn(q, ids)
  {
    assert (ids + [y])[..|ids|] == ids;
  }

  lemma ActivesLast(q: Queue, ids: seq<int>, y: int)
    ensures ActivesIn(q, ids + [y]) == if IsTerminal(q, y) then ActivesIn(q, ids) else ActivesIn(q, ids) + [y]
  {
    assert (ids + [y])[..|ids|] == ids;
  }

  /** `p` agrees with `q` on the jobs outside `gone`, all of which have ended in `q`. */
  ghost predicate Forgot(q: Queue, p: Queue, gone: set<int>) {
    && (forall id | id in gone :: IsTerminal(q, id))
    && (forall id :: id !in gone ==> IsTerminal(p, id) == IsTerminal(q, id))
  }

  lemma TerminalsForgottenStep(q: Queue, p: Queue, front: seq<int>, y: int, gone: set<int>)
    requires y in gone ==> IsTerminal(q, y)
    requires y !in gone ==> IsTerminal(p, y) == IsTerminal(q, y)
    requires TerminalsIn(p, Without(front, gone)) == Without(TerminalsIn(q, front), gone)
    ensures TerminalsIn(p, Without(front + [y], gone)) == Without(TerminalsIn(q, front + [y]), gone)
  {
    WithoutLast(front, y, gone);
    TerminalsLast(q, front, y);
    WithoutLast(TerminalsIn(q, front), y, gone);
    TerminalsLast(p, Without(front, gone), y);
  }

  /** Forgetting some ended jobs removes just them from the ended jobs. */
  lemma {:induction false} TerminalsForgotten(q: Queue, p: Queue, ids: seq<int>, gone: set<int>)
    requires Forgot(q, p, gone)
    ensures TerminalsIn(p, Without(ids, gone)) == Without(TerminalsIn(q, ids), gone)
  {
    if ids != [] {
      var front, last := ids[..|ids| - 1], ids[|ids| - 1];
      TerminalsForgotten(q, p, front, gone);
      TerminalsForgottenStep(q, p, front, last, gone);
      assert ids == front + [last];
    }
  }

  lemma ActivesForgottenStep(q: Queue, p: Queue, front: seq<int>, y: int, gone: set<int>)
    requires y in gone ==> IsTerminal(q, y)
    requires y !in gone ==> IsTerminal(p, y) == IsTerminal(q, y)
    requires ActivesIn(p, Without(front, gone)) == ActivesIn(q, front)
    ensures ActivesIn(p, Without(front + [y], gone)) == ActivesIn(q, front + [y])
  {
    WithoutLast(front, y, gone);
    ActivesLast(q, front, y);
    ActivesLast(p, Without(front, gone), y);
  }

  /** And removes no active job. */
  lemma {:induction false} ActivesForgotten(q: Queue, p: Queue, ids: seq<int>, gone: set<int>)
    requires Forgot(q, p, gone)
    ensures ActivesIn(p, Without(ids, gone)) == ActivesIn(q, ids)
  {
    if ids != [] {
      var front, last := ids[..|ids| - 1], ids[|ids| - 1];
      ActivesForgotten(q, p, front, gone);
      ActivesForgottenStep(q, p, front, last, gone);
      assert ids == front + [last];
    }
  }

  lemma {:induction false} WithoutPrefix(s: seq<int>, m: nat)
    requires NoDup(s) && m <= |s|
    ensures Without(s, Elements(s[..m])) == s[m..]
  {
    if m == |s| {
      WithoutEverything(s, Elements(s[..m]));
    } else {
      var front, last := s[..|s| - 1], s[|s| - 1];
      WithoutPrefix(front, m);
      assert front[..m] == s[..m] && last !in s[..m];
      assert s[m..] == front[m..] + [last];
    }
  }

  lemma {:induction false} WithoutEverything(s: seq<int>, gone: set<int>)
    requires forall x | x in s :: x in gone
    ensures Without(s, gone) == []
  {
    if s != [] {
      var front, last := s[..|s| - 1], s[|s| - 1];
      assert s == front + [last] && last in s;
      WithoutEverything(front, gone);
    }
  }

  lemma PrunedAreForgotten(q: Queue, maxKeep: nat)
    requires |Terminals(q)| > maxKeep
    ensures Forgot(q, PruneFinished(q, maxKeep), Elements(Terminals(q)[..|Terminals(q)| - maxKeep]))
  {
    var ended := Terminals(q);
    var gone := Elements(ended[..|ended| - maxKeep]);
    forall id | id in gone ensures IsTerminal(q, id) {
      TerminalsMembers(q, q.order, id);
    }
  }

  /** Pruning keeps exactly the last `maxKeep` ended jobs of the list, and every active job. */
  lemma PruneKeepsLatest(q: Queue, maxKeep: nat)
    requires Indexed(q)
    ensures var q', ended := PruneFinished(q, maxKeep), Terminals(q);
            && Terminals(q') == (if |ended| <= maxKeep then ended else ended[|ended| - maxKeep..])
            && ActivesIn(q', q'.order) == ActivesIn(q, q.order)
  {
    var q', ended := PruneFinished(q, maxKeep), Terminals(q);
    if |ended| > maxKeep {
      var gone := Elements(ended[..|ended| - maxKeep]);
      PrunedAreForgotten(q, maxKeep);
      TerminalsForgotten(q, q', q.order, gone);
      ActivesForgotten(q, q', q.order, gone);
      TerminalsNoDup(q, q.order);
      WithoutPrefix(ended, |ended| - maxKeep);
    }
  }
}
