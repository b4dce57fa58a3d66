/**
  Conservation of result channels: each channel `WaitFor` hands out is, at any time, in exactly
  one place - answered once, attached to one active job, or dropped with a removed job.
 */
module Waiters {
  import opened Collections
  import opened Protocol
  import opened QueueModel
  import opened QueueInvariant

  ghost predicate Answered(q: Queue, ch: nat) {
    exists k | 0 <= k < |q.deliveries| :: q.deliveries[k].channel == ch
  }

  ghost predicate Attached(q: Queue, ch: nat) {
    ch < |q.issued| && q.issued[ch].id in q.recs && ch in q.recs[q.issued[ch].id].waiters
  }

  predicate OneOf(a: bool, b: bool, c: bool) {
    (a && !b && !c) || (!a && b && !c) || (!a && !b && c)
  }

  ghost predicate Conserved(q: Queue) {
    forall ch | 0 <= ch < |q.issued| :: OneOf(Answered(q, ch), Attached(q, ch), ch in q.dropped)
  }

  ghost predicate AnsweredOnce(q: Queue) {
    && (forall i, j | 0 <= i < j < |q.deliveries| :: q.deliveries[i].channel != q.deliveries[j].channel)
    && (forall i | 0 <= i < |q.deliveries| :: q.deliveries[i].channel < |q.issued|)
  }

  ghost predicate WaitersOk(q: Queue, id: int)
    requires id in q.recs
  {
    var r := q.recs[id];
    && (r.info.state.Terminal() ==> r.waiters == [])
    && NoDup(r.waiters)
    && forall w | w in r.waiters :: w < |q.issued| && q.issued[w] == Issue(id, true)
  }

  ghost predicate WaiterInv(q: Queue) {
    && AnsweredOnce(q)
    && Conserved(q)
    && (forall id | id in q.recs :: WaitersOk(q, id))
    && (forall w | w in q.dropped :: w < |q.issued|)
  }

  /** The mutator left every channel alone: it only forgot jobs without waiters, added such jobs,
      or changed other fields. */
  ghost predicate ChannelsAlone(q: Queue, q': Queue) {
    && q'.issued == q.issued && q'.deliveries == q.deliveries && q'.dropped == q.dropped
    && (forall id | id in q.recs && id !in q'.recs :: q.recs[id].waiters == [])
    && (forall id | id in q'.recs ::
          q'.recs[id].waiters == (if id in q.recs then q.recs[id].waiters else []) &&
          (q'.recs[id].info.state.Terminal() ==> q'.recs[id].waiters == []))
  }

  lemma AloneKeeps(q: Queue, q': Queue)
    requires WaiterInv(q) && ChannelsAlone(q, q')
    ensures WaiterInv(q')
  {
    forall id | id in q'.recs ensures WaitersOk(q', id) {
      assert id in q.recs ==> WaitersOk(q, id);
    }
    forall ch | 0 <= ch < |q'.issued|
      ensures OneOf(Answered(q', ch), Attached(q', ch), ch in q'.dropped)
    {
      assert OneOf(Answered(q, ch), Attached(q, ch), ch in q.dropped);
      assert Answered(q, ch) == Answered(q', ch);
      assert Attached(q, ch) == Attached(q', ch);
    }
  }

  lemma AnswersSplit(q: Queue, waiters: seq<nat>, result: Result, ch: nat)
    ensures var q' := q.(deliveries := q.deliveries + Answers(waiters, result));
            Answered(q', ch) <==> Answered(q, ch) || ch in waiters
  {
    var more := Answers(waiters, result);
    var q' := q.(deliveries := q.deliveries + more);
    if Answered(q, ch) {
      var k :| 0 <= k < |q.deliveries| && q.deliveries[k].channel == ch;
      assert q'.deliveries[k].channel == ch;
    }
    if ch in waiters {
      var k :| 0 <= k < |waiters| && waiters[k] == ch;
      assert q'.deliveries[|q.deliveries| + k].channel == ch;
    }
    if Answered(q', ch) {
      var k :| 0 <= k < |q'.deliveries| && q'.deliveries[k].channel == ch;
      if k >= |q.deliveries| {
        assert waiters[k - |q.deliveries|] == ch;
      } else {
        assert q.deliveries[k].channel == ch;
      }
    }
  }

  /** An attached channel is neither answered nor dropped. */
  lemma AttachedAlone(q: Queue, id: int, w: nat)
    requires WaiterInv(q) && id in q.recs && w in q.recs[id].waiters
    ensures w < |q.issued| && Attached(q, w) && !Answered(q, w) && w !in q.dropped
  {
    assert WaitersOk(q, id);
    assert OneOf(Answered(q, w), Attached(q, w), w in q.dropped);
  }

  lemma ResolveAnswersOnce(q: Queue, id: int, state: JobState, result: Result)
    requires WaiterInv(q) && id in q.recs
    ensures AnsweredOnce(Resolve(q, id, state, result))
  {
    var waiters := q.recs[id].waiters;
    var q' := Resolve(q, id, state, result);
    var n := |q.deliveries|;
    assert WaitersOk(q, id);
    forall i, j | 0 <= i < j < |q'.deliveries|
      ensures q'.deliveries[i].channel != q'.deliveries[j].channel
    {
      if i < n <= j {
        AttachedAlone(q, id, waiters[j - n]);
        assert Answered(q, q.deliveries[i].channel);
      } else if n <= i {
        assert waiters[i - n] != waiters[j - n];
      }
    }
    forall i | 0 <= i < |q'.deliveries| ensures q'.deliveries[i].channel < |q'.issued| {
      if n <= i {
        AttachedAlone(q, id, waiters[i - n]);
      }
    }
  }

  lemma ResolveConserves(q: Queue, id: int, state: JobState, result: Result)
    requires WaiterInv(q) && id in q.recs
    ensures Conserved(Resolve(q, id, state, result))
  {
    var waiters := q.recs[id].waiters;
    var q' := Resolve(q, id, state, result);
    forall ch | 0 <= ch < |q'.issued|
      ensures OneOf(Answered(q', ch), Attached(q', ch), ch in q'.dropped)
    {
      AnswersSplit(q, waiters, result, ch);
      assert Answered(q', ch) <==> Answered(q, ch) || ch in waiters;
      assert OneOf(Answered(q, ch), Attached(q, ch), ch in q.dropped);
      if ch in waiters {
        AttachedAlone(q, id, ch);
        assert WaitersOk(q, id);
      }
    }
  }

  lemma ResolveKeeps(q: Queue, id: int, state: JobState, result: Result)
    requires WaiterInv(q)
    ensures WaiterInv(Resolve(q, id, state, result))
  {
    if id in q.recs {
      ResolveAnswersOnce(q, id, state, result);
      ResolveConserves(q, id, state, result);
      forall x | x in q.recs ensures WaitersOk(Resolve(q, id, state, result), x) {
        assert WaitersOk(q, x);
      }
    }
  }

  lemma RemoveKeeps(q: Queue, id: int)
    requires WaiterInv(q)
    ensures WaiterInv(Remove(q, id))
  {
    if CanRemove(q, id) {
      var q' := Remove(q, id);
      assert WaitersOk(q, id);
      forall x | x in q'.recs ensures WaitersOk(q', x) {
        assert WaitersOk(q, x);
      }
      forall ch | 0 <= ch < |q'.issued|
        ensures OneOf(Answered(q', ch), Attached(q', ch), ch in q'.dropped)
      {
        assert OneOf(Answered(q, ch), Attached(q, ch), ch in q.dropped);
        assert Answered(q, ch) == Answered(q', ch);
      }
    }
  }

  lemma WaitForKeeps(q: Queue, id: int)
    requires WaiterInv(q)
    ensures WaiterInv(WaitFor(q, id))
  {
    var q' := WaitFor(q, id);
    var n := |q.issued|;
    forall x | x in q'.recs ensures WaitersOk(q', x) {
      assert WaitersOk(q, x);
      assert n !in q.recs[x].waiters;
      assert q'.recs[x].waiters == q.recs[x].waiters || q'.recs[x].waiters == q.recs[x].waiters + [n];
    }
    forall ch | 0 <= ch < |q'.issued|
      ensures OneOf(Answered(q', ch), Attached(q', ch), ch in q'.dropped)
    {
      WaitForSplit(q, id, ch);
      if ch < n {
        assert OneOf(Answered(q, ch), Attached(q, ch), ch in q.dropped);
      }
    }
  }

  lemma WaitForSplit(q: Queue, id: int, ch: nat)
    requires WaiterInv(q)
    ensures var q', n := WaitFor(q, id), |q.issued|;
            && (Answered(q', ch) <==> Answered(q, ch) || (ch == n && !Attached(q', n)))
            && (ch < n ==> (Attached(q', ch) <==> Attached(q, ch)))
            && !Answered(q, n)
  {
    var q', n := WaitFor(q, id), |q.issued|;
    var live := id in q.recs && !q.recs[id].info.state.Terminal();
    if id in q.recs {
      assert WaitersOk(q, id);
    }
    if !live {
      var r := if id in q.recs then q.recs[id].info.result else START_FAILED;
      AnswersSplit(q, [n], r, ch);
      assert q'.deliveries == q.deliveries + Answers([n], r);
    }
  }

  /** Mutators that leave channels alone. */
  predicate Aloof(op: QueueOp) {
    !op.RemoveOp? && !op.WaitForOp? && !op.MarkFinishedOp? && !op.MarkSkippedOp?
  }

  lemma AddAlone(q: Queue, req: NewJobRequest, path: string)
    requires RepInv(q) && WaiterInv(q)
    ensures ChannelsAlone(q, Add(q, req, path))
  {
    NextIsFresh(q);
    forall id | id in q.recs ensures WaitersOk(q, id) {}
  }

  /** Forgetting jobs that have ended forgets no channel. */
  lemma DropAlone(q: Queue, gone: set<int>, q': Queue)
    requires WaiterInv(q) && forall id | id in gone && id in q.recs :: IsTerminal(q, id)
    requires q' == Drop(q, gone).(sessions := q'.sessions, dirty := q'.dirty)
    ensures ChannelsAlone(q, q')
  {
    forall id | id in q.recs ensures WaitersOk(q, id) {}
  }

  predicate DropsEnded(op: QueueOp) {
    op.ClearFinishedOp? || op.ClearSessionOp? || op.PruneOp? || op.DeleteSessionOp?
  }

  lemma PruneAlone(q: Queue, maxKeep: nat)
    requires WaiterInv(q) && |Terminals(q)| > maxKeep
    ensures ChannelsAlone(q, PruneFinished(q, maxKeep))
  {
    var gone := Elements(Terminals(q)[..|Terminals(q)| - maxKeep]);
    forall id | id in gone ensures IsTerminal(q, id) {
      TerminalsMembers(q, q.order, id);
    }
    DropAlone(q, gone, PruneFinished(q, maxKeep));
  }

  lemma DropsAlone(q: Queue, op: QueueOp)
    requires RepInv(q) && WaiterInv(q) && DropsEnded(op)
    ensures ChannelsAlone(q, Apply(q, op))
  {
    if Apply(q, op) == q {
      Unchanged(q, q);
    } else if op.PruneOp? {
      PruneAlone(q, op.maxKeep);
    } else {
      var gone := if op.ClearFinishedOp? then EndedJobs(q)
                  else if op.ClearSessionOp? then EndedIn(q, op.session) else JobsOf(q, op.name);
      forall id | id in gone ensures IsTerminal(q, id) {
        assert RecordOk(q, id);
      }
      DropAlone(q, gone, Apply(q, op));
    }
  }

  lemma Unchanged(q: Queue, q': Queue)
    requires WaiterInv(q) && q'.recs == q.recs
    requires q'.issued == q.issued && q'.deliveries == q.deliveries && q'.dropped == q.dropped
    ensures ChannelsAlone(q, q')
  {
    forall id | id in q.recs ensures WaitersOk(q, id) {}
  }

  /** One job's information changed, without ending it. */
  lemma InfoAlone(q: Queue, q': Queue, id: int)
    requires WaiterInv(q) && id in q.recs && id in q'.recs
    requires q' == q.(recs := q.recs[id := q'.recs[id]], dirty := q'.dirty)
    requires q'.recs[id].waiters == q.recs[id].waiters
    requires q'.recs[id].info.state.Terminal() ==> q.recs[id].info.state.Terminal()
    ensures ChannelsAlone(q, q')
  {
    forall x | x in q.recs ensures WaitersOk(q, x) {}
  }

  lemma RenameAlone(q: Queue, oldName: string, newName: string)
    requires WaiterInv(q)
    ensures ChannelsAlone(q, RenameSession(q, oldName, newName))
  {
    forall x | x in q.recs ensures WaitersOk(q, x) {}
  }

  lemma AloofLeavesAlone(q: Queue, op: QueueOp)
    requires RepInv(q) && WaiterInv(q) && Aloof(op)
    ensures ChannelsAlone(q, Apply(q, op))
  {
    if op.AddOp? {
      AddAlone(q, op.req, op.path);
    } else if DropsEnded(op) {
      DropsAlone(q, op);
    } else if op.RenameSessionOp? {
      RenameAlone(q, op.oldName, op.newName);
    } else if (op.SetRunningOp? || op.RequeueOp? || op.SetLabelOp? || op.SetTimeoutOp?) && op.id in q.recs {
      InfoAlone(q, Apply(q, op), op.id);
    } else {
      Unchanged(q, Apply(q, op));
    }
  }

  /** Every mutator keeps channels conserved. */
  lemma ApplyKeepsWaiters(q: Queue, op: QueueOp)
    requires RepInv(q) && WaiterInv(q)
    ensures WaiterInv(Apply(q, op))
  {
    match op {
      case RemoveOp(id) => RemoveKeeps(q, id);
      case WaitForOp(id) => WaitForKeeps(q, id);
      case MarkFinishedOp(id, result) => ResolveKeeps(q, id, Finished, result);
      case MarkSkippedOp(id) => ResolveKeeps(q, id, Skipped, SKIP_RESULT);
      case _ =>
        AloofLeavesAlone(q, op);
        AloneKeeps(q, Apply(q, op));
    }
  }

  /** Reset, too, keeps the representation invariant and loses track of no channel. */
  lemma ResetKeeps(q: Queue)
    requires RepInv(q) && WaiterInv(q)
    ensures RepInv(Reset(q)) && WaiterInv(Reset(q))
  {
    var q' := Reset(q);
    forall ch | 0 <= ch < |q'.issued|
      ensures OneOf(Answered(q', ch), Attached(q', ch), ch in q'.dropped)
    {
      assert OneOf(Answered(q, ch), Attached(q, ch), ch in q.dropped);
      assert Answered(q, ch) == Answered(q', ch);
      if ch in AttachedChannels(q) {
        var id :| id in q.recs && ch in q.recs[id].waiters;
        AttachedAlone(q, id, ch);
      }
    }
    forall w | w in AttachedChannels(q) ensures w < |q.issued| {
      var id :| id in q.recs && w in q.recs[id].waiters;
      AttachedAlone(q, id, w);
    }
  }
}
