/**
  The job queue as the daemon holds it: a list of job objects and an id index over the same
  objects, updated in place. Every method is one critical section of the queue's lock and is
  proved against the function of the same name on the queue's value.
 */
module JobQueues {
  import opened Collections
  import opened Protocol
  import M = QueueModel

  class Job {
    const id: int
    const commandArgs: seq<string>
    const requireElevel: bool
    var info: JobInfo
    var waiters: seq<nat>

    constructor (r: Record)
      ensures Rec() == r
    {
      id, commandArgs, requireElevel := r.id, r.commandArgs, r.requireElevel;
      info, waiters := r.info, r.waiters;
    }

    function Rec(): Record
      reads this
    {
      Record(id, info, commandArgs, requireElevel, waiters)
    }
  }

  function Ids(jobs: seq<Job>): (ids: seq<int>)
    ensures |ids| == |jobs| && forall i | 0 <= i < |jobs| :: ids[i] == jobs[i].id
  {
    seq(|jobs|, i requires 0 <= i < |jobs| => jobs[i].id)
  }

  /** The list and the index hold the same objects, each under its own id and once. */
  ghost predicate Coherent(jobs: seq<Job>, byID: map<int, Job>) {
    && NoDup(jobs)
    && (forall j | j in jobs :: j.id in byID && byID[j.id] == j)
    && (forall id | id in byID :: byID[id].id == id && byID[id] in jobs)
  }

  ghost predicate SameSplit(jobs: seq<Job>, gone: set<int>, goneJobs: set<Job>) {
    forall j | j in jobs :: j in goneJobs <==> j.id in gone
  }

  lemma {:induction false} KeptIds(jobs: seq<Job>, gone: set<int>, goneJobs: set<Job>)
    requires SameSplit(jobs, gone, goneJobs)
    ensures Ids(Without(jobs, goneJobs)) == Without(Ids(jobs), gone)
  {
    if jobs != [] {
      KeptIds(jobs[..|jobs| - 1], gone, goneJobs);
      assert Ids(jobs)[..|jobs| - 1] == Ids(jobs[..|jobs| - 1]);
    }
  }

  lemma KeptCoherent(jobs: seq<Job>, byID: map<int, Job>, gone: set<int>, goneJobs: set<Job>)
    requires Coherent(jobs, byID) && SameSplit(jobs, gone, goneJobs)
    ensures Coherent(Without(jobs, goneJobs), byID - gone)
  {
    WithoutNoDup(jobs, goneJobs);
    WithoutAll(jobs, goneJobs);
  }

  lemma RemovedAt(jobs: seq<Job>, byID: map<int, Job>, i: nat)
    requires Coherent(jobs, byID) && i < |jobs|
    ensures Coherent(jobs[..i] + jobs[i + 1..], byID - {jobs[i].id})
    ensures Ids(jobs[..i] + jobs[i + 1..]) == Without(Ids(jobs), {jobs[i].id})
  {
    assert jobs[i] in jobs;
    WithoutOne(jobs, i);
    KeptIds(jobs, {jobs[i].id}, {jobs[i]});
    KeptCoherent(jobs, byID, {jobs[i].id}, {jobs[i]});
  }

  lemma ReorderCoherent(jobs: seq<Job>, byID: map<int, Job>, now: seq<Job>)
    requires Coherent(jobs, byID) && NoDup(now) && SameElements(now, jobs)
    ensures Coherent(now, byID)
  {
  }

  lemma ShiftedIds(jobs: seq<Job>, f: nat, k: nat)
    requires f < k < |jobs|
    ensures Ids(Shifted(jobs, f, k)) == Shifted(Ids(jobs), f, k)
  {
    ShiftedAt(jobs, f, k);
    ShiftedAt(Ids(jobs), f, k);
  }

  lemma SwappedIds(jobs: seq<Job>, i: nat, k: nat)
    requires i < |jobs| && k < |jobs|
    ensures Ids(Swapped(jobs, i, k)) == Swapped(Ids(jobs), i, k)
  {
  }

  /** Cutting an element out and splicing it back in further left is a shift. */
  lemma CutAndSplice(jobs: seq<Job>, f: nat, k: nat)
    requires f < k < |jobs|
    ensures var cut := jobs[..k] + jobs[k + 1..];
            cut[..f] + [jobs[k]] + cut[f..] == Shifted(jobs, f, k)
  {
    var cut := jobs[..k] + jobs[k + 1..];
    assert cut[f..] == jobs[f..k] + jobs[k + 1..];
  }

  lemma AppendCoherent(jobs: seq<Job>, byID: map<int, Job>, j: Job)
    requires Coherent(jobs, byID) && j.id !in byID
    ensures Coherent(jobs + [j], byID[j.id := j])
    ensures Ids(jobs + [j]) == Ids(jobs) + [j.id]
  {
  }

  lemma DistinctIds(jobs: seq<Job>, byID: map<int, Job>)
    requires Coherent(jobs, byID)
    ensures NoDup(Ids(jobs))
    ensures forall id :: id in Ids(jobs) <==> id in byID
  {
    forall id ensures id in Ids(jobs) <==> id in byID {
      if id in byID {
        var k :| 0 <= k < |jobs| && jobs[k] == byID[id];
        assert Ids(jobs)[k] == id;
      }
    }
    forall i, k | 0 <= i < k < |jobs| ensures Ids(jobs)[i] != Ids(jobs)[k] {
      assert jobs[i] in jobs && jobs[k] in jobs;
    }
  }

  /** The jobs whose ids are not in `gone`, in list order. */
  method Remaining(jobs: seq<Job>, gone: set<int>, ghost goneJobs: set<Job>) returns (remaining: seq<Job>)
    requires SameSplit(jobs, gone, goneJobs)
    ensures remaining == Without(jobs, goneJobs)
  {
    remaining := [];
    var i := 0;
    while i < |jobs|
      invariant 0 <= i <= |jobs|
      invariant remaining == Without(jobs[..i], goneJobs)
    {
      WithoutSnoc(jobs, i, goneJobs);
      assert jobs[i] in jobs;
      if jobs[i].id !in gone {
        remaining := remaining + [jobs[i]];
      }
      i := i + 1;
    }
    assert jobs[..i] == jobs;
  }

  class JobQueue {
    var jobs: seq<Job>
    var byID: map<int, Job>
    var nextID: int
    var lastID: int
    var sessions: map<string, string>
    var groups: set<string>
    var dirty: bool
    var issued: seq<Issue>
    var deliveries: seq<Delivery>
    ghost var dropped: set<nat>

    ghost predicate Valid()
      reads `jobs, `byID
    {
      Coherent(jobs, byID)
    }

    ghost function View(): M.Queue
      requires Valid()
      reads this, jobs
    {
      M.Queue(Ids(jobs), Recs(), nextID, lastID, sessions, groups, dirty, issued, deliveries, dropped)
    }

    ghost function Recs(): map<int, Record>
      requires Valid()
      reads `jobs, `byID, jobs
    {
      map id | id in byID :: byID[id].Rec()
    }

    constructor ()
      ensures Valid() && View() == M.EMPTY
      ensures jobs == []
    {
      jobs, byID, nextID, lastID := [], map[], 0, 0;
      sessions, groups, dirty := map[M.DEFAULT := M.DEFAULT], {M.DEFAULT}, false;
      issued, deliveries, dropped := [], [], {};
      new;
      assert Recs() == map[] && Ids(jobs) == [] && groups == {M.DEFAULT};
      assert View().sessions == M.EMPTY.sessions && View().groups == M.EMPTY.groups;
    }

    /** The record of an untouched object has not changed. */
    twostate lemma Untouched(id: int)
      requires old(Valid()) && Valid() && id in old(byID) && id in byID && byID[id] == old(byID)[id]
      requires unchanged(byID[id])
      ensures Recs()[id] == old(Recs())[id]
    {
    }

    /** Updating one job object in place updates one record. */
    twostate lemma Changed(j: Job)
      requires old(Valid()) && j in jobs && jobs == old(jobs) && byID == old(byID)
      requires forall o | o in jobs && o != j :: unchanged(o)
      ensures Valid() && Recs() == old(Recs())[j.id := j.Rec()]
    {
      forall id | id in byID && id != j.id ensures Recs()[id] == old(Recs())[id] {
        assert byID[id] in jobs;
        Untouched(id);
      }
      assert Recs().Keys == old(Recs()).Keys;
    }

    twostate lemma Appended(new j: Job)
      requires old(Valid()) && Valid() && byID == old(byID)[j.id := j] && j.id !in old(byID)
      requires forall o | o in old(jobs) :: unchanged(o)
      ensures Recs() == old(Recs())[j.id := j.Rec()]
    {
      forall id | id in old(byID) ensures Recs()[id] == old(Recs())[id] {
        assert old(byID)[id] in old(jobs);
        Untouched(id);
      }
      assert Recs().Keys == old(Recs()).Keys + {j.id};
    }

    /** Forgetting or reordering leaves the remaining records alone. */
    twostate lemma Dropped(gone: set<int>)
      requires old(Valid()) && Valid() && byID == old(byID) - gone
      requires forall o | o in old(jobs) :: unchanged(o)
      ensures Recs() == old(Recs()) - gone
    {
      forall id | id in byID ensures Recs()[id] == old(Recs())[id] {
        assert old(byID)[id] in old(jobs);
        Untouched(id);
      }
      assert Recs().Keys == old(Recs()).Keys - gone;
    }

    twostate lemma Reordered()
      requires old(Valid()) && Valid() && byID == old(byID)
      requires forall o | o in old(jobs) :: unchanged(o)
      ensures Recs() == old(Recs())
    {
      assert byID == old(byID) - {};
      Dropped({});
    }

    /** Appends a new object to the list and enters it in the index. */
    method Append(j: Job)
      requires Valid() && j.id !in byID
      modifies `jobs, `byID
      ensures Valid() && jobs == old(jobs) + [j]
      ensures Ids(jobs) == old(Ids(jobs)) + [j.id] && Recs() == old(Recs())[j.id := j.Rec()]
    {
      AppendCoherent(jobs, byID, j);
      jobs := jobs + [j];
      byID := byID[j.id := j];
      Appended(j);
    }

    /** Replaces the list by a rearrangement of itself. */
    method Rearrange(list: seq<Job>)
      requires Valid() && NoDup(list) && SameElements(list, jobs)
      modifies `jobs
      ensures Valid() && jobs == list && Recs() == old(Recs())
    {
      ReorderCoherent(jobs, byID, list);
      jobs := list;
      Reordered();
    }

    // ------------------------------------------------------------ one job

    method Add(req: NewJobRequest, path: string) returns (j: Job)
      requires Valid() && nextID !in byID
      modifies `jobs, `byID, `nextID, `lastID, `sessions, `dirty
      ensures Valid() && fresh(j) && jobs == old(jobs) + [j]
      ensures View() == M.Add(old(View()), req, path)
    {
      ghost var q := View();
      j := new Job(M.NewRecord(req, nextID, path));
      assert Recs() == q.recs;
      CountIn(j.info.session);
      Append(j);
    }

    /** Registers the session of a new job and moves the id counters on. */
    method CountIn(session: string)
      requires Valid()
      modifies `nextID, `lastID, `sessions, `dirty
      ensures Valid() && Recs() == old(Recs()) && dirty && lastID == old(nextID) && nextID == old(nextID) + 1
      ensures sessions == if session in old(sessions) then old(sessions) else old(sessions)[session := M.DEFAULT]
    {
      if session !in sessions {
        sessions := sessions[session := M.DEFAULT];
      }
      dirty := true;
      lastID := nextID;
      nextID := nextID + 1;
    }

    method Remove(id: int) returns (ok: bool)
      requires Valid()
      modifies this
      ensures Valid() && ok == M.CanRemove(old(View()), id)
      ensures View() == M.Remove(old(View()), id)
    {
      if id !in byID || byID[id].info.state.Running? {
        return false;
      }
      dirty := true;
      dropped := dropped + Elements(byID[id].waiters);
      byID := byID - {id};
      var i := IndexOf(id);
      assert i >= 0 by {
        DistinctIds(jobs, old(byID));
      }
      jobs := jobs[..i] + jobs[i + 1..];
      RemovedAt(old(jobs), old(byID), i);
      Dropped({id});
      return true;
    }

    method SetRunning(id: int, pid: int, out: string)
      requires Valid()
      modifies this`dirty, jobs
      ensures Valid() && View() == M.SetRunning(old(View()), id, pid, out)
    {
      if id in byID {
        var j := byID[id];
        j.info := j.info.(state := Running, pid := pid);
        if out != "" {
          j.info := j.info.(outputFilename := out);
        }
        dirty := true;
        Changed(j);
      }
    }

    method SetLabel(id: int, text: string) returns (ok: bool)
      requires Valid()
      modifies this`dirty, jobs
      ensures Valid() && View() == M.SetLabel(old(View()), id, text)
      ensures ok == (id in byID)
    {
      if id !in byID {
        return false;
      }
      var j := byID[id];
      j.info := j.info.(jobLabel := text);
      dirty := true;
      Changed(j);
      return true;
    }

    method SetTimeout(id: int, timeoutMS: int) returns (ok: bool)
      requires Valid()
      modifies this`dirty, jobs
      ensures Valid() && View() == M.SetTimeout(old(View()), id, timeoutMS)
      ensures ok == (id in byID)
    {
      if id !in byID {
        return false;
      }
      var j := byID[id];
      j.info := j.info.(timeoutMS := timeoutMS);
      dirty := true;
      Changed(j);
      return true;
    }

    /** Sends `result` on every channel taken from an ended job. */
    method Answer(waiters: seq<nat>, result: Result)
      modifies this`deliveries
      ensures deliveries == old(deliveries) + M.Answers(waiters, result)
    {
      var i := 0;
      while i < |waiters|
        invariant 0 <= i <= |waiters|
        invariant deliveries == old(deliveries) + M.Answers(waiters[..i], result)
      {
        deliveries := deliveries + [Delivery(waiters[i], result)];
        i := i + 1;
      }
      assert waiters[..i] == waiters;
    }

    method MarkFinished(id: int, result: Result)
      requires Valid()
      modifies this`dirty, this`deliveries, jobs
      ensures Valid() && View() == M.MarkFinished(old(View()), id, result)
    {
      if id in byID {
        var j := byID[id];
        j.info := j.info.(state := Finished, result := result);
        dirty := true;
        var waiters := j.waiters;
        j.waiters := [];
        Answer(waiters, result);
        Changed(j);
      }
    }

    method MarkSkipped(id: int)
      requires Valid()
      modifies this`dirty, this`deliveries, jobs
      ensures Valid() && View() == M.MarkSkipped(old(View()), id)
    {
      if id in byID {
        var j := byID[id];
        j.info := j.info.(state := Skipped, result := SKIP_RESULT);
        dirty := true;
        var waiters := j.waiters;
        j.waiters := [];
        Answer(waiters, j.info.result);
        Changed(j);
      }
    }

    method RequeueForRetry(id: int) returns (ok: bool)
      requires Valid()
      modifies this`dirty, jobs
      ensures Valid() && ok == M.CanRetry(old(View()), id)
      ensures View() == M.RequeueForRetry(old(View()), id)
    {
      if id !in byID || byID[id].info.attempt >= byID[id].info.retries {
        return false;
      }
      var j := byID[id];
      j.info := j.info.(attempt := j.info.attempt + 1, state := Queued, pid := 0);
      dirty := true;
      Changed(j);
      return true;
    }

    method WaitFor(id: int) returns (ch: nat)
      requires Valid()
      modifies this`issued, this`deliveries, jobs
      ensures Valid() && ch == |old(issued)|
      ensures View() == M.WaitFor(old(View()), id)
    {
      ch := |issued|;
      issued := issued + [Issue(id, id in byID)];
      if id !in byID {
        deliveries := deliveries + [Delivery(ch, START_FAILED)];
        return;
      }
      var j := byID[id];
      if j.info.state.Finished? || j.info.state.Skipped? {
        deliveries := deliveries + [Delivery(ch, j.info.result)];
        return;
      }
      j.waiters := j.waiters + [ch];
      Changed(j);
    }

    // ---------------------------------------------------------- many jobs

    /** Rebuilds the list without the jobs in `gone` and deletes them from the index. */
    method Sweep(gone: set<int>)
      requires Valid()
      modifies this`jobs, this`byID
      ensures Valid() && View() == M.Drop(old(View()), gone)
    {
      ghost var goneJobs := set j | j in jobs && j.id in gone;
      KeptIds(jobs, gone, goneJobs);
      KeptCoherent(jobs, byID, gone, goneJobs);
      var remaining := Remaining(jobs, gone, goneJobs);
      jobs, byID := remaining, byID - gone;
      Dropped(gone);
    }

    /** Notes that the queue has changed since it was last saved. */
    method MarkDirty()
      requires Valid()
      modifies `dirty
      ensures Valid() && View() == old(View()).(dirty := true)
    {
      ghost var q := View();
      dirty := true;
      assert Recs() == q.recs;
    }

    /** Drops the jobs and marks the queue changed if there were any. */
    method Forget(gone: set<int>)
      requires Valid()
      modifies this`jobs, this`byID, this`dirty
      ensures Valid() && View() == M.Forget(old(View()), gone)
    {
      ghost var q := View();
      Sweep(gone);
      ghost var swept := View();
      dirty := dirty || gone != {};
      assert Recs() == swept.recs;
      assert View() == swept.(dirty := q.dirty || gone != {});
    }

    method ClearFinished() returns (count: nat)
      requires Valid()
      modifies this`jobs, this`byID, this`dirty
      ensures Valid() && View() == M.ClearFinished(old(View()))
      ensures count == |M.EndedJobs(old(View()))|
    {
      var gone := set id | id in byID && byID[id].info.state.Terminal();
      assert gone == M.EndedJobs(View());
      Forget(gone);
      return |gone|;
    }

    method EndedIn(session: string) returns (gone: set<int>)
      requires Valid()
      ensures gone == M.EndedIn(View(), session)
    {
      gone := set id | id in byID && byID[id].info.session == session && byID[id].info.state.Terminal();
      forall id ensures id in gone <==> id in M.EndedIn(View(), session) {
        assert id in byID ==> View().recs[id] == byID[id].Rec();
      }
    }

    method ClearFinishedInSession(session: string) returns (count: nat)
      requires Valid()
      modifies this`jobs, this`byID, this`dirty
      ensures Valid() && View() == M.ClearFinishedInSession(old(View()), session)
      ensures count == |M.EndedIn(old(View()), session)|
    {
      var gone := EndedIn(session);
      Forget(gone);
      return |gone|;
    }

    /** The ids of the jobs that have ended, in list order. */
    method FinishedIds() returns (finished: seq<int>)
      requires Valid()
      ensures finished == M.Terminals(View())
    {
      ghost var q := View();
      finished := [];
      var i := 0;
      while i < |jobs|
        invariant 0 <= i <= |jobs|
        invariant finished == M.TerminalsIn(q, q.order[..i])
      {
        assert q.order[..i + 1][..i] == q.order[..i];
        assert jobs[i] in jobs;
        if jobs[i].info.state.Terminal() {
          finished := finished + [jobs[i].id];
        }
        i := i + 1;
      }
      assert q.order[..i] == q.order;
    }

    method PruneFinished(maxKeep: nat)
      requires Valid()
      modifies this`jobs, this`byID, this`dirty
      ensures Valid() && View() == M.PruneFinished(old(View()), maxKeep)
    {
      var finished := FinishedIds();
      var toRemove := |finished| - maxKeep;
      if toRemove <= 0 {
        return;
      }
      Forget(Elements(finished[..toRemove]));
    }

    method Reset()
      requires Valid()
      modifies this
      ensures Valid() && View() == M.Reset(old(View()))
    {
      dropped := dropped + M.AttachedChannels(View());
      jobs, byID := [], map[];
      sessions, groups := map[M.DEFAULT := M.DEFAULT], {M.DEFAULT};
      nextID, lastID := 0, 0;
      dirty := true;
      assert Recs() == map[] && Ids(jobs) == [];
    }

    // ---------------------------------------------------------- list order

    method MakeUrgent(id: int) returns (ok: bool)
      requires Valid()
      modifies this`jobs, this`dirty
      ensures Valid() && ok == M.CanMakeUrgent(old(View()), id)
      ensures View() == M.MakeUrgent(old(View()), id)
    {
      ghost var q := View();
      var idx := IndexOf(id);
      if idx < 0 {
        return false;
      }
      var j := jobs[idx];
      assert j in jobs;
      if !j.info.state.Queued? {
        return false;
      }
      var firstQueued := FirstQueuedIndex();
      if firstQueued == idx {
        return true;
      }
      assert 0 <= firstQueued < idx;
      MarkDirty();
      MoveForward(firstQueued, idx);
      return true;
    }

    /** Cuts the job at `idx` out of the list and splices it in again at `firstQueued`. */
    method MoveForward(firstQueued: nat, idx: nat)
      requires Valid() && firstQueued < idx < |jobs|
      modifies `jobs
      ensures Valid() && View() == old(View()).(order := Shifted(old(View()).order, firstQueued, idx))
    {
      ghost var q := View();
      var j := jobs[idx];
      var list := jobs[..idx] + jobs[idx + 1..];
      var rear := list[firstQueued..];
      list := list[..firstQueued] + [j];
      list := list + rear;
      CutAndSplice(jobs, firstQueued, idx);
      ShiftedIds(jobs, firstQueued, idx);
      ShiftIsPermutation(jobs, firstQueued, idx);
      Rearrange(list);
    }

    /** The position of the first queued job, or -1. */
    method FirstQueuedIndex() returns (k: int)
      requires Valid()
      ensures k == M.FirstQueued(View(), 0)
    {
      ghost var q := View();
      k := 0;
      while k < |jobs|
        invariant 0 <= k <= |jobs|
        invariant M.FirstQueued(q, 0) == M.FirstQueued(q, k)
      {
        assert jobs[k] in jobs;
        if jobs[k].info.state.Queued? {
          return;
        }
        k := k + 1;
      }
      return -1;
    }

    /** The position of the job with this id, or -1. */
    method IndexOf(id: int) returns (idx: int)
      ensures idx == Pos(Ids(jobs), id)
    {
      idx := 0;
      while idx < |jobs|
        invariant 0 <= idx <= |jobs|
        invariant id !in Ids(jobs)[..idx]
      {
        if jobs[idx].id == id {
          return;
        }
        assert Ids(jobs)[..idx + 1] == Ids(jobs)[..idx] + [jobs[idx].id];
        idx := idx + 1;
      }
      assert Ids(jobs)[..idx] == Ids(jobs);
      return -1;
    }

    method Swap(id1: int, id2: int) returns (ok: bool)
      requires Valid()
      modifies this`jobs, this`dirty
      ensures Valid() && ok == M.CanSwap(old(View()), id1, id2)
      ensures View() == M.Swap(old(View()), id1, id2)
    {
      var idx1 := IndexOf(id1);
      var idx2 := IndexOf(id2);
      if idx1 < 0 || idx2 < 0 {
        return false;
      }
      SwappedIds(jobs, idx1, idx2);
      SwapIsPermutation(jobs, idx1, idx2);
      Rearrange(jobs[idx1 := jobs[idx2]][idx2 := jobs[idx1]]);
      dirty := true;
      return true;
    }

    // ------------------------------------------------- sessions and groups

    method CreateSession(name: string) returns (ok: bool)
      requires Valid()
      modifies `sessions, `dirty
      ensures Valid() && ok == M.CanCreateSession(old(View()), name)
      ensures View() == M.CreateSession(old(View()), name)
    {
      if name in sessions {
        return false;
      }
      sessions := sessions[name := M.DEFAULT];
      dirty := true;
      return true;
    }

    method RenameSession(oldName: string, newName: string) returns (ok: bool)
      requires Valid()
      modifies `sessions, `dirty, jobs
      ensures Valid() && ok == M.CanRenameSession(old(View()), oldName, newName)
      ensures View() == M.RenameSession(old(View()), oldName, newName)
    {
      if oldName !in sessions || oldName == M.DEFAULT || newName in sessions {
        return false;
      }
      var group := sessions[oldName];
      sessions := (sessions - {oldName})[newName := group];
      dirty := true;
      MoveJobs(oldName, newName);
      return true;
    }

    /** Renames the session of every job that belongs to it. */
    method MoveJobs(oldName: string, newName: string)
      requires Valid()
      modifies jobs
      ensures Recs() == map id | id in old(Recs()) :: M.Moved(old(Recs())[id], oldName, newName)
    {
      var i := 0;
      while i < |jobs|
        invariant 0 <= i <= |jobs|
        invariant forall k | 0 <= k < i :: jobs[k].Rec() == M.Moved(old(jobs[k].Rec()), oldName, newName)
        invariant forall k | i <= k < |jobs| :: unchanged(jobs[k])
      {
        if jobs[i].info.session == oldName {
          jobs[i].info := jobs[i].info.(session := newName);
        }
        i := i + 1;
      }
      forall id | id in byID ensures Recs()[id] == M.Moved(old(Recs())[id], oldName, newName) {
        var k :| 0 <= k < |jobs| && jobs[k] == byID[id];
      }
    }

    method DeleteSession(name: string) returns (ok: bool, reason: string)
      requires Valid()
      modifies `jobs, `byID, `sessions, `dirty
      ensures Valid() && ok == M.CanDeleteSession(old(View()), name)
      ensures reason == M.SessionRefusal(old(View()), name)
      ensures View() == M.DeleteSession(old(View()), name)
    {
      if name == M.DEFAULT {
        return false, "cannot delete default session";
      }
      if name !in sessions {
        return false, "session not found";
      }
      var active := HasActiveJobs(name);
      if active {
        return false, "session has active jobs";
      }
      ghost var q := View();
      var gone := JobsOf(name);
      Sweep(gone);
      ghost var swept := View();
      sessions := sessions - {name};
      assert Recs() == swept.recs;
      assert View() == swept.(sessions := q.sessions - {name});
      MarkDirty();
      return true, "";
    }

    method HasActiveJobs(name: string) returns (active: bool)
      requires Valid()
      ensures active == M.HasActiveJobs(View(), name)
    {
      ghost var q := View();
      var i := 0;
      while i < |jobs|
        invariant 0 <= i <= |jobs|
        invariant forall k | 0 <= k < i ::
                    jobs[k].info.session == name ==> !jobs[k].info.state.Running? && !jobs[k].info.state.Queued?
      {
        if jobs[i].info.session == name && (jobs[i].info.state.Running? || jobs[i].info.state.Queued?) {
          assert jobs[i] in jobs && q.recs[jobs[i].id] == jobs[i].Rec();
          return true;
        }
        i := i + 1;
      }
      forall id | id in q.recs && q.recs[id].info.session == name
        ensures !q.recs[id].info.state.Running? && !q.recs[id].info.state.Queued?
      {
        var k :| 0 <= k < |jobs| && jobs[k] == byID[id];
      }
      return false;
    }

    method JobsOf(name: string) returns (ids: set<int>)
      requires Valid()
      ensures ids == M.JobsOf(View(), name)
    {
      ids := set id | id in byID && byID[id].info.session == name;
      forall id ensures id in ids <==> id in M.JobsOf(View(), name) {
        assert id in byID ==> View().recs[id] == byID[id].Rec();
      }
    }

    method CreateGroup(name: string) returns (ok: bool)
      requires Valid()
      modifies `groups, `dirty
      ensures Valid() && ok == M.CanCreateGroup(old(View()), name)
      ensures View() == M.CreateGroup(old(View()), name)
    {
      if name == "" || name in groups {
        return false;
      }
      groups := groups + {name};
      dirty := true;
      return true;
    }

    method RenameGroup(oldName: string, newName: string) returns (ok: bool)
      requires Valid()
      modifies `sessions, `groups, `dirty
      ensures Valid() && ok == M.CanRenameGroup(old(View()), oldName, newName)
      ensures View() == M.RenameGroup(old(View()), oldName, newName)
    {
      if oldName == M.DEFAULT || newName == "" || oldName !in groups || newName in groups {
        return false;
      }
      groups := groups - {oldName} + {newName};
      RegroupSessions(oldName, newName);
      dirty := true;
      return true;
    }

    method RegroupSessions(oldName: string, newName: string)
      modifies `sessions
      ensures sessions == map s | s in old(sessions) ::
                            if old(sessions)[s] == oldName then newName else old(sessions)[s]
    {
      var todo := sessions.Keys;
      while todo != {}
        invariant todo <= sessions.Keys && sessions.Keys == old(sessions).Keys
        invariant forall s | s in sessions :: sessions[s] ==
                    if s !in todo && old(sessions)[s] == oldName then newName else old(sessions)[s]
        decreases |todo|
      {
        var s :| s in todo;
        if sessions[s] == oldName {
          sessions := sessions[s := newName];
        }
        todo := todo - {s};
      }
    }

    method DeleteGroup(name: string) returns (ok: bool, reason: string)
      requires Valid()
      modifies `groups, `dirty
      ensures Valid() && ok == M.CanDeleteGroup(old(View()), name)
      ensures reason == M.GroupRefusal(old(View()), name)
      ensures View() == M.DeleteGroup(old(View()), name)
    {
      if name == M.DEFAULT {
        return false, "cannot delete default group";
      }
      if name !in groups {
        return false, "group not found";
      }
      if s :| s in sessions && sessions[s] == name {
        return false, "group has sessions";
      }
      groups := groups - {name};
      dirty := true;
      return true, "";
    }

    method MoveSession(session: string, group: string) returns (ok: bool)
      requires Valid()
      modifies `sessions, `dirty
      ensures Valid() && ok == M.CanMoveSession(old(View()), session, group)
      ensures View() == M.MoveSession(old(View()), session, group)
    {
      if session !in sessions || group !in groups {
        return false;
      }
      sessions := sessions[session := group];
      dirty := true;
      return true;
    }

    // ------------------------------------------------------------- readers

    method DependenciesMet(j: Job) returns (met: bool)
      requires Valid()
      ensures met == M.DependenciesMet(View(), j.Rec())
    {
      var i := 0;
      while i < |j.info.dependOn|
        invariant 0 <= i <= |j.info.dependOn|
        invariant forall k | 0 <= k < i :: M.Settled(View(), j.info.dependOn[k])
      {
        var dep := j.info.dependOn[i];
        if dep in byID && !byID[dep].info.state.Finished? && !byID[dep].info.state.Skipped? {
          assert !M.Settled(View(), dep);
          return false;
        }
        i := i + 1;
      }
      return true;
    }

    method ShouldSkip(j: Job) returns (skip: bool)
      requires Valid()
      ensures skip == M.ShouldSkip(View(), j.Rec())
    {
      if !j.requireElevel {
        return false;
      }
      var i := 0;
      while i < |j.info.dependOn|
        invariant 0 <= i <= |j.info.dependOn|
        invariant forall k | 0 <= k < i :: !M.Spoiled(View(), j.info.dependOn[k])
      {
        var dep := j.info.dependOn[i];
        if dep in byID {
          var d := byID[dep];
          if (d.info.state.Finished? && d.info.result.exitCode != 0) || d.info.state.Skipped? {
            assert M.Spoiled(View(), dep);
            return true;
          }
        }
        i := i + 1;
      }
      return false;
    }

    method CheckSkippable() returns (toSkip: seq<int>)
      requires Valid()
      ensures toSkip == M.CheckSkippable(View())
    {
      ghost var q := View();
      toSkip := [];
      var i := 0;
      while i < |jobs|
        invariant 0 <= i <= |jobs|
        invariant toSkip == M.SkippableIn(q, q.order[..i])
      {
        assert q.order[..i + 1][..i] == q.order[..i];
        var j := jobs[i];
        assert j in jobs;
        if j.info.state.Queued? {
          var skip := ShouldSkip(j);
          if skip {
            toSkip := toSkip + [j.id];
          }
        }
        i := i + 1;
      }
      assert q.order[..i] == q.order;
    }

    method NextRunnable(maxSlots: int, busySlots: int) returns (job: Job?)
      requires Valid()
      ensures job == null ==> M.NextRunnable(View(), maxSlots, busySlots) == None
      ensures job != null ==> job in jobs && M.NextRunnable(View(), maxSlots, busySlots) == Some(job.id)
    {
      ghost var q := View();
      var freeSlots := maxSlots - busySlots;
      var i := 0;
      while i < |jobs|
        invariant 0 <= i <= |jobs|
        invariant M.FirstReady(q, 0) == M.FirstReady(q, i)
      {
        var j := jobs[i];
        assert j in jobs;
        if j.info.state.Queued? {
          var met := DependenciesMet(j);
          if met {
            var need := j.info.numSlots;
            if need > maxSlots {
              need := maxSlots;
            }
            if need > freeSlots {
              return null;
            }
            return j;
          }
        }
        i := i + 1;
      }
      return null;
    }

    method BusySlots() returns (slots: int)
      requires Valid()
      ensures slots == M.BusySlots(View())
    {
      ghost var q := View();
      slots := 0;
      var i := 0;
      while i < |jobs|
        invariant 0 <= i <= |jobs|
        invariant slots == ListSum(q.order[..i], q.recs, M.Slots)
      {
        assert jobs[i] in jobs;
        assert q.order[..i + 1][..i] == q.order[..i];
        if jobs[i].info.state.Running? {
          slots := slots + jobs[i].info.numSlots;
        }
        i := i + 1;
      }
      assert q.order[..i] == q.order;
      DistinctIds(jobs, byID);
      assert q.order == Ids(jobs);
      assert forall id | id in q.recs :: id in q.order;
      ListSumIsMapSum(q.order, q.recs, M.Slots);
    }
  }
}
