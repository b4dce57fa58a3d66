/**
  Saving the queue object to its snapshot file and building a queue object from the file.
  Whether a write succeeds is a parameter.
 */
module SnapshotFiles {
  import opened Collections
  import opened Protocol
  import opened JobQueues
  import P = Persistence

  class SnapshotFile {
    var content: Option<P.Snapshot>

    constructor ()
      ensures content.None?
    {
      content := None;
    }
  }

  ghost predicate DistinctJobs(jobs: seq<Record>) {
    forall i, k | 0 <= i < k < |jobs| :: jobs[i].id != jobs[k].id
  }

  /** The index of a list with distinct ids holds each job under its own id. */
  lemma {:induction false} IndexAt(jobs: seq<Record>, k: nat)
    requires DistinctJobs(jobs) && k < |jobs|
    ensures jobs[k].id in P.Index(jobs) && P.Index(jobs)[jobs[k].id] == P.Fixed(jobs[k])
  {
    if k < |jobs| - 1 {
      IndexAt(jobs[..|jobs| - 1], k);
    }
  }

  lemma {:induction false} IndexKeys(jobs: seq<Record>, id: int)
    requires id in P.Index(jobs)
    ensures exists k :: 0 <= k < |jobs| && jobs[k].id == id
  {
    var last := jobs[|jobs| - 1];
    if id != last.id {
      IndexKeys(jobs[..|jobs| - 1], id);
    }
  }

  lemma ViewListed(q: JobQueue)
    requires q.Valid()
    ensures P.Listed(q.View())
  {
    DistinctIds(q.jobs, q.byID);
  }

  /** The part of `save` under the lock: clears the flag and encodes the queue. */
  method TakeSnapshot(q: JobQueue) returns (data: Option<P.Snapshot>)
    requires q.Valid()
    modifies q`dirty
    ensures q.Valid() && P.Listed(old(q.View()))
    ensures data == if old(q.dirty) then Some(P.Encode(old(q.View()))) else None
    ensures q.View() == old(q.View()).(dirty := false)
  {
    ViewListed(q);
    ghost var v := q.View();
    if !q.dirty {
      return None;
    }
    q.dirty := false;
    var jobs := seq(|q.jobs|, i requires 0 <= i < |q.jobs| reads q, q.jobs => P.Stored(q.jobs[i].Rec()));
    forall i | 0 <= i < |jobs| ensures jobs[i] == P.StoredAt(v, i) {
      assert q.jobs[i] in q.jobs;
    }
    data := Some(P.Snapshot(P.SNAPSHOT_VERSION, q.nextID, q.lastID, jobs, Some(q.sessions), Some(q.groups)));
    assert data.value.jobs == P.Encode(v).jobs;
  }

  /** Saves when anything has changed. A failed write leaves the file alone and raises the flag again. */
  method Save(q: JobQueue, file: SnapshotFile, configured: bool, writes: bool) returns (ok: bool)
    requires q.Valid()
    modifies q`dirty, file
    ensures q.Valid() && P.Listed(old(q.View()))
    ensures ok == (!configured || !old(q.dirty) || writes)
    ensures q.View() == old(q.View()).(dirty := old(q.dirty) && (!configured || !writes))
    ensures file.content ==
            if configured && old(q.dirty) && writes then Some(P.Encode(old(q.View()))) else old(file.content)
  {
    ViewListed(q);
    if !configured {
      return true;
    }
    var data := TakeSnapshot(q);
    if data.None? {
      return true;
    }
    if !writes {
      q.dirty := true;
      return false;
    }
    file.content := data;
    return true;
  }

  predicate Holds(j: Job, r: Record)
    reads j
  {
    j.Rec() == r
  }

  /** One object per decoded job. */
  method Unmarshal(jobs: seq<Record>) returns (objects: seq<Job>)
    ensures |objects| == |jobs| && NoDup(objects)
    ensures forall k | 0 <= k < |jobs| :: fresh(objects[k]) && Holds(objects[k], jobs[k])
  {
    objects := [];
    while |objects| < |jobs|
      invariant |objects| <= |jobs| && NoDup(objects)
      invariant forall k | 0 <= k < |objects| :: fresh(objects[k]) && Holds(objects[k], jobs[k])
    {
      var j := new Job(jobs[|objects|]);
      objects := objects + [j];
    }
  }

  /** Ends the job if it was caught in the middle of an attempt. */
  method EndInterrupted(j: Job) returns (changed: bool)
    modifies j
    ensures j.Rec() == P.Fixed(old(j.Rec())) && changed == P.Interrupted(old(j.Rec()))
  {
    changed := j.info.state.Running? || j.info.state.Allocating? || j.info.state.HoldingClient?;
    if changed {
      j.info := j.info.(state := Finished, pid := 0, result := START_FAILED);
    }
  }

  /** The records behind an index. */
  ghost function RecMap(byID: map<int, Job>): map<int, Record>
    reads byID.Values
  {
    map id | id in byID :: byID[id].Rec()
  }

  /** The index holds the repaired jobs of the first `i` places, the last of those that share an id. */
  ghost predicate Entered(objects: seq<Job>, byID: map<int, Job>, jobs: seq<Record>, i: nat)
    requires i <= |objects| == |jobs|
    reads byID.Values
  {
    && (forall id | id in byID :: byID[id].id == id && byID[id] in objects[..i])
    && RecMap(byID) == P.Index(jobs[..i])
  }

  lemma EnterNext(objects: seq<Job>, byID: map<int, Job>, jobs: seq<Record>, i: nat)
    requires i < |objects| == |jobs| && Entered(objects, byID, jobs, i) && objects[i].Rec() == P.Fixed(jobs[i])
    ensures Entered(objects, byID[objects[i].id := objects[i]], jobs, i + 1)
  {
    assert objects[..i + 1] == objects[..i] + [objects[i]];
    assert jobs[..i + 1][..i] == jobs[..i] && jobs[..i + 1][i] == jobs[i];
    var now := byID[objects[i].id := objects[i]];
    assert RecMap(now) == RecMap(byID)[objects[i].id := objects[i].Rec()];
  }

  /** Ends the interrupted jobs and fills the id index, raising the flag if anything was repaired. */
  method Repair(q: JobQueue, ghost jobs: seq<Record>)
    requires |q.jobs| == |jobs| && NoDup(q.jobs)
    requires forall k | 0 <= k < |jobs| :: Holds(q.jobs[k], jobs[k])
    requires q.byID == map[] && !q.dirty
    modifies q`byID, q`dirty, q.jobs
    ensures Repaired(q.jobs, jobs, |jobs|) && Entered(q.jobs, q.byID, jobs, |jobs|)
    ensures q.dirty == P.AnyInterrupted(jobs)
  {
    var i := 0;
    while i < |q.jobs|
      invariant 0 <= i <= |jobs|
      invariant Repaired(q.jobs, jobs, i)
      invariant Entered(q.jobs, q.byID, jobs, i)
      invariant q.dirty == P.AnyInterrupted(jobs[..i])
    {
      RepairNext(q, i, jobs);
      InterruptedSoFar(jobs, i);
      i := i + 1;
    }
    assert jobs[..i] == jobs;
  }

  /** The loop's body. */
  method RepairNext(q: JobQueue, i: nat, ghost jobs: seq<Record>)
    requires i < |q.jobs| && NoDup(q.jobs) && Repaired(q.jobs, jobs, i) && Entered(q.jobs, q.byID, jobs, i)
    modifies q`byID, q`dirty, q.jobs[i]
    ensures Repaired(q.jobs, jobs, i + 1) && Entered(q.jobs, q.byID, jobs, i + 1)
    ensures q.dirty == (old(q.dirty) || P.Interrupted(jobs[i]))
  {
    var changed := RepairAt(q.jobs, q.byID, i, jobs);
    EnterNext(q.jobs, q.byID, jobs, i);
    q.byID := q.byID[q.jobs[i].id := q.jobs[i]];
    q.dirty := q.dirty || changed;
  }

  /** The first `i` objects have been repaired, the others are as decoded. */
  ghost predicate Repaired(objects: seq<Job>, jobs: seq<Record>, i: nat)
    reads objects
  {
    && |objects| == |jobs|
    && forall k | 0 <= k < |jobs| :: Holds(objects[k], if k < i then P.Fixed(jobs[k]) else jobs[k])
  }

  /** Repairing the next object leaves those already in the index alone. */
  method RepairAt(objects: seq<Job>, byID: map<int, Job>, i: nat, ghost jobs: seq<Record>) returns (changed: bool)
    requires i < |objects| && NoDup(objects) && Repaired(objects, jobs, i) && Entered(objects, byID, jobs, i)
    modifies objects[i]
    ensures Repaired(objects, jobs, i + 1) && Entered(objects, byID, jobs, i)
    ensures objects[i].Rec() == P.Fixed(jobs[i]) && changed == P.Interrupted(jobs[i])
  {
    assert Holds(objects[i], jobs[i]);
    changed := EndInterrupted(objects[i]);
    forall k | 0 <= k < |jobs| ensures Holds(objects[k], if k < i + 1 then P.Fixed(jobs[k]) else jobs[k]) {
      assert old(Holds(objects[k], if k < i then P.Fixed(jobs[k]) else jobs[k]));
      assert k != i ==> objects[k] != objects[i] && unchanged(objects[k]);
    }
    forall id | id in byID ensures byID[id].Rec() == old(byID[id].Rec()) {
      var k :| 0 <= k < i && objects[k] == byID[id];
      assert objects[k] != objects[i];
    }
    assert RecMap(byID) == old(RecMap(byID));
  }

  lemma InterruptedSoFar(jobs: seq<Record>, i: nat)
    requires i < |jobs|
    ensures P.AnyInterrupted(jobs[..i + 1]) <==> P.AnyInterrupted(jobs[..i]) || P.Interrupted(jobs[i])
  {
    if P.AnyInterrupted(jobs[..i]) {
      var k :| 0 <= k < i && P.Interrupted(jobs[..i][k]);
      assert P.Interrupted(jobs[..i + 1][k]);
    }
    assert P.Interrupted(jobs[i]) ==> P.Interrupted(jobs[..i + 1][i]);
    if P.AnyInterrupted(jobs[..i + 1]) {
      var k :| 0 <= k < i + 1 && P.Interrupted(jobs[..i + 1][k]);
      assert k < i ==> P.Interrupted(jobs[..i][k]);
    }
  }

  lemma RepairedIds(objects: seq<Job>, jobs: seq<Record>)
    requires Repaired(objects, jobs, |jobs|)
    ensures Ids(objects) == P.IdsOf(jobs)
  {
    forall k | 0 <= k < |jobs| ensures objects[k].id == jobs[k].id {
      assert Holds(objects[k], P.Fixed(jobs[k]));
    }
  }

  /** With distinct ids the index holds every listed object. */
  lemma RepairedIsCoherent(q: JobQueue, jobs: seq<Record>)
    requires NoDup(q.jobs) && DistinctJobs(jobs)
    requires Repaired(q.jobs, jobs, |jobs|) && Entered(q.jobs, q.byID, jobs, |jobs|)
    ensures q.Valid()
  {
    assert q.jobs[..|jobs|] == q.jobs && jobs[..|jobs|] == jobs;
    forall j | j in q.jobs ensures j.id in q.byID && q.byID[j.id] == j {
      var k :| 0 <= k < |jobs| && q.jobs[k] == j;
      assert Holds(q.jobs[k], P.Fixed(jobs[k]));
      IndexAt(jobs, k);
      assert j.id in RecMap(q.byID);
      var m :| 0 <= m < |jobs| && q.jobs[m] == q.byID[j.id];
      assert Holds(q.jobs[m], P.Fixed(jobs[m]));
    }
  }

  /** Copies the decoded tables into a new queue; absent ones keep their defaults. */
  method Fill(q: JobQueue, sn: P.Snapshot)
    modifies q`nextID, q`lastID, q`sessions, q`groups
    requires q.sessions == M.EMPTY.sessions && q.groups == M.EMPTY.groups
    ensures q.nextID == sn.nextID && q.lastID == sn.lastID
    ensures q.sessions == P.SessionsOf(sn) && q.groups == P.GroupsOf(sn)
  {
    q.nextID, q.lastID := sn.nextID, sn.lastID;
    if sn.sessions.Some? {
      q.sessions := sn.sessions.value;
    }
    if sn.groups.Some? {
      q.groups := sn.groups.value;
    }
    q.sessions := q.sessions[M.DEFAULT := M.DEFAULT];
    q.groups := q.groups + {M.DEFAULT};
  }

  /** The value of a queue's fields, whether or not list and index agree. */
  ghost function FieldsOf(q: JobQueue): M.Queue
    reads q, q.jobs, q.byID.Values
  {
    M.Queue(Ids(q.jobs), RecMap(q.byID), q.nextID, q.lastID, q.sessions, q.groups, q.dirty,
            q.issued, q.deliveries, q.dropped)
  }

  /** Starts a queue from the file. Jobs caught in the middle of an attempt end with exit code -1.
      Should two jobs in the file share an id, both are listed and the index holds the later one. */
  method Load(file: SnapshotFile, configured: bool) returns (loaded: Option<JobQueue>)
    ensures var content := if configured then file.content else None;
            && (loaded.None? <==> P.Loaded(content).None?)
            && (loaded.Some? ==>
                  && fresh(loaded.value) && Some(FieldsOf(loaded.value)) == P.Loaded(content)
                  && (content.Some? ==> Repaired(loaded.value.jobs, content.value.jobs, |content.value.jobs|))
                  && (content.None? || DistinctJobs(content.value.jobs) ==> loaded.value.Valid()))
  {
    var q := new JobQueue();
    if !configured || file.content.None? {
      assert Ids(q.jobs) == [] && RecMap(q.byID) == map[];
      return Some(q);
    }
    var sn := file.content.value;
    if sn.version != P.SNAPSHOT_VERSION {
      return None;
    }
    Decode(q, sn);
    return Some(q);
  }

  lemma DecodedFields(q: JobQueue, sn: P.Snapshot)
    requires sn.version == P.SNAPSHOT_VERSION && Repaired(q.jobs, sn.jobs, |sn.jobs|)
    requires RecMap(q.byID) == P.Index(sn.jobs) && q.dirty == P.AnyInterrupted(sn.jobs)
    requires q.nextID == sn.nextID && q.lastID == sn.lastID
    requires q.sessions == P.SessionsOf(sn) && q.groups == P.GroupsOf(sn)
    requires q.issued == [] && q.deliveries == [] && q.dropped == {}
    ensures Some(FieldsOf(q)) == P.Decode(sn)
  {
    RepairedIds(q.jobs, sn.jobs);
  }

  /** Fills a new queue from a snapshot. */
  method Decode(q: JobQueue, sn: P.Snapshot)
    requires q.jobs == [] && q.byID == map[] && !q.dirty
    requires q.sessions == M.EMPTY.sessions && q.groups == M.EMPTY.groups
    requires q.issued == [] && q.deliveries == [] && q.dropped == {}
    requires sn.version == P.SNAPSHOT_VERSION
    modifies q
    ensures Some(FieldsOf(q)) == P.Decode(sn)
    ensures Repaired(q.jobs, sn.jobs, |sn.jobs|)
    ensures DistinctJobs(sn.jobs) ==> q.Valid()
  {
    Fill(q, sn);
    q.jobs := Unmarshal(sn.jobs);
    Repair(q, sn.jobs);
    assert sn.jobs[..|sn.jobs|] == sn.jobs;
    DecodedFields(q, sn);
    if DistinctJobs(sn.jobs) {
      RepairedIsCoherent(q, sn.jobs);
    }
  }
}
