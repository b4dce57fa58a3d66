/**
  The queue's snapshot file: what a restart restores, and what a clear dirty flag promises.
  The JSON codec is taken to be its own inverse; writing the file is one step that may fail.
 */
module Persistence {
  import opened Collections
  import opened Protocol
  import opened QueueModel
  import opened QueueInvariant
  import opened SystemModel
  import opened SystemInvariant
  import opened Liveness

  const SNAPSHOT_VERSION := 1

  /** The decoded file. Sessions and groups may be missing from it. */
  datatype Snapshot = Snapshot(
    version: int, nextID: int, lastID: int, jobs: seq<Record>,
    sessions: Option<map<string, string>>, groups: Option<set<string>>)

  /** A job as it is written: result channels are not part of the file. */
  function Stored(r: Record): Record {
    r.(waiters := [])
  }

  function Encode(q: Queue): Snapshot
    requires Listed(q)
  {
    Snapshot(SNAPSHOT_VERSION, q.nextID, q.lastID,
             seq(|q.order|, i requires 0 <= i < |q.order| => StoredAt(q, i)),
             Some(q.sessions), Some(q.groups))
  }

  function StoredAt(q: Queue, i: nat): Record
    requires Listed(q) && i < |q.order|
  {
    var id := q.order[i];
    assert id in q.order;
    assert id in q.recs;
    Stored(q.recs[id])
  }

  predicate Listed(q: Queue) {
    forall id | id in q.order :: id in q.recs
  }

  predicate Interrupted(r: Record) {
    r.info.state.Running? || r.info.state.Allocating? || r.info.state.HoldingClient?
  }

  /** A job caught in the middle of an attempt ends with exit code -1. */
  function Fixed(r: Record): Record {
    if Interrupted(r) then r.(info := r.info.(state := Finished, pid := 0, result := START_FAILED)) else r
  }

  function IdsOf(jobs: seq<Record>): seq<int> {
    seq(|jobs|, i requires 0 <= i < |jobs| => jobs[i].id)
  }

  /** The id index of a loaded list, each job repaired. */
  function Index(jobs: seq<Record>): map<int, Record> {
    if jobs == [] then map[] else
      var last := jobs[|jobs| - 1];
      Index(jobs[..|jobs| - 1])[last.id := Fixed(last)]
  }

  predicate AnyInterrupted(jobs: seq<Record>) {
    exists i | 0 <= i < |jobs| :: Interrupted(jobs[i])
  }

  function SessionsOf(sn: Snapshot): map<string, string> {
    (if sn.sessions.Some? then sn.sessions.value else EMPTY.sessions)[DEFAULT := DEFAULT]
  }

  function GroupsOf(sn: Snapshot): set<string> {
    (if sn.groups.Some? then sn.groups.value else EMPTY.groups) + {DEFAULT}
  }

  function Decode(sn: Snapshot): Option<Queue> {
    if sn.version != SNAPSHOT_VERSION then None else
      Some(Queue(IdsOf(sn.jobs), Index(sn.jobs), sn.nextID, sn.lastID,
                 SessionsOf(sn), GroupsOf(sn),
                 AnyInterrupted(sn.jobs),
                 [], [], {}))
  }

  // ------------------------------------------------------------- round trip

  ghost function Normalise(q: Queue): Queue {
    q.(recs := map id | id in q.recs :: Fixed(Stored(q.recs[id])),
       sessions := q.sessions[DEFAULT := DEFAULT], groups := q.groups + {DEFAULT},
       dirty := SomeInterrupted(q),
       issued := [], deliveries := [], dropped := {})
  }

  lemma {:induction false} IndexOfEncoded(q: Queue, jobs: seq<Record>, n: nat)
    requires RepInv(q) && jobs == Encode(q).jobs && n <= |jobs|
    ensures Index(jobs[..n]) == map id | id in q.recs && id in q.order[..n] :: Fixed(Stored(q.recs[id]))
  {
    if n > 0 {
      IndexOfEncoded(q, jobs, n - 1);
      var id := q.order[n - 1];
      assert jobs[..n][..n - 1] == jobs[..n - 1];
      assert q.order[..n] == q.order[..n - 1] + [id];
      assert RecordOk(q, id);
      assert jobs[n - 1] == Stored(q.recs[id]);
    }
  }

  lemma EncodedIds(q: Queue)
    requires RepInv(q)
    ensures IdsOf(Encode(q).jobs) == q.order
  {
    forall i | 0 <= i < |q.order| ensures Encode(q).jobs[i].id == q.order[i] {
      assert RecordOk(q, q.order[i]);
    }
  }

  ghost predicate SomeInterrupted(q: Queue) {
    exists id | id in q.recs :: Interrupted(q.recs[id])
  }

  lemma EncodedInterruptions(q: Queue, jobs: seq<Record>)
    requires RepInv(q) && jobs == Encode(q).jobs
    ensures AnyInterrupted(jobs) <==> SomeInterrupted(q)
  {
    if AnyInterrupted(jobs) {
      var i :| 0 <= i < |jobs| && Interrupted(jobs[i]);
      var id := q.order[i];
      assert id in q.order;
      assert jobs[i] == StoredAt(q, i) && Interrupted(q.recs[id]);
    }
    if SomeInterrupted(q) {
      var id :| id in q.recs && Interrupted(q.recs[id]);
      var i := Pos(q.order, id);
      assert i >= 0 && jobs[i] == StoredAt(q, i);
    }
  }

  lemma IndexOfSaved(q: Queue)
    requires RepInv(q)
    ensures Index(Encode(q).jobs) == Normalise(q).recs
  {
    var jobs := Encode(q).jobs;
    IndexOfEncoded(q, jobs, |jobs|);
    assert jobs[..|jobs|] == jobs && q.order[..|jobs|] == q.order;
    forall id | id in q.recs ensures id in q.order {}
  }

  /** Loading what was saved yields the normalised queue. */
  lemma LoadOfSave(q: Queue)
    requires RepInv(q)
    ensures Decode(Encode(q)) == Some(Normalise(q))
  {
    EncodedIds(q);
    EncodedInterruptions(q, Encode(q).jobs);
    IndexOfSaved(q);
  }

  /** A job read from the file, as it is listed after loading: one whose attempt the end of the daemon cut
      short has finished, with exit code -1 and no process; any other is unchanged. */
  predicate LoadedAs(was: Record, now: Record) {
    if was.info.state.Running? || was.info.state.Allocating? || was.info.state.HoldingClient? then
      && now.info.state.Finished? && now.info.pid == 0
      && now.info.result.exitCode == -1
      && !now.info.result.diedBySignal && !now.info.result.timedOut && !now.info.result.skipped
      && now == was.(info := was.info.(state := now.info.state, pid := now.info.pid, result := now.info.result))
    else now == was
  }

  lemma {:induction false} LoadedAt(jobs: seq<Record>, i: nat)
    requires i < |jobs| && forall j | i < j < |jobs| :: jobs[j].id != jobs[i].id
    ensures jobs[i].id in Index(jobs) && LoadedAs(jobs[i], Index(jobs)[jobs[i].id])
    decreases jobs
  {
    var front := jobs[..|jobs| - 1];
    if i < |front| {
      assert forall j | i < j < |front| :: front[j] == jobs[j];
      LoadedAt(front, i);
    }
  }

  lemma {:induction false} IndexHoldsListed(jobs: seq<Record>, id: int)
    ensures id in Index(jobs) <==> exists i :: 0 <= i < |jobs| && jobs[i].id == id
    decreases jobs
  {
    if jobs != [] {
      var front := jobs[..|jobs| - 1];
      IndexHoldsListed(front, id);
      if i :| 0 <= i < |jobs| && jobs[i].id == id {
        assert i < |front| ==> front[i].id == id;
      }
      if id in Index(front) {
        var i :| 0 <= i < |front| && front[i].id == id;
        assert jobs[i].id == id;
      }
    }
  }

  /** What loading makes of any file: nothing for another version; otherwise the jobs in their order, each
      as `LoadedAs` says, the last one under an id taken up many times; the counters; the tables with their
      defaults; and the flag raised exactly if some attempt had been cut short. */
  lemma LoadExactly(sn: Snapshot)
    ensures Decode(sn).Some? <==> sn.version == 1
    ensures Decode(sn).Some? ==>
              var p := Decode(sn).value;
              && |p.order| == |sn.jobs| && (forall i | 0 <= i < |sn.jobs| :: p.order[i] == sn.jobs[i].id)
              && (forall id :: id in p.recs <==> exists i :: 0 <= i < |sn.jobs| && sn.jobs[i].id == id)
              && (forall i | 0 <= i < |sn.jobs| && (forall j | i < j < |sn.jobs| :: sn.jobs[j].id != sn.jobs[i].id) ::
                    sn.jobs[i].id in p.recs && LoadedAs(sn.jobs[i], p.recs[sn.jobs[i].id]))
              && p.nextID == sn.nextID && p.lastID == sn.lastID
  {
    forall id ensures id in Index(sn.jobs) <==> exists i :: 0 <= i < |sn.jobs| && sn.jobs[i].id == id {
      IndexHoldsListed(sn.jobs, id);
    }
    forall i | 0 <= i < |sn.jobs| && (forall j | i < j < |sn.jobs| :: sn.jobs[j].id != sn.jobs[i].id)
      ensures sn.jobs[i].id in Index(sn.jobs) && LoadedAs(sn.jobs[i], Index(sn.jobs)[sn.jobs[i].id])
    {
      LoadedAt(sn.jobs, i);
    }
  }

  /** The session and group tables that loading gives, the file's or the new queue's, with the defaults put
      back; and when it marks the queue changed. */
  lemma LoadedTables(sn: Snapshot)
    requires sn.version == 1
    ensures var p := Decode(sn).value;
            && "default" in p.sessions && p.sessions["default"] == "default" && "default" in p.groups
            && (forall s :: s != "default" ==>
                  (s in p.sessions <==> sn.sessions.Some? && s in sn.sessions.value)
                  && (s in p.sessions ==> p.sessions[s] == sn.sessions.value[s])
                  && (s in p.groups <==> sn.groups.Some? && s in sn.groups.value))
            && (p.dirty <==> exists i :: 0 <= i < |sn.jobs| && !LoadedAs(sn.jobs[i], sn.jobs[i]))
  {
    if i :| 0 <= i < |sn.jobs| && Interrupted(sn.jobs[i]) {
      assert !LoadedAs(sn.jobs[i], sn.jobs[i]);
    }
    if i :| 0 <= i < |sn.jobs| && !LoadedAs(sn.jobs[i], sn.jobs[i]) {
      assert Interrupted(sn.jobs[i]);
    }
  }

  /** A restart of the daemon: the list, the counters and every job come back as they were, channels aside;
      only a running job has now finished, with exit code -1. */
  lemma RestartExactly(q: Queue, p: Queue)
    requires RepInv(q) && Decode(Encode(q)) == Some(p)
    ensures p.order == q.order && p.recs.Keys == q.recs.Keys && p.nextID == q.nextID && p.lastID == q.lastID
    ensures p.groups == q.groups && p.sessions == q.sessions["default" := "default"]
    ensures forall id | id in q.recs :: LoadedAs(q.recs[id].(waiters := []), p.recs[id])
    ensures p.dirty <==> exists id :: IsRunning(q, id)
  {
    LoadOfSave(q);
    forall id | id in q.recs ensures Interrupted(q.recs[id]) <==> IsRunning(q, id) {
      assert RecordOk(q, id);
    }
  }

  /** So a restart releases whoever waited for a running job, and dooms whoever required its success. */
  lemma RestartSettles(q: Queue, p: Queue, id: int)
    requires RepInv(q) && Decode(Encode(q)) == Some(p) && IsQueued(q, id)
    ensures IsQueued(p, id)
    ensures Ready(p, id) <==> forall d | d in q.recs[id].info.dependOn :: Settled(q, d) || IsRunning(q, d)
    ensures Skippable(p, id) <==>
              q.recs[id].requireElevel && exists d | d in q.recs[id].info.dependOn :: Spoiled(q, d) || IsRunning(q, d)
  {
    RestartExactly(q, p);
    assert LoadedAs(q.recs[id].(waiters := []), p.recs[id]);
    forall d | d in q.recs[id].info.dependOn
      ensures Settled(p, d) <==> Settled(q, d) || IsRunning(q, d)
      ensures Spoiled(p, d) <==> Spoiled(q, d) || IsRunning(q, d)
    {
      if d in q.recs {
        assert RecordOk(q, d) && LoadedAs(q.recs[d].(waiters := []), p.recs[d]);
      }
    }
    if d :| d in q.recs[id].info.dependOn && (Spoiled(q, d) || IsRunning(q, d)) {
      assert Spoiled(p, d);
    }
  }

  /** Normalising again changes nothing but the dirty flag, which the first time announced. */
  lemma NormaliseIdempotent(q: Queue)
    ensures Normalise(Normalise(q)) == Normalise(q).(dirty := false)
  {
    var p := Normalise(q);
    forall id | id in p.recs ensures !Interrupted(p.recs[id]) && Fixed(Stored(p.recs[id])) == p.recs[id] {
      assert p.recs[id] == Fixed(Stored(q.recs[id]));
    }
    assert Normalise(p).recs == p.recs;
  }

  /** A restart meets the invariant again, with no job running. */
  lemma NormaliseKeepsRepInv(q: Queue)
    requires RepInv(q)
    ensures RepInv(Normalise(q))
    ensures forall id | id in Normalise(q).recs :: !IsRunning(Normalise(q), id)
  {
    var p := Normalise(q);
    forall id | id in p.recs ensures RecordOk(p, id) && !IsRunning(p, id) {
      assert RecordOk(q, id);
    }
  }

  /** The daemon started on queue `q`. */
  ghost function Started(q: Queue, maxSlots: int): Sys {
    Sys(q, maxSlots, false, Check, map[], 0, 0, map[],
        map id | id in q.recs :: MaxRetries(q.recs[id].info.retries) + 1)
  }

  /** Saving at any reachable moment, crashing and loading gives a proper initial state, from which
      every result about runs applies again, and adds no circle of waiting jobs. */
  lemma RestartIsInit(s: Sys, maxSlots: int)
    requires Inv(s)
    ensures Init(Started(Normalise(s.q), maxSlots))
    ensures Acyclic(s.q) ==> Acyclic(Normalise(s.q))
  {
    NormaliseKeepsRepInv(s.q);
    if Acyclic(s.q) {
      FewerUnsettled(s.q, Normalise(s.q));
    }
  }

  // -------------------------------------------------------------- dirty flag

  /** What of a queue survives a restart. */
  ghost function Core(q: Queue): Queue {
    Normalise(q).(dirty := false)
  }

  /** The queue a restart would produce from the file; a missing file means a new queue. */
  function Loaded(file: Option<Snapshot>): Option<Queue> {
    if file.None? then Some(EMPTY) else Decode(file.value)
  }

  /** A restart from `file` brings back what of `q` is saved. */
  ghost predicate Restores(file: Option<Snapshot>, q: Queue) {
    Loaded(file).Some? && Core(Loaded(file).value) == Core(q)
  }

  /** No mutator hides a change: one that leaves the flag clear was given it clear and changed
      nothing that is saved. */
  lemma MutatorsAreHonest(q: Queue, op: QueueOp)
    requires !Apply(q, op).dirty
    ensures !q.dirty && Core(Apply(q, op)) == Core(q)
  {
    var q' := Apply(q, op);
    if op.WaitForOp? {
      assert q' == q.(recs := q'.recs, issued := q'.issued, deliveries := q'.deliveries);
      assert Normalise(q').recs == Normalise(q).recs;
      assert q'.recs.Keys == q.recs.Keys;
      assert forall id | id in q.recs :: Interrupted(q'.recs[id]) == Interrupted(q.recs[id]);
    } else if op.ClearFinishedOp? || op.ClearSessionOp? || op.PruneOp? {
      ForgetNothing(q, op);
    } else {
      assert q' == q;
    }
  }

  lemma ForgetNothing(q: Queue, op: QueueOp)
    requires op.ClearFinishedOp? || op.ClearSessionOp? || op.PruneOp?
    requires !Apply(q, op).dirty
    ensures Apply(q, op) == q
  {
    WithoutNothing(q.order, {});
    assert q.recs - {} == q.recs;
    if op.PruneOp? {
      PruneShows(q, op.maxKeep);
    }
  }

  lemma PruneShows(q: Queue, maxKeep: nat)
    ensures PruneFinished(q, maxKeep).dirty <==> q.dirty || |Terminals(q)| > maxKeep
  {
    if |Terminals(q)| > maxKeep {
      assert Terminals(q)[0] in Elements(Terminals(q)[..|Terminals(q)| - maxKeep]);
    }
  }

  /** Nor is the file written for nothing: clearing and pruning raise the flag exactly if they forget a job. */
  lemma ForgettingShows(q: Queue, op: QueueOp)
    requires RepInv(q) && (op.ClearFinishedOp? || op.ClearSessionOp? || op.PruneOp?)
    ensures Apply(q, op).dirty <==> q.dirty || Apply(q, op).recs.Keys != q.recs.Keys
  {
    if op.PruneOp? {
      PruneShows(q, op.maxKeep);
      if |Terminals(q)| > op.maxKeep {
        var first, gone := Terminals(q)[0], Elements(Terminals(q)[..|Terminals(q)| - op.maxKeep]);
        TerminalsMembers(q, q.order, first);
        assert first in gone && first in q.recs && first !in Apply(q, op).recs;
      }
    } else {
      var gone := if op.ClearFinishedOp? then EndedJobs(q) else EndedIn(q, op.session);
      assert Apply(q, op).recs.Keys == q.recs.Keys - gone && gone <= q.recs.Keys;
    }
  }

  /** `save` has two halves: the snapshot is taken under the lock, then written outside it.
      Mutators may run in between; saves do not overlap. */
  datatype Event = Mutate(op: QueueOp) | BeginSave | WriteSucceeds | WriteFails

  datatype Persisted = Persisted(q: Queue, file: Option<Snapshot>, pending: Option<Snapshot>)

  ghost function React(p: Persisted, e: Event): Persisted
    requires RepInv(p.q)
  {
    match e
    case Mutate(op) => p.(q := Apply(p.q, op))
    case BeginSave =>
      if p.pending.Some? || !p.q.dirty then p
      else p.(q := p.q.(dirty := false), pending := Some(Encode(p.q)))
    case WriteSucceeds => if p.pending.None? then p else p.(file := p.pending, pending := None)
    case WriteFails => if p.pending.None? then p else p.(q := p.q.(dirty := true), pending := None)
  }

  /** The snapshot that counts once the save under way, if any, has been written. */
  function Latest(p: Persisted): Option<Snapshot> {
    if p.pending.Some? then p.pending else p.file
  }

  /** A clear flag means that the latest snapshot restores the queue as it is. */
  ghost predicate CleanMeansSaved(p: Persisted) {
    RepInv(p.q) && (!p.q.dirty ==> Restores(Latest(p), p.q))
  }

  lemma ReactKeeps(p: Persisted, e: Event)
    requires CleanMeansSaved(p)
    ensures CleanMeansSaved(React(p, e))
  {
    match e {
      case Mutate(op) =>
        ApplyKeepsRepInv(p.q, op);
        if !Apply(p.q, op).dirty {
          MutatorsAreHonest(p.q, op);
        }
      case BeginSave =>
        if p.pending.None? && p.q.dirty {
          SnapshotRestores(p.q);
        }
      case WriteSucceeds =>
      case WriteFails =>
        SameJobs(p.q, p.q.(dirty := true));
    }
  }

  lemma SnapshotRestores(q: Queue)
    requires RepInv(q)
    ensures RepInv(q.(dirty := false)) && Restores(Some(Encode(q)), q) && Restores(Some(Encode(q)), q.(dirty := false))
  {
    LoadOfSave(q);
    NormaliseIdempotent(q);
    SameJobs(q, q.(dirty := false));
    assert Normalise(q.(dirty := false)) == Normalise(q);
  }

  /** A history of the queue and its file, started on what the file held. */
  ghost predicate IsHistory(ps: seq<Persisted>, es: seq<Event>) {
    && |ps| == |es| + 1
    && Loaded(ps[0].file) == Some(ps[0].q) && ps[0].pending.None? && RepInv(ps[0].q)
    && forall i | 0 <= i < |es| :: RepInv(ps[i].q) ==> ps[i + 1] == React(ps[i], es[i])
  }

  /** Through every mutator and every failed or successful save, a clear flag with no write
      outstanding means that the file restores the current queue. */
  lemma {:induction false} CleanThroughout(ps: seq<Persisted>, es: seq<Event>, i: nat)
    requires IsHistory(ps, es) && i < |ps|
    ensures CleanMeansSaved(ps[i])
    ensures !ps[i].q.dirty && ps[i].pending.None? ==> Restores(ps[i].file, ps[i].q)
  {
    if i > 0 {
      CleanThroughout(ps, es, i - 1);
      ReactKeeps(ps[i - 1], es[i - 1]);
    }
  }

  /** `file` restores a queue that the history passed through no later than step `i`. */
  ghost predicate FromThePast(ps: seq<Persisted>, i: nat, file: Option<Snapshot>)
    requires i < |ps|
  {
    exists j | 0 <= j <= i :: Restores(file, ps[j].q)
  }

  lemma StillFromThePast(ps: seq<Persisted>, i: nat, file: Option<Snapshot>)
    requires i + 1 < |ps| && FromThePast(ps, i, file)
    ensures FromThePast(ps, i + 1, file)
  {
    var j :| 0 <= j <= i && Restores(file, ps[j].q);
    assert 0 <= j <= i + 1;
  }

  /** Where the file and the outstanding write of the next state come from. */
  lemma SnapshotOrigins(p: Persisted, e: Event)
    requires RepInv(p.q)
    ensures var p' := React(p, e);
            && (p'.file == p.file || (p.pending.Some? && p'.file == p.pending))
            && (p'.pending.None? || p'.pending == p.pending || Restores(p'.pending, p'.q))
  {
    if e.BeginSave? && p.pending.None? && p.q.dirty {
      SnapshotRestores(p.q);
    }
  }

  /** Stopping the daemon at any moment loses changes but never mixes them: the file restores
      some queue of the history. */
  lemma {:induction false} CrashRestoresThePast(ps: seq<Persisted>, es: seq<Event>, i: nat)
    requires IsHistory(ps, es) && i < |ps|
    ensures FromThePast(ps, i, ps[i].file)
    ensures ps[i].pending.Some? ==> FromThePast(ps, i, ps[i].pending)
  {
    if i == 0 {
      assert Restores(ps[0].file, ps[0].q);
    } else {
      var p := ps[i - 1];
      CrashRestoresThePast(ps, es, i - 1);
      CleanThroughout(ps, es, i - 1);
      SnapshotOrigins(p, es[i - 1]);
      StillFromThePast(ps, i - 1, p.file);
      if p.pending.Some? {
        StillFromThePast(ps, i - 1, p.pending);
      }
      FromNow(ps, i, ps[i].pending);
    }
  }

  lemma FromNow(ps: seq<Persisted>, i: nat, file: Option<Snapshot>)
    requires i < |ps|
    ensures Restores(file, ps[i].q) ==> FromThePast(ps, i, file)
  {
  }
}
