/** What one operation on the session and group tables undoes of another, jobs included. */
module SessionTables {
  import opened Collections
  import opened Protocol
  import opened QueueModel
  import opened QueueInvariant

  lemma MovedBack(r: Record, oldName: string, newName: string)
    requires r.info.session != newName
    ensures Moved(Moved(r, oldName, newName), newName, oldName) == r
  {
  }

  /** Renaming a session back restores every job and both tables. */
  lemma RenameSessionBack(q: Queue, oldName: string, newName: string)
    requires RepInv(q) && oldName in q.sessions && oldName != "default" && newName !in q.sessions
    ensures RenameSession(RenameSession(q, oldName, newName), newName, oldName) == q.(dirty := true)
  {
    var p := RenameSession(q, oldName, newName);
    var b := RenameSession(p, newName, oldName);
    forall id | id in q.recs ensures b.recs[id] == q.recs[id] {
      assert RecordOk(q, id);
      MovedBack(q.recs[id], oldName, newName);
    }
    assert b.recs == q.recs;
    assert b.sessions == q.sessions;
  }

  /** No job is left behind under the old name, none is lost, and no other session gains or loses one. */
  lemma RenameSessionMovesAll(q: Queue, oldName: string, newName: string, session: string)
    requires RepInv(q) && oldName in q.sessions && oldName != "default" && newName !in q.sessions
    ensures JobsOf(RenameSession(q, oldName, newName), session) ==
            if session == newName then JobsOf(q, oldName) else if session == oldName then {} else JobsOf(q, session)
    ensures RenameSession(q, oldName, newName).sessions[newName] == q.sessions[oldName]
  {
    var p := RenameSession(q, oldName, newName);
    var expected :=
      if session == newName then JobsOf(q, oldName) else if session == oldName then {} else JobsOf(q, session);
    forall id ensures id in JobsOf(p, session) <==> id in expected {
      if id in q.recs {
        assert RecordOk(q, id) && p.recs[id] == Moved(q.recs[id], oldName, newName);
      }
    }
  }

  /** Renaming a group back restores the membership of every session. */
  lemma RenameGroupBack(q: Queue, oldName: string, newName: string)
    requires RepInv(q) && oldName in q.groups && oldName != "default" && newName != "" && newName !in q.groups
    ensures RenameGroup(RenameGroup(q, oldName, newName), newName, oldName) ==
            if oldName == "" then RenameGroup(q, oldName, newName) else q.(dirty := true)
  {
    var p := RenameGroup(q, oldName, newName);
    if oldName != "" {
      var b := RenameGroup(p, newName, oldName);
      forall s | s in q.sessions ensures b.sessions[s] == q.sessions[s] {
        assert q.sessions[s] in q.groups;
      }
      assert b.sessions == q.sessions;
      assert b.groups == q.groups;
    }
  }

  /** Exactly the sessions of the renamed group change their group, to the new name. */
  lemma RenameGroupMovesAll(q: Queue, oldName: string, newName: string)
    requires RepInv(q) && oldName in q.groups && oldName != "default" && newName != "" && newName !in q.groups
    ensures var p := RenameGroup(q, oldName, newName);
            && (forall g :: g in p.groups <==> g == newName || (g in q.groups && g != oldName))
            && p.sessions.Keys == q.sessions.Keys
            && (forall s | s in q.sessions ::
                  p.sessions[s] == if q.sessions[s] == oldName then newName else q.sessions[s])
  {
  }

  /** A session moves to the group asked for and to no other, no other session moves, and it can be moved
      back. */
  lemma MoveSessionThereAndBack(q: Queue, session: string, group: string)
    requires RepInv(q) && session in q.sessions && group in q.groups
    ensures var p := MoveSession(q, session, group);
            && p.sessions.Keys == q.sessions.Keys && p.sessions[session] == group
            && (forall s | s in q.sessions && s != session :: p.sessions[s] == q.sessions[s])
            && MoveSession(p, session, q.sessions[session]) == q.(dirty := true)
  {
    var p := MoveSession(q, session, group);
    assert p.sessions[session := q.sessions[session]] == q.sessions;
  }

  /** A new session stands in the default group; a new group is there and empty. */
  lemma CreatedEmpty(q: Queue, name: string)
    requires RepInv(q)
    ensures name !in q.sessions ==>
              var p := CreateSession(q, name);
              name in p.sessions && p.sessions[name] == "default" && JobsOf(p, name) == {}
    ensures name != "" && name !in q.groups ==>
              var p := CreateGroup(q, name);
              name in p.groups && forall s | s in p.sessions :: p.sessions[s] != name
  {
    forall id | id in q.recs ensures name !in q.sessions ==> q.recs[id].info.session != name {
      assert RecordOk(q, id);
    }
    forall s | s in q.sessions ensures name !in q.groups ==> q.sessions[s] != name {
      assert q.sessions[s] in q.groups;
    }
  }

  predicate ActiveIn(q: Queue, session: string) {
    exists id | id in q.recs :: q.recs[id].info.session == session && (IsQueued(q, id) || IsRunning(q, id))
  }

  /** What makes an operation on the tables impossible, in the program's terms. */
  predicate Refused(q: Queue, op: QueueOp) {
    match op
    case CreateSessionOp(name) => name in q.sessions
    case RenameSessionOp(oldName, newName) =>
      oldName == "default" || oldName !in q.sessions || newName in q.sessions
    case DeleteSessionOp(name) => name == "default" || name !in q.sessions || ActiveIn(q, name)
    case CreateGroupOp(name) => name == "" || name in q.groups
    case RenameGroupOp(oldName, newName) =>
      oldName == "default" || newName == "" || oldName !in q.groups || newName in q.groups
    case DeleteGroupOp(name) =>
      name == "default" || name !in q.groups || exists s | s in q.sessions :: q.sessions[s] == name
    case MoveSessionOp(session, group) => session !in q.sessions || group !in q.groups
    case _ => false
  }

  /** A refused operation changes nothing, not even the changed flag; any other changes the tables or
      leaves them as asked for already, and raises the flag. */
  lemma RefusedOrDone(q: Queue, op: QueueOp)
    requires op.CreateSessionOp? || op.RenameSessionOp? || op.DeleteSessionOp? || op.CreateGroupOp?
             || op.RenameGroupOp? || op.DeleteGroupOp? || op.MoveSessionOp?
    ensures if Refused(q, op) then Apply(q, op) == q else Apply(q, op).dirty
    ensures !Refused(q, op) && !op.MoveSessionOp? ==>
              Apply(q, op).sessions != q.sessions || Apply(q, op).groups != q.groups
  {
    if op.DeleteSessionOp? {
      assert HasActiveJobs(q, op.name) <==> ActiveIn(q, op.name);
    }
    if op.RenameSessionOp? && !Refused(q, op) {
      assert op.newName in Apply(q, op).sessions;
    }
  }

  // ------------------------------------------------------------------ clearing a session

  /** Clearing a session forgets its ended jobs and leaves every other job as it was, in its order. */
  lemma ClearSessionKeepsOthers(q: Queue, session: string)
    requires Indexed(q)
    ensures var p := ClearFinishedInSession(q, session);
            && (forall id ::
                  id in p.recs <==> id in q.recs && !(q.recs[id].info.session == session && IsTerminal(q, id)))
            && (forall id | id in p.recs :: p.recs[id] == q.recs[id])
            && p.order == Without(q.order, q.recs.Keys - p.recs.Keys)
            && (forall other | other != session :: JobsOf(p, other) == JobsOf(q, other))
  {
    var p := ClearFinishedInSession(q, session);
    assert q.recs.Keys - p.recs.Keys == EndedIn(q, session);
    forall other | other != session ensures JobsOf(p, other) == JobsOf(q, other) {
      assert forall id :: id in JobsOf(p, other) <==> id in JobsOf(q, other);
    }
  }

  ghost function ClearEach(q: Queue, sessions: seq<string>): Queue
    decreases sessions
  {
    if sessions == [] then q else
      ClearFinishedInSession(ClearEach(q, sessions[..|sessions| - 1]), sessions[|sessions| - 1])
  }

  ghost predicate ClearedOf(q: Queue, p: Queue, sessions: set<string>) {
    && (forall id :: id in p.recs <==> id in q.recs && !(q.recs[id].info.session in sessions && IsTerminal(q, id)))
    && (forall id | id in p.recs :: p.recs[id] == q.recs[id])
  }

  lemma {:induction false} ClearEachExact(q: Queue, sessions: seq<string>)
    ensures ClearedOf(q, ClearEach(q, sessions), Elements(sessions))
    decreases sessions
  {
    if sessions != [] {
      var front, last := sessions[..|sessions| - 1], sessions[|sessions| - 1];
      assert sessions == front + [last];
      ClearEachExact(q, front);
    }
  }

  /** Clearing session after session, in any order, forgets what clearing all ended jobs at once does. */
  lemma ClearingAddsUp(q: Queue, sessions: seq<string>)
    requires RepInv(q) && forall s | s in q.sessions :: s in sessions
    ensures ClearEach(q, sessions).recs == ClearFinished(q).recs
  {
    ClearEachExact(q, sessions);
    forall id | id in q.recs ensures q.recs[id].info.session in sessions {
      assert RecordOk(q, id);
    }
  }

  /** A reset leaves nothing listed, the tables with their defaults alone, and starts ids over; channels
      handed out before stay on the books. */
  lemma ResetIsNew(q: Queue)
    ensures var p := Reset(q);
            && p.order == [] && p.recs == map[] && p.nextID == 0 && p.lastID == 0 && p.dirty
            && p.sessions == map["default" := "default"] && p.groups == {"default"}
            && p.issued == q.issued && p.deliveries == q.deliveries
  {
  }

  /** A new session can be deleted at once, and nothing else is deleted with it. */
  lemma DeleteUndoesCreateSession(q: Queue, name: string)
    requires RepInv(q) && name !in q.sessions
    ensures DeleteSession(CreateSession(q, name), name) == q.(dirty := true)
  {
    var p := CreateSession(q, name);
    forall id | id in q.recs ensures q.recs[id].info.session != name {
      assert RecordOk(q, id);
    }
    assert JobsOf(p, name) == {};
    WithoutNothing(q.order, {});
    assert q.recs - {} == q.recs;
    assert p.sessions - {name} == q.sessions;
  }

  lemma DeleteUndoesCreateGroup(q: Queue, name: string)
    requires RepInv(q) && name != "" && name !in q.groups
    ensures DeleteGroup(CreateGroup(q, name), name) == q.(dirty := true)
  {
    var p := CreateGroup(q, name);
    assert forall s | s in q.sessions :: q.sessions[s] in q.groups;
    assert p.groups - {name} == q.groups;
  }

  /** Deleting a session removes its jobs, all of which have ended, and no others. */
  lemma DeleteSessionEndsNothing(q: Queue, name: string)
    requires RepInv(q) && name in q.sessions && name != "default"
    requires forall id | id in q.recs && q.recs[id].info.session == name :: !IsQueued(q, id) && !IsRunning(q, id)
    ensures var p := DeleteSession(q, name);
            && p.recs.Keys == q.recs.Keys - JobsOf(q, name) && p.sessions == q.sessions - {name}
            && (forall id | id in JobsOf(q, name) :: IsTerminal(q, id))
            && (forall id | id in p.recs :: p.recs[id] == q.recs[id] && p.recs[id].info.session != name)
  {
    forall id | id in JobsOf(q, name) ensures IsTerminal(q, id) {
      assert RecordOk(q, id);
    }
  }
}
