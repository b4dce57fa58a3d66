/**
  The registry of panes. Creating a pane, killing it and its own exit run concurrently; each
  method of `TerminalManager` below is one critical section, and between any two of them any
  others may run. What `Valid` says therefore holds in every interleaving.
 */
module TerminalRegistry {
  import opened TerminalKeys
  import opened TerminalNames

  /** A pane with its child process. The flags record what has happened to it: `published` by the
      creator that won, `doomed` by a kill, `done` by the end of its reader. */
  class Pty {
    const session: string
    const pane: string
    var done: bool
    ghost var published: bool
    ghost var doomed: bool
    ghost var discarded: bool
    ghost var reaps: nat

    constructor (session: string, pane: string)
      ensures this.session == OrDefault(session) && this.pane == OrMain(pane)
      ensures !done && !published && !doomed && !discarded && reaps == 0
    {
      this.session, this.pane, done := OrDefault(session), OrMain(pane), false;
      published, doomed, discarded, reaps := false, false, false, 0;
    }

    function Key(): string {
      session + [NUL] + pane
    }

    /** In service: published, its child not known dead, and nobody has asked it to die. */
    ghost predicate Live()
      reads this
    {
      published && !done && !doomed
    }

    /** In the hands of the call that started it. */
    ghost predicate Private()
      reads this
    {
      !published && !discarded
    }

    ghost predicate Accounted()
      reads this
    {
      && (done || doomed ==> published)
      && (discarded ==> !published)
      && reaps == if done || discarded then 1 else 0
    }
  }

  class TerminalManager {
    var sessions: map<string, Pty>
    var layouts: map<string, seq<bv8>>
    var nextName: nat
    /** Every child ever started. */
    ghost var children: set<Pty>

    ghost predicate Valid()
      reads this, children
    {
      && (forall key | key in sessions :: Entry(key))
      && (forall t | t in children :: t.Accounted() && (t.Live() ==> Holds(t)))
    }

    /** The registry maps a key only to a published pane of that key which nobody has killed. */
    ghost predicate Entry(key: string)
      requires key in sessions
      reads this, children
    {
      var t := sessions[key];
      t in children && t.Key() == key && t.published && !t.doomed
    }

    predicate Holds(t: Pty)
      reads `sessions
    {
      t.Key() in sessions && sessions[t.Key()] == t
    }

    constructor ()
      ensures Valid() && sessions == map[] && layouts == map[] && nextName == 0 && children == {}
    {
      sessions, layouts, nextName, children := map[], map[], 0, {};
    }

    /** The first section of `GetOrCreate`: the pane in service, or none after clearing a dead entry. */
    method Lookup(session: string, pane: string) returns (found: Pty?)
      requires Valid()
      modifies `sessions
      ensures Valid()
      ensures var key := TerminalKey(session, pane);
              if found == null then sessions == old(sessions) - {key}
              else sessions == old(sessions) && key in sessions && found == sessions[key] && found.Live()
    {
      var key := TerminalKey(session, pane);
      if key in sessions && !sessions[key].done {
        return sessions[key];
      }
      sessions := sessions - {key};
      return null;
    }

    /** Starts a child, under no lock of the registry. */
    method Start(session: string, pane: string) returns (t: Pty)
      requires Valid()
      modifies `children
      ensures Valid() && fresh(t) && t.Private() && t.Key() == TerminalKey(session, pane)
      ensures children == old(children) + {t}
    {
      t := new Pty(session, pane);
      children := children + {t};
    }

    /** The second section of `GetOrCreate`: gives way to a pane in service, otherwise publishes `t`. */
    method Publish(t: Pty) returns (shared: Pty)
      requires Valid() && t in children && t.Private()
      modifies `sessions, t`published
      ensures Valid() && shared.Live() && Holds(shared) && shared.Key() == t.Key()
      ensures shared != t ==> sessions == old(sessions) && t.Private()
      ensures shared == t ==> sessions == old(sessions)[t.Key() := t]
      ensures shared == t <==> !(t.Key() in old(sessions) && !old(sessions)[t.Key()].done)
    {
      var key := t.Key();
      if key in sessions && !sessions[key].done {
        return sessions[key];
      }
      t.published := true;
      sessions := sessions[key := t];
      return t;
    }

    /** The loser of the race kills and reaps its own child. */
    method Discard(t: Pty)
      requires Valid() && t in children && t.Private()
      modifies t`discarded, t`reaps
      ensures Valid() && t.discarded && t.reaps == old(t.reaps) + 1 == 1
    {
      t.discarded := true;
      t.reaps := t.reaps + 1;
    }

    /** The end of the reader of a published pane. Calling it again changes nothing. */
    method Finish(t: Pty)
      requires Valid() && t in children && t.published
      modifies t`done, t`reaps
      ensures Valid() && t.done && t.reaps == 1
    {
      if t.done {
        return;
      }
      t.done := true;
      t.reaps := t.reaps + 1;
    }

    /** The reader's last step. It takes away its own entry, never that of a newer pane. */
    method Unregister(t: Pty)
      requires Valid() && t in children && t.done
      modifies `sessions
      ensures Valid() && !Holds(t)
      ensures sessions == if old(Holds(t)) then old(sessions) - {t.Key()} else old(sessions)
    {
      var key := t.Key();
      if key in sessions && sessions[key] == t {
        sessions := sessions - {key};
      }
    }

    /** Two calls of `GetOrCreate` that both find nothing and both start a shell. */
    method CreateRace(session: string, pane: string) returns (one: Pty, two: Pty)
      requires Valid()
      modifies this
      ensures Valid() && one == two && one.Live() && Holds(one) && one.Key() == TerminalKey(session, pane)
      ensures forall c | c in children && c.Private() :: c in old(children)
    {
      var found := Lookup(session, pane);
      if found != null {
        return found, found;
      }
      var t := Start(session, pane);
      var rival := Start(session, pane);
      two := Publish(rival);
      one := Publish(t);
      if one != t {
        Discard(t);
      }
    }

    /** The name for a fresh pane: higher-numbered than every name given out before. */
    method NextPane() returns (pane: string)
      requires Valid()
      modifies `nextName
      ensures Valid() && nextName == old(nextName) + 1 && pane == PaneName(nextName)
      ensures forall n: nat | n <= old(nextName) :: pane != PaneName(n)
    {
      nextName := nextName + 1;
      pane := PaneName(nextName);
      forall n: nat | n < nextName ensures pane != PaneName(n) {
        NamesAreNotRecycled(n, nextName);
      }
    }

    // ----------------------------------------------------------------- kills

    method Kill(session: string, pane: string) returns (t: Pty?)
      requires Valid()
      modifies `sessions, children`doomed
      ensures Valid() && sessions == old(sessions) - {TerminalKey(session, pane)}
      ensures var key := TerminalKey(session, pane);
              if key in old(sessions) then t == old(sessions)[key] else t == null
      ensures forall c | c in children :: c.doomed == (old(c.doomed) || c == t)
      ensures forall c | c in children && c.Key() == TerminalKey(session, pane) :: !c.Live()
    {
      var key := TerminalKey(session, pane);
      if key !in sessions {
        return null;
      }
      t := sessions[key];
      sessions := sessions - {key};
      t.doomed := true;
    }

    /** Takes the panes under `keys` out of the registry, for the caller to kill. */
    method Evict(keys: set<string>)
      requires Valid() && keys <= sessions.Keys
      modifies `sessions, children`doomed
      ensures Valid() && sessions == old(sessions) - keys
      ensures forall c | c in children :: c.doomed == (old(c.doomed) || (old(Holds(c)) && c.Key() in keys))
    {
      Doom(keys);
      RemoveEntries(keys);
    }

    /** Deletes the entries one by one. */
    method RemoveEntries(keys: set<string>)
      modifies `sessions
      ensures sessions == old(sessions) - keys
    {
      var todo := keys;
      while todo != {}
        invariant todo <= keys && sessions == old(sessions) - (keys - todo)
        decreases |todo|
      {
        var key :| key in todo;
        todo := todo - {key};
        sessions := sessions - {key};
      }
    }

    /** Notes that the panes under `keys` will be told to die. */
    ghost method Doom(keys: set<string>)
      requires Valid() && keys <= sessions.Keys
      modifies children`doomed
      ensures forall c | c in children :: c.doomed == (old(c.doomed) || (Holds(c) && c.Key() in keys))
      ensures forall c | c in children :: c.Accounted() && (c.Live() ==> Holds(c) && c.Key() !in keys)
      ensures forall key | key in sessions && key !in keys :: Entry(key)
    {
      var evicted := set c | c in children && Holds(c) && c.Key() in keys;
      forall c | c in evicted {
        c.doomed := true;
      }
      forall key | key in sessions && key !in keys ensures Entry(key) {
        assert old(Entry(key));
      }
      forall c | c in children ensures c.Accounted() && (c.Live() ==> Holds(c) && c.Key() !in keys) {
        assert old(c.Accounted() && (c.Live() ==> Holds(c)));
        assert c in evicted ==> old(Entry(c.Key()));
      }
    }

    /** Stores the layout and takes out the session's panes that it no longer names. */
    method SetLayout(session: string, blob: seq<bv8>, keep: seq<string>)
      requires Valid()
      modifies `layouts, `sessions, children`doomed
      ensures Valid() && layouts == old(layouts)[OrDefault(session) := blob]
      ensures forall c | c in children ::
                c.doomed == (old(c.doomed) || (old(Holds(c)) && c.session == OrDefault(session) && c.pane !in keep))
      ensures forall key :: key in sessions <==>
                key in old(sessions) &&
                (old(sessions)[key].session == OrDefault(session) ==> old(sessions)[key].pane in keep)
      ensures forall key | key in sessions :: sessions[key] == old(sessions)[key]
    {
      layouts := layouts[OrDefault(session) := blob];
      var doomed := set key |
        key in sessions && sessions[key].session == OrDefault(session) && sessions[key].pane !in keep;
      Evict(doomed);
    }

    method DropSession(session: string)
      requires Valid()
      modifies `layouts, `sessions, children`doomed
      ensures Valid() && layouts == old(layouts) - {OrDefault(session)}
      ensures forall c | c in children ::
                c.doomed == (old(c.doomed) || (old(Holds(c)) && c.session == OrDefault(session)))
      ensures forall key ::
                key in sessions <==> key in old(sessions) && old(sessions)[key].session != OrDefault(session)
      ensures forall key | key in sessions :: sessions[key] == old(sessions)[key]
    {
      layouts := layouts - {OrDefault(session)};
      var doomed := set key | key in sessions && sessions[key].session == OrDefault(session);
      Evict(doomed);
    }

    method KillAll()
      requires Valid()
      modifies `sessions, children`doomed
      ensures Valid() && sessions == map[]
      ensures forall c | c in children :: c.doomed == (old(c.doomed) || old(Holds(c))) && !c.Live()
    {
      Evict(sessions.Keys);
    }

    /** The stored layout, and the names of the session's panes in service. */
    method ListLayout(session: string) returns (blob: seq<bv8>, alive: seq<string>)
      requires Valid()
      ensures blob == if OrDefault(session) in layouts then layouts[OrDefault(session)] else []
      ensures forall p | p in alive ::
                exists c | c in children :: c.Live() && c.session == OrDefault(session) && c.pane == p
      ensures forall c | c in children && c.Live() && c.session == OrDefault(session) :: c.pane in alive
      ensures forall i, j | 0 <= i < j < |alive| :: alive[i] != alive[j]
    {
      var name := OrDefault(session);
      blob := if name in layouts then layouts[name] else [];
      alive := [];
      var todo := sessions.Keys;
      while todo != {}
        invariant todo <= sessions.Keys
        invariant forall p | p in alive :: exists c | c in children :: c.Live() && c.session == name && c.pane == p
        invariant forall key | key in sessions.Keys - todo ::
                    sessions[key].session == name && !sessions[key].done ==> sessions[key].pane in alive
        invariant forall p | p in alive :: name + [NUL] + p !in todo
        invariant forall i, j | 0 <= i < j < |alive| :: alive[i] != alive[j]
        decreases |todo|
      {
        var key :| key in todo;
        todo := todo - {key};
        var t := sessions[key];
        assert Entry(key);
        if t.session == name && !t.done {
          alive := alive + [t.pane];
        }
      }
      assert forall c | c in children && c.Live() :: Holds(c);
    }

    // ------------------------------------------------------- what it all means

    /** Callers that asked for the same pane share it: two panes in service never have one key. */
    lemma PanesAreShared(t: Pty, u: Pty)
      requires Valid() && t in children && u in children && t.Live() && u.Live() && t.Key() == u.Key()
      ensures t == u
    {
      assert Holds(t) && Holds(u);
    }

    /** No child is reaped twice, and one that has not been reaped is with its creator, in the
        registry under its key, or already told to die. */
    lemma ChildrenAreAccountedFor(t: Pty)
      requires Valid() && t in children
      ensures t.reaps <= 1 && (t.reaps == 1 <==> t.done || t.discarded) && !(t.done && t.discarded)
      ensures t.reaps == 0 ==> t.Private() || t.doomed || (t.Live() && Holds(t))
    {
      assert t.Accounted() && (t.Live() ==> Holds(t));
    }
  }
}
