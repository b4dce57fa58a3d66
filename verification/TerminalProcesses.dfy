/**
  The goroutines around the registry: any number of calls of `GetOrCreate` and of readers, each
  performing its critical sections in its own time, with kills in between.
 */
module TerminalProcesses {
  import opened TerminalKeys
  import opened TerminalRegistry

  /** The session and pane that a call asks for. */
  type Wanted = (string, string)

  class PaneDaemon {
    const manager: TerminalManager
    /** Calls before their look-up, and calls that found nothing. */
    var looking: multiset<Wanted>
    var starting: multiset<Wanted>
    /** Calls that hold a child: about to publish it, or to discard it. */
    var publishing: set<Pty>
    var losing: set<Pty>
    /** Readers: waiting for the end of their pane, or about to unregister it. */
    var reading: set<Pty>
    var leaving: set<Pty>

    ghost predicate Valid()
      reads this, manager, manager.children
    {
      && manager.Valid()
      && publishing <= manager.children && losing <= manager.children
      && reading <= manager.children && leaving <= manager.children
      && publishing !! losing
      && forall t | t in manager.children :: Attended(t)
    }

    /** A private child has its creator, a running one its reader. */
    ghost predicate Attended(t: Pty)
      reads this, t
    {
      && (t.Private() <==> t in publishing + losing)
      && (t.published && !t.done <==> t in reading)
      && (t in leaving ==> t.done)
    }

    constructor ()
      ensures Valid() && fresh(manager) && manager.children == {}
      ensures looking == starting == multiset{} && publishing == losing == reading == leaving == {}
    {
      manager := new TerminalManager();
      looking, starting := multiset{}, multiset{};
      publishing, losing, reading, leaving := {}, {}, {}, {};
    }

    // ------------------------------------------------------------ GetOrCreate

    method Call(session: string, pane: string)
      requires Valid()
      modifies `looking
      ensures Valid() && looking == old(looking) + multiset{(session, pane)}
    {
      looking := looking + multiset{(session, pane)};
    }

    /** The look-up: the call returns with the pane in service, or goes on to start one. */
    method Find(session: string, pane: string) returns (found: Pty?)
      requires Valid() && (session, pane) in looking
      modifies `looking, `starting, manager`sessions
      ensures Valid() && looking == old(looking) - multiset{(session, pane)}
      ensures found != null ==> found.Live() && manager.Holds(found) && starting == old(starting)
      ensures found == null ==> starting == old(starting) + multiset{(session, pane)}
    {
      looking := looking - multiset{(session, pane)};
      found := manager.Lookup(session, pane);
      if found == null {
        starting := starting + multiset{(session, pane)};
      }
      assert forall t | t in manager.children :: old(Attended(t));
    }

    /** Starts the shell; the call returns with an error when that fails. */
    method Launch(session: string, pane: string, starts: bool) returns (t: Pty?)
      requires Valid() && (session, pane) in starting
      modifies `starting, `publishing, manager`children
      ensures Valid() && starting == old(starting) - multiset{(session, pane)}
      ensures (t != null) == starts && (t == null ==> publishing == old(publishing))
      ensures t != null ==> fresh(t) && publishing == old(publishing) + {t} && t.Key() == TerminalKey(session, pane)
    {
      starting := starting - multiset{(session, pane)};
      if !starts {
        assert forall c | c in manager.children :: old(Attended(c));
        return null;
      }
      t := manager.Start(session, pane);
      publishing := publishing + {t};
      forall c | c in manager.children ensures Attended(c) {
        assert c != t ==> old(Attended(c));
      }
    }

    /** The second check: the call returns with its own pane and leaves a reader, or has lost. */
    method Settle(t: Pty) returns (shared: Pty)
      requires Valid() && t in publishing
      modifies `publishing, `losing, `reading, manager`sessions, t`published
      ensures Valid() && publishing == old(publishing) - {t}
      ensures shared.Live() && manager.Holds(shared) && shared.Key() == t.Key()
      ensures if shared == t then reading == old(reading) + {t} && losing == old(losing)
              else losing == old(losing) + {t} && reading == old(reading)
    {
      assert Attended(t);
      shared := manager.Publish(t);
      publishing := publishing - {t};
      if shared == t {
        reading := reading + {t};
      } else {
        losing := losing + {t};
      }
      forall c | c in manager.children ensures Attended(c) {
        assert old(Attended(c));
      }
    }

    /** The loser reaps its child and returns with the winner's pane. */
    method Lose(t: Pty)
      requires Valid() && t in losing
      modifies `losing, t`discarded, t`reaps
      ensures Valid() && losing == old(losing) - {t} && t.reaps == 1
    {
      assert Attended(t);
      manager.Discard(t);
      losing := losing - {t};
      forall c | c in manager.children ensures Attended(c) {
        assert old(Attended(c));
      }
    }

    // ---------------------------------------------------------------- readers

    method ReaderEnds(t: Pty)
      requires Valid() && t in reading
      modifies `reading, `leaving, t`done, t`reaps
      ensures Valid() && reading == old(reading) - {t} && leaving == old(leaving) + {t} && t.reaps == 1
    {
      assert Attended(t);
      manager.Finish(t);
      reading, leaving := reading - {t}, leaving + {t};
      forall c | c in manager.children ensures Attended(c) {
        assert old(Attended(c));
      }
    }

    method ReaderLeaves(t: Pty)
      requires Valid() && t in leaving
      modifies `leaving, manager`sessions
      ensures Valid() && leaving == old(leaving) - {t} && !manager.Holds(t)
    {
      assert Attended(t);
      manager.Unregister(t);
      leaving := leaving - {t};
      forall c | c in manager.children ensures Attended(c) {
        assert old(Attended(c));
      }
    }

    /** Any kill: some entries leave the registry and their panes are told to die. */
    method Evict(keys: set<string>)
      requires Valid() && keys <= manager.sessions.Keys
      modifies manager`sessions, manager.children`doomed
      ensures Valid() && manager.sessions == old(manager.sessions) - keys
    {
      manager.Evict(keys);
      forall c | c in manager.children ensures Attended(c) {
        assert old(Attended(c));
      }
    }

    // ------------------------------------------------------- what it all means

    /** Once every call has returned, each child ever started has been reaped exactly once, or its
        reader waits for it: then it is the registered pane of its key, or told to die. */
    lemma NoChildIsLost(t: Pty)
      requires Valid() && publishing == losing == {} && t in manager.children
      ensures if t in reading then t.reaps == 0 && (t.doomed || (t.Live() && manager.Holds(t)))
              else t.reaps == 1
    {
      assert Attended(t) && t.Accounted() && (t.Live() ==> manager.Holds(t));
    }

    /** And once every reader has returned too, every child has been reaped, once. */
    lemma AllChildrenReaped(t: Pty)
      requires Valid() && publishing == losing == reading == {} && t in manager.children
      ensures t.reaps == 1
    {
      NoChildIsLost(t);
    }
  }
}
