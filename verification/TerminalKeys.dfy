/** The names under which panes are registered. */
module TerminalKeys {

  const NUL := 0 as char

  function OrDefault(session: string): string {
    if session == "" then "default" else session
  }

  function OrMain(pane: string): string {
    if pane == "" then "main" else pane
  }

  function TerminalKey(session: string, pane: string): string {
    OrDefault(session) + [NUL] + OrMain(pane)
  }

  /** A session or pane without a name is the session `default` or the pane `main`, and no other. */
  lemma UnnamedAreDefaults(session: string, pane: string)
    requires NUL !in session
    ensures TerminalKey(session, pane) == TerminalKey("", "") <==>
              (session == "" || session == "default") && (pane == "" || pane == "main")
  {
    KeysTellPanesApart(session, pane, "", "");
  }

  lemma KeyParts(s1: string, p1: string, s2: string, p2: string)
    ensures s1 + [NUL] + p1 == s2 + [NUL] + p2 && |s1| <= |s2| ==>
              (s1 == s2 && p1 == p2) || Overlaps(s1, p1, s2, p2)
  {
    var k := s1 + [NUL] + p1;
    if k == s2 + [NUL] + p2 && |s1| <= |s2| {
      assert k[..|s1|] == s1 && k[|s1|] == NUL && k[|s1| + 1..] == p1;
      assert k[..|s2|] == s2 && k[|s2|] == NUL && k[|s2| + 1..] == p2;
      if |s1| < |s2| {
        var rest := s2[|s1| + 1..];
        assert s2 == s2[..|s1|] + [s2[|s1|]] + rest;
        assert s2[..|s1|] == k[..|s1|] && s2[|s1|] == k[|s1|];
        assert p1 == k[|s1| + 1..|s2|] + [k[|s2|]] + k[|s2| + 1..];
        assert rest == k[|s1| + 1..|s2|];
      }
    }
  }

  /** The longer session name continues the shorter one after a NUL, and the pane of the shorter
      takes up the rest. */
  predicate Overlaps(s1: string, p1: string, s2: string, p2: string) {
    |s1| < |s2| && s2 == s1 + [NUL] + s2[|s1| + 1..] && p1 == s2[|s1| + 1..] + [NUL] + p2
  }

  lemma OverlapsCollide(s1: string, p1: string, s2: string, p2: string)
    ensures Overlaps(s1, p1, s2, p2) ==> s1 + [NUL] + p1 == s2 + [NUL] + p2
  {
    if Overlaps(s1, p1, s2, p2) {
      OverlapsBy(s1, s2[|s1| + 1..], p2);
    }
  }

  /** Two panes have one key exactly when they are the same pane or their names overlap in this way. */
  lemma KeysCollideExactly(session1: string, pane1: string, session2: string, pane2: string)
    ensures var s1, p1, s2, p2 := OrDefault(session1), OrMain(pane1), OrDefault(session2), OrMain(pane2);
            TerminalKey(session1, pane1) == TerminalKey(session2, pane2) <==>
              (s1 == s2 && p1 == p2) || Overlaps(s1, p1, s2, p2) || Overlaps(s2, p2, s1, p1)
  {
    var s1, p1, s2, p2 := OrDefault(session1), OrMain(pane1), OrDefault(session2), OrMain(pane2);
    KeyParts(s1, p1, s2, p2);
    KeyParts(s2, p2, s1, p1);
    OverlapsCollide(s1, p1, s2, p2);
    OverlapsCollide(s2, p2, s1, p1);
  }

  lemma OverlapHoldsNul(s1: string, p1: string, s2: string, p2: string)
    ensures Overlaps(s1, p1, s2, p2) ==> NUL in s2
  {
    if Overlaps(s1, p1, s2, p2) {
      assert s2[|s1|] == NUL;
    }
  }

  /** Panes of sessions whose names hold no NUL have one key only if they are the same pane. */
  lemma KeysTellPanesApart(session1: string, pane1: string, session2: string, pane2: string)
    requires NUL !in session1 && NUL !in session2
    ensures TerminalKey(session1, pane1) == TerminalKey(session2, pane2) <==>
            OrDefault(session1) == OrDefault(session2) && OrMain(pane1) == OrMain(pane2)
  {
    var s1, p1, s2, p2 := OrDefault(session1), OrMain(pane1), OrDefault(session2), OrMain(pane2);
    KeysCollideExactly(session1, pane1, session2, pane2);
    OverlapHoldsNul(s1, p1, s2, p2);
    OverlapHoldsNul(s2, p2, s1, p1);
  }

  /** And every session name that holds a NUL collides: some pane of it has the key of a pane of
      another session. */
  lemma NulCollides(session: string) returns (pane: string, other: string, otherPane: string)
    requires NUL in session
    ensures OrDefault(other) != OrDefault(session)
    ensures TerminalKey(session, pane) == TerminalKey(other, otherPane)
  {
    var i :| 0 <= i < |session| && session[i] == NUL;
    var front, rest := session[..i], session[i + 1..];
    assert session == front + [NUL] + rest;
    if front == "" {
      pane, other, otherPane := rest + [NUL] + "main", session + [NUL] + rest, "main";
      OverlapsBy(session, rest, "main");
    } else {
      pane, other, otherPane := "main", front, rest + [NUL] + "main";
      OverlapsBy(front, rest, "main");
    }
  }

  lemma OverlapsBy(s: string, rest: string, p: string)
    ensures s + [NUL] + (rest + [NUL] + p) == (s + [NUL] + rest) + [NUL] + p
  {
  }

  /** For instance, these two panes share a key. */
  lemma KeysCanCollide()
    ensures TerminalKey("a", "b" + [NUL] + "c") == TerminalKey("a" + [NUL] + "b", "c")
  {
    OverlapsBy("a", "b", "c");
  }
}
