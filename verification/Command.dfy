/** Turning an argument list into a command line and back. Strings are sequences of code points. */
module Commands {

  const SPECIALS := " \t\n\"'\\;|&$(){}[]<>?*~`!#"

  // ---------------------------------------------------------------- quoting

  /** `a` with each single quote written as: close the quotes, an escaped quote, open them again. */
  function Escaped(a: string): string {
    if a == "" then "" else
      Escaped(a[..|a| - 1]) + if a[|a| - 1] == '\'' then "'\\''" else [a[|a| - 1]]
  }

  predicate NeedsQuotes(a: string) {
    exists c | c in a :: c in SPECIALS
  }

  function Quote(a: string): string {
    if NeedsQuotes(a) then "'" + Escaped(a) + "'" else a
  }

  /** The quoted arguments with one space between neighbours. */
  function ShellJoin(args: seq<string>): string {
    if args == [] then ""
    else if |args| == 1 then Quote(args[0])
    else ShellJoin(args[..|args| - 1]) + " " + Quote(args[|args| - 1])
  }

  method JoinWithSpaces(parts: seq<string>, ghost args: seq<string>) returns (line: string)
    requires |parts| == |args| && forall i | 0 <= i < |args| :: parts[i] == Quote(args[i])
    ensures line == ShellJoin(args)
  {
    line := "";
    var i := 0;
    while i < |parts|
      invariant 0 <= i <= |parts|
      invariant line == ShellJoin(args[..i])
    {
      line := if i == 0 then parts[0] else line + " " + parts[i];
      assert args[..i + 1][..i] == args[..i];
      i := i + 1;
    }
    assert args[..i] == args;
  }

  method Join(args: seq<string>) returns (line: string)
    ensures line == ShellJoin(args)
  {
    var quoted: seq<string> := [];
    var i := 0;
    while i < |args|
      invariant 0 <= i <= |args| && |quoted| == i
      invariant forall k | 0 <= k < i :: quoted[k] == Quote(args[k])
    {
      quoted := quoted + [if NeedsQuotes(args[i]) then "'" + Escaped(args[i]) + "'" else args[i]];
      i := i + 1;
    }
    line := JoinWithSpaces(quoted, args);
  }

  // ---------------------------------------------------------------- parsing

  datatype Scan = Scan(inSingle: bool, inDouble: bool, escaped: bool, current: string, args: seq<string>)

  const START := Scan(false, false, false, "", [])

  function Flush(s: Scan): Scan {
    if s.current == "" then s else s.(args := s.args + [s.current], current := "")
  }

  function Read(s: Scan, c: char): Scan {
    if s.escaped then s.(current := s.current + [c], escaped := false)
    else if c == '\\' && !s.inSingle then s.(escaped := true)
    else if c == '\'' && !s.inDouble then s.(inSingle := !s.inSingle)
    else if c == '"' && !s.inSingle then s.(inDouble := !s.inDouble)
    else if c == ' ' && !s.inSingle && !s.inDouble then Flush(s)
    else s.(current := s.current + [c])
  }

  function ReadAll(s: Scan, text: string): Scan {
    if text == "" then s else Read(ReadAll(s, text[..|text| - 1]), text[|text| - 1])
  }

  function ParseCommand(cmd: string): seq<string> {
    Flush(ReadAll(START, cmd)).args
  }

  method Parse(cmd: string) returns (args: seq<string>)
    ensures args == ParseCommand(cmd)
  {
    args := [];
    var current := "";
    var inSingle, inDouble, escaped := false, false, false;
    var i := 0;
    while i < |cmd|
      invariant 0 <= i <= |cmd|
      invariant Scan(inSingle, inDouble, escaped, current, args) == ReadAll(START, cmd[..i])
    {
      var r := cmd[i];
      assert cmd[..i + 1][..i] == cmd[..i];
      i := i + 1;
      if escaped {
        current := current + [r];
        escaped := false;
        continue;
      }
      if r == '\\' && !inSingle {
        escaped := true;
        continue;
      }
      if r == '\'' && !inDouble {
        inSingle := !inSingle;
        continue;
      }
      if r == '"' && !inSingle {
        inDouble := !inDouble;
        continue;
      }
      if r == ' ' && !inSingle && !inDouble {
        if |current| > 0 {
          args := args + [current];
          current := "";
        }
        continue;
      }
      current := current + [r];
    }
    assert cmd[..i] == cmd;
    if |current| > 0 {
      args := args + [current];
    }
  }

  // ------------------------------------------------------------- round trip

  lemma {:induction false} ReadOn(s: Scan, a: string, b: string)
    ensures ReadAll(s, a + b) == ReadAll(ReadAll(s, a), b)
  {
    if b == "" {
      assert a + b == a;
    } else {
      ReadOn(s, a, b[..|b| - 1]);
      assert (a + b)[..|a + b| - 1] == a + b[..|b| - 1];
    }
  }

  lemma ReadOne(s: Scan, c: char)
    ensures ReadAll(s, [c]) == Read(s, c)
  {
    assert [c][..0] == "";
  }

  /** Between two arguments: outside all quotes. */
  predicate Open(s: Scan) {
    !s.inSingle && !s.inDouble && !s.escaped
  }

  lemma {:induction false} PlainIsVerbatim(s: Scan, a: string)
    requires Open(s) && !NeedsQuotes(a)
    ensures ReadAll(s, a) == s.(current := s.current + a)
  {
    if a != "" {
      var front, c := a[..|a| - 1], a[|a| - 1];
      assert a == front + [c] && c in a;
      assert c !in SPECIALS;
      OrdinaryIsNotSpecial(c);
      PlainIsVerbatim(s, front);
    }
  }

  lemma OrdinaryIsNotSpecial(c: char)
    requires c !in SPECIALS
    ensures c != '\\' && c != '\'' && c != '"' && c != ' '
  {
    assert SPECIALS[0] == ' ' && SPECIALS[3] == '"' && SPECIALS[4] == '\'' && SPECIALS[5] == '\\';
  }

  lemma QuoteReopens(s: Scan)
    requires s.inSingle && !s.inDouble && !s.escaped
    ensures ReadAll(s, "'\\''") == s.(current := s.current + "'")
  {
    var t := "'\\''";
    assert t == ['\''] + ['\\'] + ['\''] + ['\''];
    ReadOn(s, ['\''] + ['\\'] + ['\''], ['\'']);
    ReadOn(s, ['\''] + ['\\'], ['\'']);
    ReadOn(s, ['\''], ['\\']);
    ReadOne(s, '\'');
    ReadOne(s.(inSingle := false), '\\');
    ReadOne(s.(inSingle := false, escaped := true), '\'');
    ReadOne(s.(inSingle := false, current := s.current + "'"), '\'');
  }

  lemma {:induction false} QuotedIsVerbatim(s: Scan, a: string)
    requires s.inSingle && !s.inDouble && !s.escaped
    ensures ReadAll(s, Escaped(a)) == s.(current := s.current + a)
  {
    if a != "" {
      var front, c := a[..|a| - 1], a[|a| - 1];
      var t := s.(current := s.current + front);
      QuotedIsVerbatim(s, front);
      assert s.current + a == s.current + front + [c];
      if c == '\'' {
        ReadOn(s, Escaped(front), "'\\''");
        QuoteReopens(t);
      } else {
        ReadOn(s, Escaped(front), [c]);
        ReadOne(t, c);
      }
    }
  }

  /** A quoted argument is read back literally, whatever it contains. */
  lemma QuoteIsVerbatim(s: Scan, a: string)
    requires Open(s)
    ensures ReadAll(s, Quote(a)) == s.(current := s.current + a)
  {
    if NeedsQuotes(a) {
      var t := s.(inSingle := true);
      ReadOn(s, "'" + Escaped(a), "'");
      ReadOn(s, "'", Escaped(a));
      ReadOne(s, '\'');
      QuotedIsVerbatim(t, a);
      ReadOne(t.(current := s.current + a), '\'');
    } else {
      PlainIsVerbatim(s, a);
    }
  }

  function NonEmpty(args: seq<string>): seq<string> {
    if args == [] then [] else
      NonEmpty(args[..|args| - 1]) + if args[|args| - 1] == "" then [] else [args[|args| - 1]]
  }

  /** A space ends the argument before it. */
  lemma NextIsRead(s: Scan, a: string)
    requires Open(s)
    ensures ReadAll(s, " " + Quote(a)) == Flush(s).(current := a)
  {
    ReadOn(s, " ", Quote(a));
    ReadOne(s, ' ');
    QuoteIsVerbatim(Flush(s), a);
    assert "" + a == a;
  }

  /** After a joined list the scanner is outside all quotes, with the last argument unfinished. */
  lemma {:induction false} JoinedIsRead(args: seq<string>)
    ensures Open(ReadAll(START, ShellJoin(args)))
    ensures Flush(ReadAll(START, ShellJoin(args))) == START.(args := NonEmpty(args))
  {
    if |args| == 1 {
      QuoteIsVerbatim(START, args[0]);
      assert "" + args[0] == args[0];
      assert args[..0] == [] && NonEmpty(args[..0]) == [];
    } else if args != [] {
      var front, last := args[..|args| - 1], args[|args| - 1];
      JoinedIsRead(front);
      NextIsRead(ReadAll(START, ShellJoin(front)), last);
      ReadOn(START, ShellJoin(front), " " + Quote(last));
      assert ShellJoin(args) == ShellJoin(front) + (" " + Quote(last));
    }
  }

  /** Splitting a joined list gives the list back without its empty strings, for every list. */
  lemma JoinThenParse(args: seq<string>)
    ensures ParseCommand(ShellJoin(args)) == NonEmpty(args)
  {
    JoinedIsRead(args);
  }

  lemma {:induction false} NonEmptyKeepsAll(args: seq<string>)
    ensures NonEmpty(args) == args <==> "" !in args
    ensures |NonEmpty(args)| <= |args|
  {
    if args != [] {
      var front, last := args[..|args| - 1], args[|args| - 1];
      NonEmptyKeepsAll(front);
      assert args == front + [last];
    }
  }

  /** The round trip is exact precisely for lists without an empty string. */
  lemma RoundTrip(args: seq<string>)
    ensures ParseCommand(ShellJoin(args)) == args <==> "" !in args
  {
    JoinThenParse(args);
    NonEmptyKeepsAll(args);
  }

  lemma {:induction false} ScannedArgsAreNotEmpty(text: string)
    ensures "" !in ReadAll(START, text).args
  {
    if text != "" {
      ScannedArgsAreNotEmpty(text[..|text| - 1]);
    }
  }

  /** Any command line, however it was written, can be replaced by the joined form of its arguments. */
  lemma ParseThenJoin(cmd: string)
    ensures ParseCommand(ShellJoin(ParseCommand(cmd))) == ParseCommand(cmd)
  {
    ScannedArgsAreNotEmpty(cmd);
    RoundTrip(ParseCommand(cmd));
  }

  // ---------------------------------------------------------- the line in another shell

  /** What a shell would act on outside quotes, apart from spaces, backslashes and single quotes. */
  predicate Active(c: char) {
    c == '\t' || c == '\n' || c == '"' || c == ';' || c == '|' || c == '&' || c == '$' || c == '(' || c == ')'
    || c == '{' || c == '}' || c == '[' || c == ']' || c == '<' || c == '>' || c == '?' || c == '*' || c == '~'
    || c == '`' || c == '!' || c == '#'
  }

  lemma SpecialsListed(c: char)
    ensures c in SPECIALS <==> Active(c) || c == ' ' || c == '\\' || c == '\''
  {
    assert SPECIALS == [' ', '\t', '\n', '"', '\'', '\\', ';', '|', '&', '$', '(', ')', '{', '}', '[', ']', '<', '>',
                        '?', '*', '~', '`', '!', '#'];
  }

  /** An argument is written as it is exactly when no character in it means anything to a shell. */
  lemma BareIffHarmless(a: string)
    ensures Quote(a) == a <==> forall c | c in a :: !Active(c) && c != ' ' && c != '\\' && c != '\''
  {
    forall c | c in a ensures c in SPECIALS <==> Active(c) || c == ' ' || c == '\\' || c == '\'' {
      SpecialsListed(c);
    }
    EscapedIsNoShorter(a);
  }

  lemma {:induction false} EscapedIsNoShorter(a: string)
    ensures |Escaped(a)| >= |a|
  {
    if a != "" {
      EscapedIsNoShorter(a[..|a| - 1]);
    }
  }

  /** Read from state `s` on, each active character of `text` stands in single quotes. */
  ghost predicate Inert(s: Scan, text: string) {
    forall i | 0 <= i < |text| && Active(text[i]) :: ReadAll(s, text[..i]).inSingle
  }

  lemma InertConcat(s: Scan, a: string, b: string)
    requires Inert(s, a) && Inert(ReadAll(s, a), b)
    ensures Inert(s, a + b)
  {
    forall i | 0 <= i < |a + b| && Active((a + b)[i]) ensures ReadAll(s, (a + b)[..i]).inSingle {
      if i < |a| {
        assert (a + b)[..i] == a[..i];
      } else {
        assert (a + b)[..i] == a + b[..i - |a|];
        ReadOn(s, a, b[..i - |a|]);
      }
    }
  }

  lemma {:induction false} EscapedIsInert(s: Scan, a: string)
    requires s.inSingle && !s.inDouble && !s.escaped
    ensures Inert(s, Escaped(a))
  {
    if a != "" {
      var front, c := a[..|a| - 1], a[|a| - 1];
      EscapedIsInert(s, front);
      QuotedIsVerbatim(s, front);
      var t := ReadAll(s, Escaped(front));
      if c == '\'' {
        assert Inert(t, "'\\''");
        InertConcat(s, Escaped(front), "'\\''");
      } else {
        assert [c][..0] == "" && Inert(t, [c]);
        InertConcat(s, Escaped(front), [c]);
      }
    }
  }

  lemma QuoteIsInert(s: Scan, a: string)
    requires Open(s)
    ensures Inert(s, Quote(a))
  {
    if NeedsQuotes(a) {
      var t := s.(inSingle := true);
      ReadOne(s, '\'');
      EscapedIsInert(t, a);
      assert Inert(s, "'");
      InertConcat(s, "'", Escaped(a));
      assert Inert(ReadAll(s, "'" + Escaped(a)), "'");
      InertConcat(s, "'" + Escaped(a), "'");
    } else {
      forall c | c in a ensures !Active(c) {
        SpecialsListed(c);
      }
      assert forall i | 0 <= i < |a| :: a[i] in a;
    }
  }

  /** In a joined line every character that a shell would act on stands in single quotes, whatever the
      arguments contain. */
  lemma {:induction false} JoinedIsInert(args: seq<string>)
    ensures Inert(START, ShellJoin(args))
  {
    if |args| == 1 {
      QuoteIsInert(START, args[0]);
    } else if args != [] {
      var front, last := args[..|args| - 1], args[|args| - 1];
      var s := ReadAll(START, ShellJoin(front));
      JoinedIsInert(front);
      JoinedIsRead(front);
      assert Inert(s, " ");
      InertConcat(START, ShellJoin(front), " ");
      ReadOn(START, ShellJoin(front), " ");
      ReadOne(s, ' ');
      QuoteIsInert(Flush(s), last);
      InertConcat(START, ShellJoin(front) + " ", Quote(last));
    }
  }
}
