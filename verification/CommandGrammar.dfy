/**
  What a command line means, said without a scanner: words made of bare characters, backslash pairs,
  single-quoted and double-quoted stretches. Every line is of this form, up to an unclosed end.
 */
module CommandGrammar {
  import opened Commands

  /** Inside double quotes: a character that stands for itself, or one behind a backslash. */
  datatype Part = Plain(c: char) | Behind(c: char)

  datatype Piece =
    | Bare(c: char)                 // outside all quotes
    | Backslash(c: char)            // any character behind a backslash
    | Single(text: string)          // in single quotes, all literal
    | Double(parts: seq<Part>)      // in double quotes

  type Word = seq<Piece>

  predicate ProperPart(p: Part) {
    p.Plain? ==> p.c != '"' && p.c != '\\'
  }

  predicate ProperParts(parts: seq<Part>) {
    forall i | 0 <= i < |parts| :: ProperPart(parts[i])
  }

  predicate ProperPiece(p: Piece) {
    match p
    case Bare(c) => c != '\\' && c != '\'' && c != '"' && c != ' '
    case Backslash(_) => true
    case Single(text) => '\'' !in text
    case Double(parts) => ProperParts(parts)
  }

  predicate Proper(words: seq<Word>) {
    forall i | 0 <= i < |words| :: ProperWord(words[i])
  }

  predicate ProperWord(word: Word) {
    forall k | 0 <= k < |word| :: ProperPiece(word[k])
  }

  // --------------------------------------------------------- how it is written, what it means

  function SpellPart(p: Part): string {
    if p.Plain? then [p.c] else ['\\', p.c]
  }

  function SpellParts(parts: seq<Part>): string {
    if parts == [] then "" else SpellParts(parts[..|parts| - 1]) + SpellPart(parts[|parts| - 1])
  }

  function MeanParts(parts: seq<Part>): string {
    seq(|parts|, i requires 0 <= i < |parts| => parts[i].c)
  }

  function SpellPiece(p: Piece): string {
    match p
    case Bare(c) => [c]
    case Backslash(c) => ['\\', c]
    case Single(text) => "'" + text + "'"
    case Double(parts) => "\"" + SpellParts(parts) + "\""
  }

  function MeanPiece(p: Piece): string {
    match p
    case Bare(c) => [c]
    case Backslash(c) => [c]
    case Single(text) => text
    case Double(parts) => MeanParts(parts)
  }

  function SpellWord(word: Word): string {
    if word == [] then "" else SpellWord(word[..|word| - 1]) + SpellPiece(word[|word| - 1])
  }

  function MeanWord(word: Word): string {
    if word == [] then "" else MeanWord(word[..|word| - 1]) + MeanPiece(word[|word| - 1])
  }

  /** The words with a space between neighbours; a word without pieces stands for one more space. */
  function SpellLine(words: seq<Word>): string {
    if words == [] then ""
    else if |words| == 1 then SpellWord(words[0])
    else SpellLine(words[..|words| - 1]) + " " + SpellWord(words[|words| - 1])
  }

  function MeanLine(words: seq<Word>): seq<string> {
    seq(|words|, i requires 0 <= i < |words| => MeanWord(words[i]))
  }

  // ----------------------------------------------------------------------- reading one piece

  lemma PartIsRead(s: Scan, p: Part)
    requires s.inDouble && !s.inSingle && !s.escaped && ProperPart(p)
    ensures ReadAll(s, SpellPart(p)) == s.(current := s.current + [p.c])
  {
    if p.Plain? {
      ReadOne(s, p.c);
    } else {
      ReadPair(s, '\\', p.c);
    }
  }

  lemma ReadPair(s: Scan, c: char, d: char)
    ensures ReadAll(s, [c, d]) == Read(Read(s, c), d)
  {
    assert [c, d] == [c] + [d];
    ReadOn(s, [c], [d]);
    ReadOne(s, c);
    ReadOne(Read(s, c), d);
  }

  /** Inside double quotes single quotes and spaces are literal, and a backslash takes the next
      character literally. */
  lemma {:induction false} PartsAreRead(s: Scan, parts: seq<Part>)
    requires s.inDouble && !s.inSingle && !s.escaped && ProperParts(parts)
    ensures ReadAll(s, SpellParts(parts)) == s.(current := s.current + MeanParts(parts))
  {
    if parts == [] {
      assert s.current + MeanParts(parts) == s.current;
    } else {
      var front, last := parts[..|parts| - 1], parts[|parts| - 1];
      PartsAreRead(s, front);
      ReadOn(s, SpellParts(front), SpellPart(last));
      PartIsRead(s.(current := s.current + MeanParts(front)), last);
      assert MeanParts(parts) == MeanParts(front) + [last.c];
      assert s.current + MeanParts(front) + [last.c] == s.current + MeanParts(parts);
    }
  }

  lemma {:induction false} SingleIsRead(s: Scan, text: string)
    requires s.inSingle && !s.inDouble && !s.escaped && '\'' !in text
    ensures ReadAll(s, text) == s.(current := s.current + text)
  {
    if text == "" {
      assert s.current + text == s.current;
    } else {
      var front, last := text[..|text| - 1], text[|text| - 1];
      assert text == front + [last];
      SingleIsRead(s, front);
      assert s.current + front + [last] == s.current + text;
    }
  }

  lemma BetweenMarks(s: Scan, mark: char, inner: string)
    ensures ReadAll(s, [mark] + inner + [mark]) == Read(ReadAll(Read(s, mark), inner), mark)
  {
    ReadOn(s, [mark] + inner, [mark]);
    ReadOn(s, [mark], inner);
    ReadOne(s, mark);
    ReadOne(ReadAll(Read(s, mark), inner), mark);
  }

  lemma QuotedSingle(s: Scan, text: string)
    requires Open(s) && '\'' !in text
    ensures ReadAll(s, "'" + text + "'") == s.(current := s.current + text)
  {
    var t := s.(inSingle := true);
    BetweenMarks(s, '\'', text);
    SingleIsRead(t, text);
    assert Read(t.(current := s.current + text), '\'') == s.(current := s.current + text);
  }

  lemma QuotedDouble(s: Scan, parts: seq<Part>)
    requires Open(s) && ProperParts(parts)
    ensures ReadAll(s, "\"" + SpellParts(parts) + "\"") == s.(current := s.current + MeanParts(parts))
  {
    var t := s.(inDouble := true);
    BetweenMarks(s, '"', SpellParts(parts));
    PartsAreRead(t, parts);
    assert Read(t.(current := s.current + MeanParts(parts)), '"') == s.(current := s.current + MeanParts(parts));
  }

  /** Each piece adds what it means to the argument under way, and leaves all quotes closed. */
  lemma PieceIsRead(s: Scan, p: Piece)
    requires Open(s) && ProperPiece(p)
    ensures ReadAll(s, SpellPiece(p)) == s.(current := s.current + MeanPiece(p))
  {
    match p {
      case Bare(c) => ReadOne(s, c);
      case Backslash(c) => ReadPair(s, '\\', c);
      case Single(text) => QuotedSingle(s, text);
      case Double(parts) => QuotedDouble(s, parts);
    }
  }

  lemma Associates(a: string, b: string, c: string)
    ensures (a + b) + c == a + (b + c)
  {
  }

  lemma {:induction false} WordIsRead(s: Scan, word: Word)
    requires Open(s) && ProperWord(word)
    ensures ReadAll(s, SpellWord(word)) == s.(current := s.current + MeanWord(word))
  {
    if word == [] {
      assert s.current + MeanWord(word) == s.current;
    } else {
      var front, last := word[..|word| - 1], word[|word| - 1];
      var t := s.(current := s.current + MeanWord(front));
      WordIsRead(s, front);
      ReadOn(s, SpellWord(front), SpellPiece(last));
      PieceIsRead(t, last);
      Associates(s.current, MeanWord(front), MeanPiece(last));
    }
  }

  // ---------------------------------------------------------------------------- whole lines

  /** After a line the scanner holds its last word, unfinished, and the others as arguments. */
  lemma {:induction false} LineIsRead(words: seq<Word>)
    requires words != [] && Proper(words)
    ensures ReadAll(START, SpellLine(words)) ==
            START.(current := MeanWord(words[|words| - 1]), args := NonEmpty(MeanLine(words[..|words| - 1])))
  {
    var front, last := words[..|words| - 1], words[|words| - 1];
    if |words| == 1 {
      WordIsRead(START, last);
      assert "" + MeanWord(last) == MeanWord(last);
      assert MeanLine(front) == [];
    } else {
      LineIsRead(front);
      var s := ReadAll(START, SpellLine(front));
      ReadOn(START, SpellLine(front) + " ", SpellWord(last));
      ReadOn(START, SpellLine(front), " ");
      ReadOne(s, ' ');
      FlushedLine(front);
      WordIsRead(Flush(s), last);
      assert "" + MeanWord(last) == MeanWord(last);
    }
  }

  lemma FlushedLine(words: seq<Word>)
    requires words != []
    ensures var s := START.(current := MeanWord(words[|words| - 1]), args := NonEmpty(MeanLine(words[..|words| - 1])));
            Flush(s) == START.(args := NonEmpty(MeanLine(words)))
  {
    assert MeanLine(words)[..|words| - 1] == MeanLine(words[..|words| - 1]);
    assert MeanLine(words)[|words| - 1] == MeanWord(words[|words| - 1]);
  }

  /** Splitting a line of words gives what the words mean, those that mean nothing left out. */
  lemma LineIsUnderstood(words: seq<Word>)
    requires Proper(words)
    ensures ParseCommand(SpellLine(words)) == NonEmpty(MeanLine(words))
  {
    if words == [] {
      assert MeanLine(words) == [];
    } else {
      LineIsRead(words);
      FlushedLine(words);
    }
  }

  // --------------------------------------------------------------------------- unclosed ends

  /** What may stand unclosed at the end of a line. */
  datatype Tail =
    | Closed                              // nothing
    | Dangling                            // a backslash with nothing behind it
    | InSingle(text: string)              // a single-quoted stretch without its end
    | InDouble(parts: seq<Part>)          // a double-quoted stretch without its end
    | InDoubleDangling(parts: seq<Part>)

  predicate ProperTail(t: Tail) {
    match t
    case InSingle(text) => '\'' !in text
    case InDouble(parts) => ProperParts(parts)
    case InDoubleDangling(parts) => ProperParts(parts)
    case _ => true
  }

  function SpellTail(t: Tail): string {
    match t
    case Closed => ""
    case Dangling => "\\"
    case InSingle(text) => "'" + text
    case InDouble(parts) => "\"" + SpellParts(parts)
    case InDoubleDangling(parts) => "\"" + SpellParts(parts) + "\\"
  }

  /** An unclosed stretch counts as if closed at the end; a dangling backslash counts for nothing. */
  function MeanTail(t: Tail): Word {
    match t
    case Closed => []
    case Dangling => []
    case InSingle(text) => [Single(text)]
    case InDouble(parts) => [Double(parts)]
    case InDoubleDangling(parts) => [Double(parts)]
  }

  /** The words with `more` added to the last of them. */
  function Extended(words: seq<Word>, more: Word): (w: seq<Word>)
    requires words != []
    ensures w != [] && |w| == |words|
  {
    words[..|words| - 1] + [words[|words| - 1] + more]
  }

  lemma TailIsRead(s: Scan, t: Tail)
    requires Open(s) && ProperTail(t)
    ensures var s' := ReadAll(s, SpellTail(t));
            s'.args == s.args && s'.current == s.current + MeanWord(MeanTail(t))
  {
    TailMeans(t);
    match t {
      case Closed =>
        assert s.current + "" == s.current;
      case Dangling =>
        ReadOne(s, '\\');
        assert s.current + "" == s.current;
      case InSingle(text) =>
        ReadOn(s, "'", text);
        ReadOne(s, '\'');
        SingleIsRead(s.(inSingle := true), text);
      case InDouble(parts) =>
        DoubleBegins(s, parts);
      case InDoubleDangling(parts) =>
        DoubleBegins(s, parts);
        ReadOn(s, "\"" + SpellParts(parts), "\\");
        ReadOne(ReadAll(s, "\"" + SpellParts(parts)), '\\');
    }
  }

  lemma DoubleBegins(s: Scan, parts: seq<Part>)
    requires Open(s) && ProperParts(parts)
    ensures ReadAll(s, "\"" + SpellParts(parts)) == s.(inDouble := true, current := s.current + MeanParts(parts))
  {
    ReadOn(s, "\"", SpellParts(parts));
    ReadOne(s, '"');
    PartsAreRead(s.(inDouble := true), parts);
  }

  lemma TailMeans(t: Tail)
    ensures MeanWord(MeanTail(t)) ==
            match t { case InSingle(text) => text
                      case InDouble(parts) => MeanParts(parts)
                      case InDoubleDangling(parts) => MeanParts(parts)
                      case _ => "" }
  {
    var w := MeanTail(t);
    if w != [] {
      assert w[..0] == [] && MeanWord(w) == MeanWord(w[..0]) + MeanPiece(w[0]);
      assert "" + MeanPiece(w[0]) == MeanPiece(w[0]);
    }
  }

  /** The words and the unclosed end of a line. */
  datatype Line = Line(words: seq<Word>, tail: Tail)

  predicate ProperLine(l: Line) {
    l.words != [] && Proper(l.words) && ProperTail(l.tail)
  }

  function Spell(l: Line): string {
    SpellLine(l.words) + SpellTail(l.tail)
  }

  function Mean(l: Line): seq<string>
    requires l.words != []
  {
    NonEmpty(MeanLine(Extended(l.words, MeanTail(l.tail))))
  }

  lemma {:induction false} MeanWordOn(a: Word, b: Word)
    requires |b| <= 1
    ensures MeanWord(a + b) == MeanWord(a) + MeanWord(b)
  {
    if b == [] {
      assert a + b == a;
    } else {
      assert (a + b)[..|a|] == a && b[..0] == [];
      assert "" + MeanPiece(b[0]) == MeanPiece(b[0]);
    }
  }

  lemma ExtendedMeans(l: Line)
    requires ProperLine(l)
    ensures var all := Extended(l.words, MeanTail(l.tail));
            var s := START.(current := MeanWord(l.words[|l.words| - 1]) + MeanWord(MeanTail(l.tail)),
                            args := NonEmpty(MeanLine(l.words[..|l.words| - 1])));
            Flush(s).args == NonEmpty(MeanLine(all))
  {
    var all := Extended(l.words, MeanTail(l.tail));
    MeanWordOn(l.words[|l.words| - 1], MeanTail(l.tail));
    assert all[..|all| - 1] == l.words[..|l.words| - 1];
    FlushedLine(all);
  }

  /** Splitting any line, closed or not, gives what it means. */
  lemma SpelledIsUnderstood(l: Line)
    requires ProperLine(l)
    ensures ParseCommand(Spell(l)) == Mean(l)
  {
    LineIsRead(l.words);
    var s := ReadAll(START, SpellLine(l.words));
    ReadOn(START, SpellLine(l.words), SpellTail(l.tail));
    TailIsRead(s, l.tail);
    ExtendedMeans(l);
  }

  // ------------------------------------------------------------- every string is such a line

  lemma WordSnoc(word: Word, p: Piece)
    ensures SpellWord(word + [p]) == SpellWord(word) + SpellPiece(p)
  {
    assert (word + [p])[..|word|] == word;
  }

  lemma PieceAdded(words: seq<Word>, p: Piece)
    requires words != [] && Proper(words) && ProperPiece(p)
    ensures Proper(Extended(words, [p]))
    ensures SpellLine(Extended(words, [p])) == SpellLine(words) + SpellPiece(p)
  {
    var front, last := words[..|words| - 1], words[|words| - 1];
    var all := Extended(words, [p]);
    WordSnoc(last, p);
    assert all[..|all| - 1] == front && all[|all| - 1] == last + [p];
    assert ProperWord(last + [p]);
    if |words| > 1 {
      Associates(SpellLine(front) + " ", SpellWord(last), SpellPiece(p));
    }
  }

  lemma WordAdded(words: seq<Word>)
    requires words != [] && Proper(words)
    ensures Proper(words + [[]]) && SpellLine(words + [[]]) == SpellLine(words) + " "
  {
    var all := words + [[]];
    assert all[..|all| - 1] == words && ProperWord([]);
    assert SpellLine(words) + " " + "" == SpellLine(words) + " ";
  }

  lemma PartsSnoc(parts: seq<Part>, p: Part)
    ensures SpellParts(parts + [p]) == SpellParts(parts) + SpellPart(p)
  {
    assert (parts + [p])[..|parts|] == parts;
  }

  /** One more character at the end of a line. */
  function Next(l: Line, c: char): Line
    requires l.words != []
  {
    match l.tail
    case Closed =>
      if c == '\\' then l.(tail := Dangling)
      else if c == '\'' then l.(tail := InSingle(""))
      else if c == '"' then l.(tail := InDouble([]))
      else if c == ' ' then l.(words := l.words + [[]])
      else l.(words := Extended(l.words, [Bare(c)]))
    case Dangling => Line(Extended(l.words, [Backslash(c)]), Closed)
    case InSingle(text) =>
      if c == '\'' then Line(Extended(l.words, [Single(text)]), Closed) else l.(tail := InSingle(text + [c]))
    case InDouble(parts) =>
      if c == '"' then Line(Extended(l.words, [Double(parts)]), Closed)
      else if c == '\\' then l.(tail := InDoubleDangling(parts))
      else l.(tail := InDouble(parts + [Plain(c)]))
    case InDoubleDangling(parts) => l.(tail := InDouble(parts + [Behind(c)]))
  }

  /** The line becomes `l'` when `c` is written after it. */
  predicate Grows(l: Line, c: char, l': Line) {
    ProperLine(l') && Spell(l') == Spell(l) + [c]
  }

  lemma ClosedNext(l: Line, c: char)
    requires ProperLine(l) && l.tail.Closed?
    ensures Grows(l, c, Next(l, c))
  {
    if c == ' ' {
      WordAdded(l.words);
    } else if c != '\\' && c != '\'' && c != '"' {
      PieceAdded(l.words, Bare(c));
    }
  }

  lemma SingleNext(l: Line, c: char)
    requires ProperLine(l) && l.tail.InSingle?
    ensures Grows(l, c, Next(l, c))
  {
    if c == '\'' {
      PieceAdded(l.words, Single(l.tail.text));
    }
  }

  lemma DoubleCloses(l: Line)
    requires ProperLine(l) && l.tail.InDouble?
    ensures Grows(l, '"', Next(l, '"'))
  {
    var parts := l.tail.parts;
    PieceAdded(l.words, Double(parts));
    Associates(SpellLine(l.words), "\"" + SpellParts(parts), "\"");
  }

  lemma DoubleGoesOn(l: Line, c: char)
    requires ProperLine(l) && l.tail.InDouble? && c != '"'
    ensures Grows(l, c, Next(l, c))
  {
    var parts := l.tail.parts;
    Associates(SpellLine(l.words), "\"" + SpellParts(parts), [c]);
    if c != '\\' {
      PartsSnoc(parts, Plain(c));
      Associates("\"", SpellParts(parts), [c]);
    }
  }

  lemma NextSpells(l: Line, c: char)
    requires ProperLine(l)
    ensures Grows(l, c, Next(l, c))
  {
    match l.tail {
      case Closed => ClosedNext(l, c);
      case Dangling => PieceAdded(l.words, Backslash(c));
      case InSingle(_) => SingleNext(l, c);
      case InDouble(_) => if c == '"' { DoubleCloses(l); } else { DoubleGoesOn(l, c); }
      case InDoubleDangling(parts) => PartsSnoc(parts, Behind(c));
    }
  }

  predicate Writes(l: Line, cmd: string) {
    ProperLine(l) && Spell(l) == cmd
  }

  ghost predicate Writable(cmd: string) {
    exists l: Line :: Writes(l, cmd)
  }

  lemma NothingIsWritable()
    ensures Writable("")
  {
    assert SpellWord([]) == "" && ProperWord([]);
    assert Writes(Line([[]], Closed), "");
  }

  lemma MoreIsWritable(front: string, c: char)
    requires Writable(front)
    ensures Writable(front + [c])
  {
    var l :| Writes(l, front);
    NextSpells(l, c);
    assert Writes(Next(l, c), front + [c]);
  }

  lemma {:induction false} EveryLineIsWritable(cmd: string)
    ensures Writable(cmd)
  {
    if cmd == "" {
      NothingIsWritable();
    } else {
      var front, c := cmd[..|cmd| - 1], cmd[|cmd| - 1];
      assert cmd == front + [c];
      EveryLineIsWritable(front);
      MoreIsWritable(front, c);
    }
  }

  /** The meaning of every command line: it is written in one way or another as words with a possibly
      unclosed end, and however that is done, splitting gives what they mean. */
  lemma CommandIsUnderstood(cmd: string)
    ensures Writable(cmd)
    ensures forall l: Line | Writes(l, cmd) :: ParseCommand(cmd) == Mean(l)
  {
    EveryLineIsWritable(cmd);
    forall l: Line | Writes(l, cmd) ensures ParseCommand(cmd) == Mean(l) {
      SpelledIsUnderstood(l);
    }
  }

  // --------------------------------------------------------------- a second way of quoting

  /** An argument in double quotes, with a backslash before each double quote and backslash. */
  function PartsOf(a: string): seq<Part> {
    seq(|a|, i requires 0 <= i < |a| => if a[i] == '"' || a[i] == '\\' then Behind(a[i]) else Plain(a[i]))
  }

  function DoubleJoin(args: seq<string>): string {
    SpellLine(DoubleWords(args))
  }

  function DoubleWords(args: seq<string>): seq<Word> {
    seq(|args|, i requires 0 <= i < |args| => [Double(PartsOf(args[i]))])
  }

  /** A list written in double quotes is split back like one written in single quotes. */
  lemma DoubleJoinThenParse(args: seq<string>)
    ensures ParseCommand(DoubleJoin(args)) == NonEmpty(args) == ParseCommand(ShellJoin(args))
  {
    var words := DoubleWords(args);
    forall i | 0 <= i < |args| ensures ProperWord(words[i]) && MeanWord(words[i]) == args[i] {
      assert words[i][..0] == [] && MeanParts(PartsOf(args[i])) == args[i];
      assert "" + args[i] == args[i];
    }
    assert MeanLine(words) == args;
    LineIsUnderstood(words);
    JoinThenParse(args);
  }
}
