/** What the parser promises: splitting and joining are inverse, trimming is
    idempotent, the first one or two characters of the trimmed line decide the
    outcome, and every command the parser can produce is read back from the
    line that spells it. */
module ParserProps {
  import opened Wrappers
  import opened Controller
  import opened Parser

  /** A word with no white space in it. */
  predicate IsToken(w: string) {
    forall k :: 0 <= k < |w| ==> !IsWhiteSpace(w[k])
  }

  /** A line with no white space at either end is left as it is by trimming. */
  lemma TrimClean(s: string)
    requires s == [] || (!IsWhiteSpace(s[0]) && !IsWhiteSpace(s[|s| - 1]))
    ensures Trim(s) == s
  {
    assert TrimStart(s) == s;
    assert TrimEnd(s) == s;
  }

  /** Trimming twice is trimming once. */
  lemma TrimIdempotent(s: string)
    ensures Trim(Trim(s)) == Trim(s)
  {
    var t := Trim(s);
    assert t == [] || (!IsWhiteSpace(t[0]) && !IsWhiteSpace(t[|t| - 1]));
    TrimClean(t);
  }

  lemma {:induction false} SplitWord(w: string)
    requires NoSpace(w)
    ensures Split(w) == [w]
    decreases |w|
  {
    if w != [] {
      SplitWord(w[1..]);
      assert [w[0]] + w[1..] == w;
    }
  }

  /** A word followed by a space is split off as the first word. */
  lemma {:induction false} SplitAppend(w: string, t: string)
    requires NoSpace(w)
    ensures Split(w + " " + t) == [w] + Split(t)
    decreases |w|
  {
    if w == [] {
      assert w + " " + t == " " + t;
      assert (" " + t)[1..] == t;
    } else {
      assert (w + " " + t)[1..] == w[1..] + " " + t;
      SplitAppend(w[1..], t);
      assert [w[0]] + w[1..] == w;
    }
  }

  lemma {:induction false} SplitJoinTail(w: string, tail: seq<string>)
    requires NoSpace(w)
    requires forall k :: 0 <= k < |tail| ==> NoSpace(tail[k])
    ensures Split(w + JoinTail(tail)) == [w] + tail
    decreases |tail|
  {
    if tail == [] {
      assert w + JoinTail(tail) == w;
      SplitWord(w);
    } else {
      var v := tail[0];
      assert w + JoinTail(tail) == w + " " + (v + JoinTail(tail[1..]));
      SplitAppend(w, v + JoinTail(tail[1..]));
      SplitJoinTail(v, tail[1..]);
      assert [v] + tail[1..] == tail;
    }
  }

  /** Splitting what was joined gives the words back (and `Split`'s own
      contract gives the other direction). */
  lemma SplitJoin(ws: seq<string>)
    requires |ws| >= 1
    requires forall k :: 0 <= k < |ws| ==> NoSpace(ws[k])
    ensures Split(Join(ws)) == ws
  {
    SplitJoinTail(ws[0], ws[1..]);
  }

  /** The first characters that select a command. */
  predicate IsCommandLetter(c: char) {
    c == 'b' || c == 'c' || c == 'h' || c == 'l' || c == 'q' || c == 't' || c == 'r'
  }

  /** The character the parser takes as the second one of the first word: a
      space there ends the word, so the word has none. */
  function SecondChar(t: string): char {
    if CharAt(t, 1) == ' ' then '\0' else CharAt(t, 1)
  }

  /** On a trimmed line, the first word starts with the line's first
      character and its second character is `SecondChar` of the line. */
  lemma FirstWordChars(t: string)
    requires t == [] || !IsWhiteSpace(t[0])
    ensures CharAt(Split(t)[0], 0) == CharAt(t, 0)
    ensures CharAt(Split(t)[0], 1) == SecondChar(t)
  {
    var ws := Split(t);
    var rest := JoinTail(ws[1..]);
    assert t == ws[0] + rest;
    assert rest == [] || rest[0] == ' ';
    if |ws[0]| == 0 {
      assert t == rest;
    } else if |ws[0]| == 1 {
      assert t[0] == ws[0][0];
      assert |t| >= 2 ==> t[1] == rest[0];
    } else {
      assert t[0] == ws[0][0] && t[1] == ws[0][1];
    }
  }

  /** What the first two characters of the trimmed line decide: each outcome of
      `parse_to_command` holds exactly when its characters (and, for `rent` and
      `terminate`, its number of words) are present. */
  lemma Dispatch(s: string)
    ensures var t := Trim(s);
            var c0 := CharAt(t, 0);
            var c1 := SecondChar(t);
            var n := |Words(s)|;
            var r := ParseToCommand(s);
      && (r == Ok(Help) <==> c0 == 'h')
      && (r == Ok(Quit) <==> c0 == 'q')
      && (r == Ok(Cmd(Begin)) <==> c0 == 'b')
      && (r == Ok(Cmd(Commit)) <==> c0 == 'c')
      && (r == Ok(Cmd(Rollback)) <==> c0 == 'r' && c1 == 'o')
      && ((r.Ok? && r.value.Cmd? && r.value.cmd.List?) <==> c0 == 'l')
      && ((r.Ok? && r.value.Cmd? && r.value.cmd.Rent?) <==> c0 == 'r' && c1 == 'e' && n >= 3)
      && ((r.Ok? && r.value.Cmd? && r.value.cmd.TryTerminate?) <==> c0 == 't' && n >= 3)
      && (r == Err(NoStudent) <==> (c0 == 't' || (c0 == 'r' && c1 == 'e')) && n == 1)
      && (r == Err(NoInstrument) <==> (c0 == 't' || (c0 == 'r' && c1 == 'e')) && n == 2)
      && (r == Err(Default) <==> !IsCommandLetter(c0) || (c0 == 'r' && c1 != 'e' && c1 != 'o'))
  {
    FirstWordChars(Trim(s));
    WordDispatch(Words(s));
  }

  lemma WordDispatch(ws: seq<string>)
    requires |ws| >= 1 && forall k :: 0 <= k < |ws| ==> NoSpace(ws[k])
    ensures var c0 := CharAt(ws[0], 0);
            var c1 := CharAt(ws[0], 1);
            var n := |ws|;
            var r := ParseWords(ws);
      && (r == Ok(Help) <==> c0 == 'h')
      && (r == Ok(Quit) <==> c0 == 'q')
      && (r == Ok(Cmd(Begin)) <==> c0 == 'b')
      && (r == Ok(Cmd(Commit)) <==> c0 == 'c')
      && (r == Ok(Cmd(Rollback)) <==> c0 == 'r' && c1 == 'o')
      && ((r.Ok? && r.value.Cmd? && r.value.cmd.List?) <==> c0 == 'l')
      && ((r.Ok? && r.value.Cmd? && r.value.cmd.Rent?) <==> c0 == 'r' && c1 == 'e' && n >= 3)
      && ((r.Ok? && r.value.Cmd? && r.value.cmd.TryTerminate?) <==> c0 == 't' && n >= 3)
      && (r == Err(NoStudent) <==> (c0 == 't' || (c0 == 'r' && c1 == 'e')) && n == 1)
      && (r == Err(NoInstrument) <==> (c0 == 't' || (c0 == 'r' && c1 == 'e')) && n == 2)
      && (r == Err(Default) <==> !IsCommandLetter(c0) || (c0 == 'r' && c1 != 'e' && c1 != 'o'))
  {
  }

  /** The arguments are the words after the keyword, taken as they are: `list`
      takes the second word unless it is missing or empty, `rent` and
      `terminate` the second and third, whatever follows them. */
  lemma Arguments(s: string)
    ensures var t := Trim(s);
            var ws := Words(s);
            var r := ParseToCommand(s);
      && (CharAt(t, 0) == 'l' ==>
            r == Ok(Cmd(if |ws| == 1 || ws[1] == [] then List(None) else List(Some(ws[1])))))
      && (CharAt(t, 0) == 't' && |ws| >= 3 ==> r == Ok(Cmd(TryTerminate(ws[1], ws[2]))))
      && (CharAt(t, 0) == 'r' && SecondChar(t) == 'e' && |ws| >= 3 ==> r == Ok(Cmd(Rent(ws[1], ws[2]))))
  {
    var ws := Words(s);
    FirstWordChars(Trim(s));
    WordArguments(ws);
  }

  lemma WordArguments(ws: seq<string>)
    requires |ws| >= 1 && forall k :: 0 <= k < |ws| ==> NoSpace(ws[k])
    ensures CharAt(ws[0], 0) == 'l' ==>
              ParseWords(ws) == Ok(Cmd(if |ws| == 1 || ws[1] == [] then List(None) else List(Some(ws[1]))))
    ensures CharAt(ws[0], 0) == 't' && |ws| >= 3 ==> ParseWords(ws) == Ok(Cmd(TryTerminate(ws[1], ws[2])))
    ensures CharAt(ws[0], 0) == 'r' && CharAt(ws[0], 1) == 'e' && |ws| >= 3 ==> ParseWords(ws) == Ok(Cmd(Rent(ws[1], ws[2])))
  {
    var args := ws[1..];
    assert |ws| >= 2 ==> args[0] == ws[1];
    assert |ws| >= 3 ==> args[1] == ws[2];
  }

  /** The commands the parser produces: never `terminate`, arguments without
      spaces (possibly empty, possibly holding other white space), and a
      `list` filter that is not empty. */
  predicate Producible(c: Command) {
    match c
    case List(Some(f)) => f != [] && NoSpace(f)
    case Rent(u, i) => NoSpace(u) && NoSpace(i)
    case TryTerminate(u, i) => NoSpace(u) && NoSpace(i)
    case Terminate(_) => false
    case _ => true
  }

  /** The keywords that select a command: any word without spaces with the
      right first character, and for `rent` and `rollback` the right second one. */
  predicate KeywordFor(kw: string, c: Command) {
    && NoSpace(kw)
    && match c
       case Begin => CharAt(kw, 0) == 'b'
       case Commit => CharAt(kw, 0) == 'c'
       case List(_) => CharAt(kw, 0) == 'l'
       case Rollback => CharAt(kw, 0) == 'r' && CharAt(kw, 1) == 'o'
       case Rent(_, _) => CharAt(kw, 0) == 'r' && CharAt(kw, 1) == 'e'
       case TryTerminate(_, _) => CharAt(kw, 0) == 't'
       case Terminate(_) => false
  }

  /** The words a command's arguments take on the line. */
  function Args(c: Command): seq<string> {
    match c
    case List(Some(f)) => [f]
    case Rent(u, i) => [u, i]
    case TryTerminate(u, i) => [u, i]
    case _ => []
  }

  /** The words of a line asking for `c`: the keyword, the arguments, then
      any further words, which the parser ignores. */
  function LineWords(kw: string, c: Command, rest: seq<string>): seq<string> {
    [kw] + Args(c) + rest
  }

  /** Words whose line trimming leaves alone at the back: the last word ends
      in a character that is not white space. */
  predicate EndsClean(ws: seq<string>) {
    |ws| >= 1 && ws[|ws| - 1] != [] && !IsWhiteSpace(ws[|ws| - 1][|ws[|ws| - 1]| - 1])
  }

  /** The line that spells a command with no further words. */
  function Spelled(kw: string, c: Command): string {
    match c
    case List(Some(f)) => kw + " " + f
    case Rent(u, i) => kw + " " + u + " " + i
    case TryTerminate(u, i) => kw + " " + u + " " + i
    case _ => kw
  }

  lemma TokenNoSpace(w: string)
    requires IsToken(w)
    ensures NoSpace(w)
  {
    assert IsWhiteSpace(' ');
  }

  lemma WordsOfOne(kw: string)
    requires IsToken(kw) && kw != []
    ensures Words(kw) == [kw]
  {
    TokenNoSpace(kw);
    TrimClean(kw);
    SplitWord(kw);
  }

  lemma WordsOfTwo(kw: string, f: string)
    requires IsToken(kw) && kw != [] && IsToken(f) && f != []
    ensures Words(kw + " " + f) == [kw, f]
  {
    TokenNoSpace(kw);
    TokenNoSpace(f);
    TrimClean(kw + " " + f);
    SplitAppend(kw, f);
    SplitWord(f);
  }

  /** The first character of a line is its first word's, and its last
      character is its last word's. */
  lemma JoinEnds(ws: seq<string>)
    requires |ws| >= 1 && ws[0] != [] && ws[|ws| - 1] != []
    ensures var line := Join(ws);
            var last := ws[|ws| - 1];
      line != [] && line[0] == ws[0][0] && line[|line| - 1] == last[|last| - 1]
  {
    if |ws| > 1 {
      JoinTailLast(ws[1..]);
    }
  }

  lemma {:induction false} JoinTailLast(ws: seq<string>)
    requires ws != [] && ws[|ws| - 1] != []
    ensures var j := JoinTail(ws);
            var last := ws[|ws| - 1];
      j != [] && j[|j| - 1] == last[|last| - 1]
    decreases |ws|
  {
    if |ws| > 1 {
      JoinTailLast(ws[1..]);
    } else {
      assert ws[1..] == [];
    }
  }

  /** Words without spaces, the first starting and the last ending in a
      character that is not white space, are the words of their own line. */
  lemma WordsOfJoin(ws: seq<string>)
    requires |ws| >= 1 && forall k :: 0 <= k < |ws| ==> NoSpace(ws[k])
    requires ws[0] != [] && !IsWhiteSpace(ws[0][0]) && EndsClean(ws)
    ensures Words(Join(ws)) == ws
  {
    JoinEnds(ws);
    TrimClean(Join(ws));
    SplitJoin(ws);
  }

  lemma LineWordsNoSpace(kw: string, c: Command, rest: seq<string>)
    requires NoSpace(kw) && Producible(c)
    requires forall k :: 0 <= k < |rest| ==> NoSpace(rest[k])
    ensures forall k :: 0 <= k < |LineWords(kw, c, rest)| ==> NoSpace(LineWords(kw, c, rest)[k])
  {
    var ws := LineWords(kw, c, rest);
    forall k | 0 <= k < |ws| ensures NoSpace(ws[k]) {
      if 1 + |Args(c)| <= k {
        assert ws[k] == rest[k - 1 - |Args(c)|];
      } else if 1 <= k {
        assert ws[k] == Args(c)[k - 1];
      }
    }
  }

  /** Dispatching on the words of such a line gives the command back. */
  lemma ParseLineWords(kw: string, c: Command, rest: seq<string>)
    requires KeywordFor(kw, c) && Producible(c)
    requires forall k :: 0 <= k < |rest| ==> NoSpace(rest[k])
    requires c == List(None) ==> rest == [] || rest[0] == []
    ensures var ws := LineWords(kw, c, rest);
      (forall k :: 0 <= k < |ws| ==> NoSpace(ws[k])) && ParseWords(ws) == Ok(Cmd(c))
  {
    var ws := LineWords(kw, c, rest);
    LineWordsNoSpace(kw, c, rest);
    assert ws[0] == kw;
    WordArguments(ws);
    match c {
      case Begin =>
      case Commit =>
      case Rollback =>
      case List(None) =>
        assert |ws| == 1 || ws[1] == [];
      case List(Some(f)) =>
        assert ws[1] == f;
      case Rent(u, i) =>
        assert ws[1] == u && ws[2] == i;
      case TryTerminate(u, i) =>
        assert ws[1] == u && ws[2] == i;
    }
  }

  /** Every command the parser produces is parsed back from any line that
      asks for it: a keyword for it, its arguments, and any further words,
      as long as the line does not end in white space. */
  lemma ParseLine(kw: string, c: Command, rest: seq<string>)
    requires KeywordFor(kw, c) && Producible(c)
    requires forall k :: 0 <= k < |rest| ==> NoSpace(rest[k])
    requires c == List(None) ==> rest == [] || rest[0] == []
    requires EndsClean(LineWords(kw, c, rest))
    ensures ParseToCommand(Join(LineWords(kw, c, rest))) == Ok(Cmd(c))
  {
    var ws := LineWords(kw, c, rest);
    ParseLineWords(kw, c, rest);
    assert ws[0] == kw && kw != [] && !IsWhiteSpace(kw[0]);
    WordsOfJoin(ws);
  }

  /** The commands the parser can produce are exactly the `Producible` ones. */
  lemma Producibility(c: Command)
    ensures (exists s :: ParseToCommand(s) == Ok(Cmd(c))) <==> Producible(c)
  {
    if exists s :: ParseToCommand(s) == Ok(Cmd(c)) {
      var s :| ParseToCommand(s) == Ok(Cmd(c));
      assert ParseWords(Words(s)) == Ok(Cmd(c));
    }
    if Producible(c) {
      var kw, rest := KeywordAndRest(c);
      ParseLine(kw, c, rest);
    }
  }

  /** A keyword for `c` and further words that end the line cleanly. */
  lemma KeywordAndRest(c: Command) returns (kw: string, rest: seq<string>)
    requires Producible(c)
    ensures KeywordFor(kw, c)
    ensures forall k :: 0 <= k < |rest| ==> NoSpace(rest[k])
    ensures c == List(None) ==> rest == [] || rest[0] == []
    ensures EndsClean(LineWords(kw, c, rest))
  {
    rest := if c.Rent? || c.TryTerminate? || (c.List? && c.filter.Some?) then ["x"] else [];
    kw := match c
      case Begin => "b"
      case Commit => "c"
      case List(_) => "l"
      case Rollback => "ro"
      case Rent(_, _) => "re"
      case TryTerminate(_, _) => "t"
      case Terminate(_) => "";
    var ws := LineWords(kw, c, rest);
    assert ws[|ws| - 1] == if rest == [] then kw else "x";
  }

  /** The line `Spelled` builds is the keyword and the arguments, joined. */
  lemma SpelledJoin(kw: string, c: Command)
    ensures Spelled(kw, c) == Join(LineWords(kw, c, []))
  {
    var ws := LineWords(kw, c, []);
    match c {
      case List(Some(f)) =>
        assert ws == [kw, f];
        JoinTwo(kw, f);
      case Rent(u, i) =>
        assert ws == [kw, u, i];
        JoinThree(kw, u, i);
      case TryTerminate(u, i) =>
        assert ws == [kw, u, i];
        JoinThree(kw, u, i);
      case _ =>
        assert ws == [kw] && ws[1..] == [];
    }
  }

  lemma JoinTwo(a: string, b: string)
    ensures Join([a, b]) == a + " " + b
  {
    var ws := [a, b];
    assert ws[1..] == [b] && ws[1..][1..] == [];
    assert JoinTail([b]) == " " + b;
  }

  lemma JoinThree(a: string, b: string, c: string)
    ensures Join([a, b, c]) == a + " " + b + " " + c
  {
    var ws := [a, b, c];
    assert ws[1..] == [b, c] && ws[1..][1..] == [c] && ws[1..][1..][1..] == [];
    assert JoinTail([c]) == " " + c;
    assert JoinTail([b, c]) == " " + b + " " + c;
  }

  /** The parser's own examples: each command from its one-letter and from
      its full keyword, and the lines it refuses with the reason. Each takes
      the line as a parameter, so that the parser is not unfolded on the
      literal. */
  lemma ExampleBegin(line: string)
    requires line == "b" || line == "begin"
    ensures ParseToCommand(line) == Ok(Cmd(Begin))
  {
    KeywordAlone(line);
  }

  lemma ExampleCommit(line: string)
    requires line == "c" || line == "commit"
    ensures ParseToCommand(line) == Ok(Cmd(Commit))
  {
    KeywordAlone(line);
  }

  lemma ExampleHelp(line: string)
    requires line == "h" || line == "help"
    ensures ParseToCommand(line) == Ok(Help)
  {
    KeywordAlone(line);
  }

  lemma ExampleList(line: string)
    requires line == "l" || line == "list"
    ensures ParseToCommand(line) == Ok(Cmd(List(None)))
  {
    KeywordAlone(line);
  }

  lemma ExampleListFilter(line: string)
    requires line == "l gui" || line == "list gui"
    ensures ParseToCommand(line) == Ok(Cmd(List(Some("gui"))))
  {
    if line == "l gui" {
      Accepts("l", List(Some("gui")), line);
    } else {
      Accepts("list", List(Some("gui")), line);
    }
  }

  lemma ExampleQuit(line: string)
    requires line == "q" || line == "quit"
    ensures ParseToCommand(line) == Ok(Quit)
  {
    KeywordAlone(line);
  }

  lemma ExampleRent(line: string)
    requires line == "re 1 2" || line == "rent 1 2"
    ensures ParseToCommand(line) == Ok(Cmd(Rent("1", "2")))
  {
    if line == "re 1 2" {
      Accepts("re", Rent("1", "2"), line);
    } else {
      Accepts("rent", Rent("1", "2"), line);
    }
  }

  lemma ExampleRollback(line: string)
    requires line == "ro" || line == "rollback"
    ensures ParseToCommand(line) == Ok(Cmd(Rollback))
  {
    KeywordAlone(line);
  }

  lemma ExampleTerminate(line: string)
    requires line == "t 1 2" || line == "terminate 1 2"
    ensures ParseToCommand(line) == Ok(Cmd(TryTerminate("1", "2")))
  {
    if line == "t 1 2" {
      Accepts("t", TryTerminate("1", "2"), line);
    } else {
      Accepts("terminate", TryTerminate("1", "2"), line);
    }
  }

  lemma ExampleUnknown(line: string)
    requires line == "x" || line == ""
    ensures ParseToCommand(line) == Err(Default)
  {
    if line == "" {
      BlankLine(line);
    } else {
      assert |line| == 1 && line[0] == 'x';
      assert IsToken(line);
      KeywordAlone(line);
    }
  }

  lemma ExampleNoStudent(line: string)
    requires line == "re" || line == "t"
    ensures ParseToCommand(line) == Err(NoStudent)
  {
    KeywordAlone(line);
  }

  lemma ExampleNoInstrument(line: string)
    requires line == "re 1" || line == "t 1"
    ensures ParseToCommand(line) == Err(NoInstrument)
  {
    if line == "re 1" {
      MissingInstrument("re", "1", line);
    } else {
      MissingInstrument("t", "1", line);
    }
  }

  /** The line that spells a command the parser produces is read back as it. */
  lemma Accepts(kw: string, c: Command, line: string)
    requires KeywordFor(kw, c) && Producible(c)
    requires EndsClean(LineWords(kw, c, []))
    requires Spelled(kw, c) == line
    ensures ParseToCommand(line) == Ok(Cmd(c))
  {
    SpelledJoin(kw, c);
    ParseLine(kw, c, []);
  }

  /** The empty line is not understood. */
  lemma BlankLine(line: string)
    requires |line| == 0
    ensures ParseToCommand(line) == Err(Default)
  {
  }

  /** A keyword on its own: what it selects, or what it lacks. */
  lemma KeywordAlone(kw: string)
    requires IsToken(kw) && kw != []
    ensures CharAt(kw, 0) == 'b' ==> ParseToCommand(kw) == Ok(Cmd(Begin))
    ensures CharAt(kw, 0) == 'c' ==> ParseToCommand(kw) == Ok(Cmd(Commit))
    ensures CharAt(kw, 0) == 'h' ==> ParseToCommand(kw) == Ok(Help)
    ensures CharAt(kw, 0) == 'l' ==> ParseToCommand(kw) == Ok(Cmd(List(None)))
    ensures CharAt(kw, 0) == 'q' ==> ParseToCommand(kw) == Ok(Quit)
    ensures CharAt(kw, 0) == 'r' && CharAt(kw, 1) == 'o' ==> ParseToCommand(kw) == Ok(Cmd(Rollback))
    ensures (CharAt(kw, 0) == 't' || (CharAt(kw, 0) == 'r' && CharAt(kw, 1) == 'e')) ==> ParseToCommand(kw) == Err(NoStudent)
    ensures !IsCommandLetter(CharAt(kw, 0)) ==> ParseToCommand(kw) == Err(Default)
  {
    WordsOfOne(kw);
    assert [kw][1..] == [];
  }

  /** A `rent` or `terminate` keyword followed by one word lacks the instrument. */
  lemma MissingInstrument(kw: string, u: string, line: string)
    requires IsToken(kw) && IsToken(u) && u != []
    requires CharAt(kw, 0) == 't' || (CharAt(kw, 0) == 'r' && CharAt(kw, 1) == 'e')
    requires kw + " " + u == line
    ensures ParseToCommand(line) == Err(NoInstrument)
  {
    WordsOfTwo(kw, u);
    assert [kw, u][1..] == [u];
  }
}
