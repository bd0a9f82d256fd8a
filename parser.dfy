/** The command-line parser: a line typed at the prompt becomes a controller
    `Command`, a request for help, a request to quit, or a parse error.
    The line is trimmed of Unicode white space, split on single spaces, and
    dispatched on the first one or two characters of its first word; the
    words after it are the arguments. */
module Parser {
  import opened Wrappers
  import opened Controller

  /** What a successfully parsed line asks for. */
  datatype ParseResult = Help | Quit | Cmd(cmd: Command)

  /** Why a line could not be parsed. */
  datatype ParseError = Default | NoInstrument | NoStudent

  /** Rust's `char::is_whitespace`: the Unicode White_Space property. */
  predicate IsWhiteSpace(c: char) {
    var n := c as int;
    || 0x09 <= n <= 0x0D || n == 0x20 || n == 0x85 || n == 0xA0 || n == 0x1680
    || 0x2000 <= n <= 0x200A || n == 0x2028 || n == 0x2029 || n == 0x202F
    || n == 0x205F || n == 0x3000
  }

  /** `str::trim_start`: drops the leading white space and nothing else. */
  function TrimStart(s: string): (r: string)
    ensures |r| <= |s| && r == s[|s| - |r|..]
    ensures forall k :: 0 <= k < |s| - |r| ==> IsWhiteSpace(s[k])
    ensures r == [] || !IsWhiteSpace(r[0])
    decreases |s|
  {
    if s != [] && IsWhiteSpace(s[0]) then TrimStart(s[1..]) else s
  }

  /** `str::trim_end`: drops the trailing white space and nothing else. */
  function TrimEnd(s: string): (r: string)
    ensures |r| <= |s| && r == s[..|r|]
    ensures forall k :: |r| <= k < |s| ==> IsWhiteSpace(s[k])
    ensures r == [] || !IsWhiteSpace(r[|r| - 1])
    decreases |s|
  {
    if s != [] && IsWhiteSpace(s[|s| - 1]) then TrimEnd(s[..|s| - 1]) else s
  }

  predicate AllWhite(w: string) {
    forall k :: 0 <= k < |w| ==> IsWhiteSpace(w[k])
  }

  /** `r` is the part of `s` from position `a` on, with only white space
      before and after it. */
  predicate SliceAt(s: string, r: string, a: int) {
    0 <= a <= a + |r| <= |s| && r == s[a..a + |r|] && AllWhite(s[..a]) && AllWhite(s[a + |r|..])
  }

  /** `str::trim`: what is left is a slice of the line with only white space
      dropped before and after it, it has no white space at either end, and it
      is empty exactly when the line was all white space. */
  function Trim(s: string): (r: string)
    ensures exists a :: SliceAt(s, r, a)
    ensures r == [] || (!IsWhiteSpace(r[0]) && !IsWhiteSpace(r[|r| - 1]))
    ensures r == [] <==> forall k :: 0 <= k < |s| ==> IsWhiteSpace(s[k])
  {
    TrimSlice(s, TrimStart(s), TrimEnd(TrimStart(s)));
    TrimEnd(TrimStart(s))
  }

  /** Dropping white space at the front, then at the back, leaves a slice. */
  lemma TrimSlice(s: string, t: string, r: string)
    requires |t| <= |s| && t == s[|s| - |t|..] && forall k :: 0 <= k < |s| - |t| ==> IsWhiteSpace(s[k])
    requires |r| <= |t| && r == t[..|r|] && forall k :: |r| <= k < |t| ==> IsWhiteSpace(t[k])
    ensures SliceAt(s, r, |s| - |t|)
  {
    var a := |s| - |t|;
    assert t == s[a..] && r == t[..|r|];
    assert r == s[a..a + |r|] by {
      assert s[a..a + |r|] == s[a..][..|r|];
    }
    assert AllWhite(s[..a]) by {
      forall k | 0 <= k < a ensures IsWhiteSpace(s[..a][k]) {
        assert s[..a][k] == s[k];
      }
    }
    assert AllWhite(s[a + |r|..]) by {
      assert s[a + |r|..] == t[|r|..];
      forall k | 0 <= k < |t| - |r| ensures IsWhiteSpace(t[|r|..][k]) {
        assert t[|r|..][k] == t[|r| + k];
      }
    }
  }

  /** Words joined back with single spaces, the inverse of `Split`. */
  function Join(ws: seq<string>): string
    requires |ws| >= 1
  {
    ws[0] + JoinTail(ws[1..])
  }

  function JoinTail(ws: seq<string>): string
    decreases |ws|
  {
    if ws == [] then [] else " " + ws[0] + JoinTail(ws[1..])
  }

  predicate NoSpace(w: string) {
    forall k :: 0 <= k < |w| ==> w[k] != ' '
  }

  /** `str::split(' ')`: at least one word, possibly empty ones between
      adjacent spaces, none containing a space, and joined back they give
      the text again. */
  function Split(s: string): (ws: seq<string>)
    ensures |ws| >= 1
    ensures forall k :: 0 <= k < |ws| ==> NoSpace(ws[k])
    ensures Join(ws) == s
    decreases |s|
  {
    if s == [] then [[]]
    else
      var rest := Split(s[1..]);
      if s[0] == ' ' then
        assert Join([[]] + rest) == " " + Join(rest) by {
          assert ([[]] + rest)[1..] == rest;
        }
        [[]] + rest
      else
        var ws := [[s[0]] + rest[0]] + rest[1..];
        assert ws[1..] == rest[1..];
        ws
  }

  /** The `n`-th character of a word, or `'\0'` when there is none
      (`chars().nth(n).unwrap_or_default()`). */
  function CharAt(w: string, n: nat): char {
    if n < |w| then w[n] else '\0'
  }

  /** The argument of `list`: a missing or empty word means no filter. */
  function ParseList(args: seq<string>): ParseResult {
    var word := if args == [] then "" else args[0];
    if word == [] then Cmd(List(None)) else Cmd(List(Some(word)))
  }

  /** The two arguments of `rent`: the student first, then the instrument. */
  function ParseRent(args: seq<string>): Result<ParseResult, ParseError> {
    if args == [] then Err(NoStudent)
    else if |args| == 1 then Err(NoInstrument)
    else Ok(Cmd(Rent(args[0], args[1])))
  }

  /** The two arguments of `terminate`, which asks for `try_terminate`. */
  function ParseTerminate(args: seq<string>): Result<ParseResult, ParseError> {
    if args == [] then Err(NoStudent)
    else if |args| == 1 then Err(NoInstrument)
    else Ok(Cmd(TryTerminate(args[0], args[1])))
  }

  /** Dispatch on the first word: its first character picks the command,
      and for `r` the second one tells `rent` from `rollback`. */
  function ParseWords(words: seq<string>): (r: Result<ParseResult, ParseError>)
    requires |words| >= 1
    requires forall k :: 0 <= k < |words| ==> NoSpace(words[k])
    ensures r.Ok? && r.value.Cmd? ==> !r.value.cmd.Terminate?
    ensures r.Ok? && r.value.Cmd? && (r.value.cmd.Rent? || r.value.cmd.TryTerminate?) ==>
              NoSpace(r.value.cmd.user) && NoSpace(r.value.cmd.inst)
    ensures r.Ok? && r.value.Cmd? && r.value.cmd.List? && r.value.cmd.filter.Some? ==>
              r.value.cmd.filter.value != [] && NoSpace(r.value.cmd.filter.value)
    ensures words[0] == [] ==> r == Err(Default)
  {
    var w := words[0];
    var args := words[1..];
    match CharAt(w, 0)
    case 'b' => Ok(Cmd(Begin))
    case 'c' => Ok(Cmd(Commit))
    case 'h' => Ok(Help)
    case 'l' => Ok(ParseList(args))
    case 'q' => Ok(Quit)
    case 't' => ParseTerminate(args)
    case 'r' =>
      (match CharAt(w, 1)
       case 'e' => ParseRent(args)
       case 'o' => Ok(Cmd(Rollback))
       case _ => Err(Default))
    case _ => Err(Default)
  }

  /** The words of a line: trimmed, then split on single spaces. Joined back
      with single spaces they give the trimmed line. */
  function Words(s: string): (ws: seq<string>)
    ensures |ws| >= 1 && forall k :: 0 <= k < |ws| ==> NoSpace(ws[k])
    ensures Join(ws) == Trim(s)
  {
    Split(Trim(s))
  }

  /** `parse_to_command`. No line asks for `terminate` by renting id, and a
      blank line is not understood. */
  function ParseToCommand(s: string): (r: Result<ParseResult, ParseError>)
    ensures r.Ok? && r.value.Cmd? ==> !r.value.cmd.Terminate?
    ensures (forall k :: 0 <= k < |s| ==> IsWhiteSpace(s[k])) ==> r == Err(Default)
  {
    ParseWords(Words(s))
  }
}
