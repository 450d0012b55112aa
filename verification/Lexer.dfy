/**
 The reference lexer: one left-to-right pass over the characters of a whole script. It knows nothing of
 lines as units, never looks behind the current character and keeps no offsets; what the splitter in
 internal/migrator/custom_executor.go finds by looking back at `line[i-1]` and `line[i-2]` is carried
 forward here as a Look.

 The dialect is the splitter's own (migrate.go, lines 74-79), a subset of section 4.1 of the PostgreSQL
 documentation.
 */
module Lexer {
  import opened Text
  import opened Directives

  /** A dollar-quote delimiter, `$$` at the shortest. */
  type Tag = t: string | |t| >= 2 witness "$$"

  /** What precedes the current character, as far as ordinary text is concerned. */
  datatype Look =
    | LineStart // nothing on this line yet
    | Plain     // a character that cannot be part of an identifier
    | Word      // part of an identifier
    | LoneE     // an `E` or `e` that starts a word, so that a quote here opens an escape string

  datatype Mode =
    | Normal(look: Look)
    | LineComment
    | Single(escape: bool)
    | Double
    | Dollar(tag: Tag)
    | Comment(depth: nat)
    | Manual // between StatementBegin and StatementEnd, at the start of a line

  datatype Event =
    | Keep  // the token belongs to the current statement
    | Cut   // it ends the current statement and belongs to it
    | Open  // a StatementBegin line: ends the current statement, belongs to nothing
    | Close // a StatementEnd line, likewise

  datatype Token = Token(len: nat, mode: Mode, event: Event)

  predicate IsIdentifier(c: char) {
    c == '_' || 'a' <= c <= 'z' || 'A' <= c <= 'Z' || '0' <= c <= '9' || !IsAscii(c)
  }

  /** The letters and digits outside ASCII. */
  const LETTERS: iset<char>

  const DIGITS: iset<char>

  /** unicode.IsLetter, for whatever table it uses; a letter is never white space. */
  predicate IsLetter(c: char) {
    'a' <= c <= 'z' || 'A' <= c <= 'Z' || (!IsAscii(c) && !IsSpace(c) && c in LETTERS)
  }

  predicate IsDigit(c: char) {
    '0' <= c <= '9' || (!IsAscii(c) && !IsSpace(c) && c in DIGITS)
  }

  predicate IsTagChar(c: char, first: bool) {
    c == '_' || IsLetter(c) || (!first && IsDigit(c))
  }

  function TagChars(s: string, first: bool): (n: nat)
    ensures n <= |s|
  {
    if s == "" || !IsTagChar(s[0], first) then 0 else 1 + TagChars(s[1..], false)
  }

  /** The dollar-quote delimiter at the head of s, if there is one. */
  function MatchTag(s: string): (r: Option<Tag>)
    requires s != "" && s[0] == '$'
    ensures r.Some? ==> r.value <= s && r.value[|r.value| - 1] == '$'
  {
    var n := TagChars(s[1..], true);
    if n + 1 < |s| && s[n + 1] == '$' then Some(s[..n + 2]) else None
  }

  /** How an ordinary character changes what later characters see before them. */
  function Next(look: Look, c: char): Look {
    if c == '\n' then LineStart
    else if !IsIdentifier(c) then Plain
    else if look in {LineStart, Plain} && c in {'E', 'e'} then LoneE
    else Word
  }

  /** The first line together with its line feed, if it has one. */
  function LineLength(s: string): (n: nat)
    requires s != ""
    ensures 1 <= n <= |s|
  {
    if |FirstLine(s)| == |s| then |s| else |FirstLine(s)| + 1
  }

  predicate Doubled(s: string, c: char) {
    |s| >= 2 && s[0] == c && s[1] == c
  }

  function NormalStep(s: string, look: Look): (t: Token)
    requires s != ""
    ensures 1 <= t.len <= |s|
  {
    if s[0] == '\'' then Token(1, Single(look == LoneE), Keep)
    else if s[0] == '"' then Token(1, Double, Keep)
    else if s[0] == '$' && MatchTag(s).Some? then Token(|MatchTag(s).value|, Dollar(MatchTag(s).value), Keep)
    else if Doubled(s, '-') then Token(2, LineComment, Keep)
    else if "/*" <= s then Token(2, Comment(1), Keep)
    else if s[0] == ';' then Token(1, Normal(Plain), Cut)
    else Token(1, Normal(Next(look, s[0])), Keep)
  }

  /** The token at the head of s, and the mode it leaves the lexer in. */
  function Step(s: string, m: Mode): (t: Token)
    requires s != ""
    ensures 1 <= t.len <= |s|
  {
    match m
    case Normal(look) =>
      if look == LineStart && IsBeginMarker(FirstLine(s)) then Token(LineLength(s), Manual, Open)
      else NormalStep(s, look)
    case LineComment =>
      Token(1, if s[0] == '\n' then Normal(LineStart) else LineComment, Keep)
    case Single(escape) =>
      if escape && s[0] == '\\' then Token(if |s| >= 2 then 2 else 1, m, Keep)
      else if Doubled(s, '\'') then Token(2, m, Keep)
      else Token(1, if s[0] == '\'' then Normal(Plain) else m, Keep)
    case Double =>
      if Doubled(s, '"') then Token(2, m, Keep)
      else Token(1, if s[0] == '"' then Normal(Plain) else m, Keep)
    case Dollar(tag) =>
      if s[0] == '$' && tag <= s then Token(|tag|, Normal(Plain), Keep) else Token(1, m, Keep)
    case Comment(depth) =>
      if "*/" <= s then Token(2, if depth <= 1 then Normal(Plain) else Comment(depth - 1), Keep)
      else if "/*" <= s then Token(2, Comment(depth + 1), Keep)
      else Token(1, m, Keep)
    case Manual =>
      if IsEndMarker(FirstLine(s)) then Token(LineLength(s), Normal(LineStart), Close)
      else Token(LineLength(s), Manual, Keep)
  }

  /** A stretch of the script between two boundaries. */
  datatype Segment = Segment(text: string, manual: bool)

  datatype Lexed = Lexed(segs: seq<Segment>, final: Mode)

  /** Puts a kept token in front of the segment that is still being collected. */
  function Glue(x: string, segs: seq<Segment>): (r: seq<Segment>)
    requires segs != []
    ensures |r| == |segs|
  {
    [segs[0].(text := x + segs[0].text)] + segs[1..]
  }

  lemma GlueNothing(segs: seq<Segment>)
    requires segs != []
    ensures Glue("", segs) == segs
  {
    assert "" + segs[0].text == segs[0].text;
  }

  /** Lexes s from mode m. The first segment is the rest of the one being collected. */
  function Lex(s: string, m: Mode): (r: Lexed)
    ensures r.segs != []
    decreases |s|
  {
    if s == "" then Lexed([Segment("", m.Manual?)], m)
    else
      var t := Step(s, m);
      var rest := Lex(s[t.len..], t.mode);
      match t.event
      case Keep => Lexed(Glue(s[..t.len], rest.segs), rest.final)
      case Cut => Lexed([Segment(s[..t.len], false)] + rest.segs, rest.final)
      case Open => Lexed([Segment("", false)] + rest.segs, rest.final)
      case Close => Lexed([Segment("", true)] + rest.segs, rest.final)
  }

  const START := Normal(LineStart)

  /** bufio.MaxScanTokenSize: a line this long stops the scanner in isOnlyComments. */
  const MAX_SCAN_TOKEN := 65536

  predicate IsOverlong(line: string) {
    ByteLength(line) >= MAX_SCAN_TOKEN
  }

  /** A line with nothing to execute on it, going by its first two characters. */
  predicate IsIdle(line: string) {
    Trim(line) == "" || "--" <= Trim(line)
  }

  /** The scan stops, and answers yes, at the first line that does not fit its buffer. */
  predicate OnlyCommentLines(lines: seq<string>) {
    lines == [] || IsOverlong(lines[0]) || (IsIdle(lines[0]) && OnlyCommentLines(lines[1..]))
  }

  predicate IsOnlyComments(s: string) {
    OnlyCommentLines(Lines(s))
  }

  predicate IsBlank(s: string) {
    forall i :: 0 <= i < |s| ==> s[i] in {';', ' ', '\t', '\r', '\n'}
  }

  predicate IsEmptyStatement(s: string) {
    IsBlank(s) || IsOnlyComments(s)
  }

  /** The statements among the segments: trimmed, and without those that have nothing to execute. */
  function Kept(segs: seq<Segment>): seq<string> {
    if segs == [] then []
    else
      var text := Trim(segs[0].text);
      (if IsEmptyStatement(text) then [] else [text]) + Kept(segs[1..])
  }

  lemma {:induction false} KeptAppend(a: seq<Segment>, b: seq<Segment>)
    ensures Kept(a + b) == Kept(a) + Kept(b)
  {
    hide Trim, IsEmptyStatement;
    if a == [] {
      assert a + b == b;
    } else {
      assert (a + b)[1..] == a[1..] + b;
      KeptAppend(a[1..], b);
    }
  }

  datatype SplitError = UnclosedBlock

  /** What a script splits into. */
  function Statements(script: string): Result<seq<string>, SplitError> {
    var r := Lex(script, START);
    if r.final.Manual? then Failure(UnclosedBlock) else Success(Kept(r.segs))
  }
}
