/**
 splitSQLStatements as it is written: line by line, with an index into the current line, look-behind for
 `E'`, and a buffer for the statement being collected. It is proved to refine the reference lexer.
 */
module Splitter {
  import opened Text
  import opened Directives
  import opened Lexer

  datatype ScanState = InNormal | InSingleQuote | InDoubleQuote | InDollarQuote | InBlockComment

  /** The quote at line[i] opens an escape string. */
  predicate IsEscapeStringPrefix(line: string, i: nat)
    requires i < |line|
  {
    i > 0 && line[i - 1] in {'E', 'e'} && (i == 1 || !IsIdentifier(line[i - 2]))
  }

  /** What the reference lexer would be carrying at index i of a line it is reading as ordinary text. */
  ghost function LookBehind(line: string, i: nat): Look
    requires i <= |line|
  {
    if i == 0 then LineStart
    else if !IsIdentifier(line[i - 1]) then Plain
    else if line[i - 1] in {'E', 'e'} && (i == 1 || !IsIdentifier(line[i - 2])) then LoneE
    else Word
  }

  lemma LookBehindStart(line: string, i: nat)
    requires i <= |line|
    ensures LookBehind(line, i) == LineStart <==> i == 0
  {
  }

  /** The lexer mode that the scanner's variables stand for. */
  ghost function ModeOf(state: ScanState, escape: bool, tag: string, depth: nat, look: Look): Mode
    requires state == InDollarQuote ==> |tag| >= 2
  {
    match state
    case InNormal => Normal(look)
    case InSingleQuote => Single(escape)
    case InDoubleQuote => Double
    case InDollarQuote => Dollar(tag)
    case InBlockComment => Comment(depth)
  }

  // ---------------------------------------------------------------------------------------------
  // Progress of the scanner measured against the lexer's result for the whole input

  /** `done` has been flushed, `text` is being collected, and s remains, to be read in mode m. */
  ghost predicate At(all: Lexed, done: seq<Segment>, text: string, s: string, m: Mode) {
    all.segs == done + Glue(text, Lex(s, m).segs) && all.final == Lex(s, m).final
  }

  lemma AtStart(s: string, m: Mode)
    ensures At(Lex(s, m), [], "", s, m)
  {
    GlueNothing(Lex(s, m).segs);
  }

  lemma AtKeep(all: Lexed, done: seq<Segment>, text: string, s: string, m: Mode)
    requires s != "" && At(all, done, text, s, m) && Step(s, m).event == Keep
    ensures At(all, done, text + s[..Step(s, m).len], s[Step(s, m).len..], Step(s, m).mode)
  {
    var t := Step(s, m);
    var rest := Lex(s[t.len..], t.mode).segs;
    assert text + (s[..t.len] + rest[0].text) == (text + s[..t.len]) + rest[0].text;
    assert Glue(text, Glue(s[..t.len], rest)) == Glue(text + s[..t.len], rest);
  }

  lemma AtFlush(all: Lexed, done: seq<Segment>, text: string, s: string, m: Mode)
    requires s != "" && At(all, done, text, s, m) && Step(s, m).event != Keep
    ensures var t := Step(s, m);
            var flushed := Segment(if t.event == Cut then text + s[..t.len] else text, t.event == Close);
            At(all, done + [flushed], "", s[t.len..], t.mode)
  {
    var t := Step(s, m);
    var rest := Lex(s[t.len..], t.mode).segs;
    var flushed := Segment(if t.event == Cut then text + s[..t.len] else text, t.event == Close);
    assert text + "" == text;
    GlueNothing(rest);
    assert Glue(text, Lex(s, m).segs) == [flushed] + rest;
    assert done + ([flushed] + rest) == done + [flushed] + rest;
  }

  lemma KeptOne(done: seq<Segment>, seg: Segment)
    ensures Kept(done + [seg])
            == Kept(done) + (if IsEmptyStatement(Trim(seg.text)) then [] else [Trim(seg.text)])
  {
    KeptAppend(done, [seg]);
  }

  // ---------------------------------------------------------------------------------------------
  // The lexer reads a line the same way whatever follows the line

  ghost predicate LineBreak(tail: string) {
    tail == "" || tail[0] == '\n'
  }

  lemma {:induction false} TagCharsLocal(line: string, tail: string, first: bool)
    requires LineBreak(tail)
    ensures TagChars(line + tail, first) == TagChars(line, first)
  {
    if line == "" {
      assert line + tail == tail;
    } else {
      assert (line + tail)[1..] == line[1..] + tail;
      TagCharsLocal(line[1..], tail, false);
    }
  }

  lemma MatchTagLocal(line: string, tail: string)
    requires line != "" && line[0] == '$' && LineBreak(tail)
    ensures MatchTag(line + tail) == MatchTag(line)
  {
    assert (line + tail)[1..] == line[1..] + tail;
    TagCharsLocal(line[1..], tail, true);
    var n := TagChars(line[1..], true);
    if n + 1 < |line| {
      assert (line + tail)[..n + 2] == line[..n + 2];
    }
  }

  lemma StepLocal(line: string, tail: string, m: Mode)
    requires line != "" && '\n' !in line && LineBreak(tail)
    requires !m.Manual? && (m == START ==> !IsBeginMarker(line))
    requires m.Dollar? ==> '\n' !in m.tag
    requires m == Single(true) ==> line != "\\"
    ensures Step(line + tail, m) == Step(line, m)
    ensures Step(line, m).event in {Keep, Cut}
    ensures Step(line, m).event == Cut ==> Step(line, m).len == 1
  {
    hide IsBeginMarker, MatchTag, FirstLine, LineLength;
    FirstLineUnique(line, line + tail);
    FirstLineUnique(line, line);
    if m.Normal? && line[0] == '$' {
      MatchTagLocal(line, tail);
    }
    assert tail != "" ==> (line + tail)[|line|] == '\n';
    assert |line| >= 2 ==> (line + tail)[1] == line[1];
  }

  /** A line comment runs to the end of its line, and the line feed after it starts a fresh line. */
  lemma {:induction false} AtLineComment(
      all: Lexed, done: seq<Segment>, text: string, line: string, tail: string)
    requires '\n' !in line && LineBreak(tail)
    requires At(all, done, text, line + tail, LineComment)
    ensures At(all, done, text + line, tail, LineComment)
    decreases |line|
  {
    if line == "" {
      assert line + tail == tail && text + line == text;
    } else {
      AtKeep(all, done, text, line + tail, LineComment);
      assert (line + tail)[1..] == line[1..] + tail;
      assert (line + tail)[..1] == line[..1];
      AtLineComment(all, done, text + line[..1], line[1..], tail);
      assert text + line[..1] + line[1..] == text + line;
    }
  }

  /** The mode a line feed leads to, outside a manual block. */
  ghost function AfterNewline(m: Mode): Mode {
    if m.Normal? || m.LineComment? then START else m
  }

  lemma NewlineStep(m: Mode, rest: string)
    requires !m.Manual?
    requires m.Dollar? ==> '\n' !in m.tag
    ensures Step("\n" + rest, m) == Token(1, AfterNewline(m), Keep)
  {
    var s := "\n" + rest;
    FirstLineUnique("", s);
    assert s[0] == '\n' && s[1..] == rest;
  }

  // ---------------------------------------------------------------------------------------------
  // The methods of the source

  method MatchDollarTag(line: string, i: nat) returns (r: Option<Tag>)
    requires i < |line| && line[i] == '$'
    ensures r == MatchTag(line[i..])
  {
    var j := i + 1;
    var first := true;
    ghost var n := TagChars(line[i..][1..], true);
    while j < |line|
      invariant i < j <= |line|
      invariant n == j - i - 1 + TagChars(line[j..], first)
    {
      if line[j] == '$' {
        assert line[i..][..n + 2] == line[i..j + 1];
        return Some(line[i..j + 1]);
      }
      if !IsTagChar(line[j], first) {
        return None;
      }
      assert line[j..][1..] == line[j + 1..];
      first := false;
      j := j + 1;
    }
    return None;
  }

  /** Flushes the buffer as a statement, unless there is nothing in it to execute. */
  method AppendStatement(statements: seq<string>, buf: string) returns (r: seq<string>)
    ensures r == statements + Kept([Segment(buf, false)])
  {
    var text := Trim(buf);
    KeptOne([], Segment(buf, false));
    assert [] + [Segment(buf, false)] == [Segment(buf, false)];
    if IsEmptyStatement(text) {
      return statements;
    }
    return statements + [text];
  }

  lemma MarkerFacts(line: string)
    requires IsBeginMarker(line) || IsEndMarker(line)
    ensures line != ""
  {
  }

  lemma KeptNone()
    ensures Kept([]) == []
  {
  }

  lemma KeptFlush(done: seq<Segment>, buf: string, manual: bool)
    ensures Kept(done + [Segment(buf, manual)]) == Kept(done) + Kept([Segment(buf, false)])
  {
    KeptAppend(done, [Segment(buf, manual)]);
  }

  lemma AtEnd(all: Lexed, done: seq<Segment>, text: string, m: Mode)
    requires At(all, done, text, "", m)
    ensures Kept(all.segs) == Kept(done) + Kept([Segment(text, false)]) && all.final == m
  {
    var last := Segment(text, m.Manual?);
    assert text + "" == text;
    assert all.segs == done + [last];
    KeptOne(done, last);
    KeptOne([], Segment(text, false));
    assert [] + [Segment(text, false)] == [Segment(text, false)];
  }

  // ---------------------------------------------------------------------------------------------
  // One iteration of the inner loop

  ghost predicate StateOk(state: ScanState, tag: string, depth: nat) {
    && (state == InDollarQuote ==> |tag| >= 2 && '\n' !in tag && tag[|tag| - 1] == '$')
    && (state == InBlockComment ==> depth >= 1)
  }

  /**
   The inner loop's invariant: line[segStart..i] is still to be buffered and line[i..] to be read. Past the
   end of the line, the line feed has been read already, as an escaped character.
   */
  ghost predicate Scanning(all: Lexed, done: seq<Segment>, buf: string, line: string, segStart: nat, i: nat,
                           isLastLine: bool, rest: string,
                           state: ScanState, escape: bool, tag: string, depth: nat)
  {
    && segStart <= |line| && segStart <= i && StateOk(state, tag, depth)
    && if i <= |line| then
         At(all, done, buf + line[segStart..i], line[i..] + (if isLastLine then "" else "\n" + rest),
            ModeOf(state, escape, tag, depth, LookBehind(line, i)))
       else
         && state == InSingleQuote && escape
         && At(all, done, buf + line[segStart..] + (if isLastLine then "" else "\n"), rest, Single(true))
  }

  lemma SliceLine(buf: string, line: string, segStart: nat, i: nat, len: nat, tail: string)
    requires segStart <= i && i + len <= |line|
    ensures (line[i..] + tail)[len..] == line[i + len..] + tail
    ensures buf + line[segStart..i] + (line[i..] + tail)[..len] == buf + line[segStart..i + len]
  {
    assert (line[i..] + tail)[..len] == line[i..i + len];
    assert line[segStart..i] + line[i..i + len] == line[segStart..i + len];
  }

  /** The token at line[i] has been read without reaching a boundary. */
  lemma Advance(all: Lexed, done: seq<Segment>, buf: string, line: string, segStart: nat, i: nat,
                tail: string, m: Mode)
    requires '\n' !in line && LineBreak(tail) && segStart <= i < |line|
    requires !m.Manual? && (m.Dollar? ==> '\n' !in m.tag) && (m.Normal? ==> m.look == LookBehind(line, i))
    requires m == START ==> !IsBeginMarker(line)
    requires m == Single(true) ==> line[i..] != "\\"
    requires At(all, done, buf + line[segStart..i], line[i..] + tail, m)
    ensures Step(line[i..], m).event in {Keep, Cut}
    ensures var t := Step(line[i..], m);
            if t.event == Keep then
              At(all, done, buf + line[segStart..i + t.len], line[i + t.len..] + tail, t.mode)
            else
              At(all, done + [Segment(buf + line[segStart..i + 1], false)], "", line[i + 1..] + tail, t.mode)
  {
    hide Lex, Step, Glue;
    var here := line[i..];
    assert i == 0 ==> here == line;
    StepLocal(here, tail, m);
    var t := Step(here, m);
    var text := buf + line[segStart..i];
    SliceLine(buf, line, segStart, i, t.len, tail);
    if t.event == Keep {
      AtKeep(all, done, text, here + tail, m);
    } else {
      AtFlush(all, done, text, here + tail, m);
    }
  }

  /** A backslash at the end of a line inside an escape string reads the line feed too. */
  lemma AtEscapedNewline(all: Lexed, done: seq<Segment>, text: string, rest: string, isLastLine: bool)
    requires isLastLine ==> rest == ""
    requires At(all, done, text, "\\" + (if isLastLine then "" else "\n" + rest), Single(true))
    ensures At(all, done, text + "\\" + (if isLastLine then "" else "\n"), rest, Single(true))
  {
    var s := "\\" + (if isLastLine then "" else "\n" + rest);
    AtKeep(all, done, text, s, Single(true));
    if isLastLine {
      assert s[..1] == "\\" && s[1..] == "" && text + "\\" + "" == text + "\\";
    } else {
      assert s[..2] == "\\\n" && s[2..] == rest && text + "\\\n" == text + "\\" + "\n";
    }
  }

  /** The line feed at the end of a line. */
  lemma AtNewline(all: Lexed, done: seq<Segment>, text: string, rest: string, m: Mode)
    requires !m.Manual? && (m.Dollar? ==> '\n' !in m.tag)
    requires At(all, done, text, "\n" + rest, m)
    ensures At(all, done, text + "\n", rest, AfterNewline(m))
  {
    NewlineStep(m, rest);
    AtKeep(all, done, text, "\n" + rest, m);
    assert ("\n" + rest)[..1] == "\n" && ("\n" + rest)[1..] == rest;
  }

  ghost function NextChar(line: string, i: nat, c: char, d: char): bool
    requires i < |line|
  {
    line[i] == c && i + 1 < |line| && line[i + 1] == d
  }

  lemma NormalToken(line: string, i: nat)
    requires i < |line| && '\n' !in line && (i == 0 ==> !IsBeginMarker(line))
    ensures var c, t := line[i], Step(line[i..], Normal(LookBehind(line, i)));
            if c == '\'' then t == Token(1, Single(IsEscapeStringPrefix(line, i)), Keep)
            else if c == '"' then t == Token(1, Double, Keep)
            else if c == '$' && MatchTag(line[i..]).Some? then
              var tag := MatchTag(line[i..]).value;
              t == Token(|tag|, Dollar(tag), Keep) && '\n' !in tag
            else if NextChar(line, i, '-', '-') then t == Token(2, LineComment, Keep)
            else if NextChar(line, i, '/', '*') then t == Token(2, Comment(1), Keep)
            else t == Token(1, Normal(LookBehind(line, i + 1)), if c == ';' then Cut else Keep)
  {
    hide MatchTag, IsBeginMarker;
    var here := line[i..];
    if i == 0 {
      assert here == line;
      FirstLineUnique(line, line);
    }
    assert here[0] == line[i] && (|here| >= 2 ==> here[1] == line[i + 1]);
    if line[i] == '$' && MatchTag(here).Some? {
      var tag := MatchTag(here).value;
      assert forall k :: 0 <= k < |tag| ==> tag[k] == line[i + k];
    }
  }

  /** From the `--` that starts a comment to the end of the line. */
  lemma SkipComment(all: Lexed, done: seq<Segment>, buf: string, line: string, segStart: nat, i: nat,
                    tail: string)
    requires '\n' !in line && LineBreak(tail) && segStart <= i < |line| && Doubled(line[i..], '-')
    requires i == 0 ==> !IsBeginMarker(line)
    requires At(all, done, buf + line[segStart..i], line[i..] + tail, Normal(LookBehind(line, i)))
    ensures At(all, done, buf + line[segStart..], tail, LineComment)
  {
    hide At, IsBeginMarker, MatchTag, LookBehind, Step;
    LookBehindStart(line, i);
    NormalToken(line, i);
    Advance(all, done, buf, line, segStart, i, tail, Normal(LookBehind(line, i)));
    AtLineComment(all, done, buf + line[segStart..i + 2], line[i + 2..], tail);
    assert buf + line[segStart..i + 2] + line[i + 2..] == buf + line[segStart..];
  }

  // What the lexer does with the character at line[i], in the scanner's own terms

  lemma QuotedToken(line: string, i: nat, m: Mode)
    requires i < |line| && m in {Single(false), Single(true), Double}
    requires m == Single(true) ==> line[i] != '\\'
    ensures var q, t := if m.Double? then '"' else '\'', Step(line[i..], m);
            if NextChar(line, i, q, q) then t == Token(2, m, Keep)
            else if line[i] == q then t == Token(1, Normal(Plain), Keep) && LookBehind(line, i + 1) == Plain
            else t == Token(1, m, Keep)
  {
    var here := line[i..];
    assert here[0] == line[i] && (|here| >= 2 ==> here[1] == line[i + 1]);
  }

  /** A backslash in an escape string, which at the end of a line reads the line feed too. */
  lemma EscapeToken(all: Lexed, done: seq<Segment>, buf: string, line: string, segStart: nat, i: nat,
                    isLastLine: bool, rest: string, tag: string, depth: nat)
    requires '\n' !in line && (isLastLine ==> rest == "") && i < |line| && line[i] == '\\'
    requires Scanning(all, done, buf, line, segStart, i, isLastLine, rest, InSingleQuote, true, tag, depth)
    ensures Scanning(all, done, buf, line, segStart, i + 2, isLastLine, rest, InSingleQuote, true, tag, depth)
  {
    hide At;
    if i == |line| - 1 {
      assert line[i..] == "\\";
      AtEscapedNewline(all, done, buf + line[segStart..i], rest, isLastLine);
      assert buf + line[segStart..i] + "\\" == buf + line[segStart..];
    } else {
      assert Step(line[i..], Single(true)) == Token(2, Single(true), Keep);
      Advance(all, done, buf, line, segStart, i, if isLastLine then "" else "\n" + rest, Single(true));
    }
  }

  lemma DollarToken(line: string, i: nat, tag: Tag)
    requires i < |line| && tag[|tag| - 1] == '$'
    ensures var t := Step(line[i..], Dollar(tag));
            if line[i] == '$' && tag <= line[i..] then
              t == Token(|tag|, Normal(Plain), Keep) && i + |tag| <= |line| && LookBehind(line, i + |tag|) == Plain
            else t == Token(1, Dollar(tag), Keep)
  {
    var here := line[i..];
    if tag <= here {
      assert line[i + |tag| - 1] == here[|tag| - 1] == '$';
    }
  }

  lemma CommentToken(line: string, i: nat, depth: nat)
    requires i < |line| && depth >= 1
    ensures var t := Step(line[i..], Comment(depth));
            if NextChar(line, i, '*', '/') then
              t == Token(2, if depth == 1 then Normal(Plain) else Comment(depth - 1), Keep)
              && LookBehind(line, i + 2) == Plain
            else if NextChar(line, i, '/', '*') then t == Token(2, Comment(depth + 1), Keep)
            else t == Token(1, Comment(depth), Keep)
  {
    var here := line[i..];
    assert here[0] == line[i] && (|here| >= 2 ==> here[1] == line[i + 1]);
    assert "*/" <= here <==> NextChar(line, i, '*', '/');
    assert "/*" <= here <==> NextChar(line, i, '/', '*');
  }

  /** The token at line[i] takes the scanner's variables from the first four to the last four. */
  lemma Moved(all: Lexed, done: seq<Segment>, buf: string, line: string, segStart: nat, i: nat, width: nat,
              isLastLine: bool, rest: string,
              state0: ScanState, escape0: bool, tag0: string, depth0: nat,
              state: ScanState, escape: bool, tag: string, depth: nat)
    requires '\n' !in line && (isLastLine ==> rest == "") && i < |line|
    requires i == 0 && state0 == InNormal ==> !IsBeginMarker(line)
    requires state0 == InSingleQuote && escape0 ==> line[i] != '\\'
    requires Scanning(all, done, buf, line, segStart, i, isLastLine, rest, state0, escape0, tag0, depth0)
    requires StateOk(state, tag, depth) && i + width <= |line|
    requires Step(line[i..], ModeOf(state0, escape0, tag0, depth0, LookBehind(line, i)))
             == Token(width, ModeOf(state, escape, tag, depth, LookBehind(line, i + width)), Keep)
    ensures Scanning(all, done, buf, line, segStart, i + width, isLastLine, rest, state, escape, tag, depth)
  {
    hide At, Step;
    LookBehindStart(line, i);
    Advance(all, done, buf, line, segStart, i, if isLastLine then "" else "\n" + rest,
            ModeOf(state0, escape0, tag0, depth0, LookBehind(line, i)));
  }

  /** A semicolon in ordinary text. */
  lemma MovedPastCut(all: Lexed, done: seq<Segment>, buf: string, line: string, segStart: nat, i: nat,
                     isLastLine: bool, rest: string, escape: bool, tag: string, depth: nat)
    requires '\n' !in line && (isLastLine ==> rest == "") && i < |line| && line[i] == ';'
    requires i == 0 ==> !IsBeginMarker(line)
    requires Scanning(all, done, buf, line, segStart, i, isLastLine, rest, InNormal, escape, tag, depth)
    ensures Scanning(all, done + [Segment(buf + line[segStart..i + 1], false)], "", line, i + 1, i + 1,
                     isLastLine, rest, InNormal, escape, tag, depth)
  {
    hide At, Step, MatchTag;
    LookBehindStart(line, i);
    NormalToken(line, i);
    Advance(all, done, buf, line, segStart, i, if isLastLine then "" else "\n" + rest,
            Normal(LookBehind(line, i)));
    assert "" + line[i + 1..i + 1] == "";
  }

  lemma LineBegun(all: Lexed, done: seq<Segment>, buf: string, line: string, isLastLine: bool, rest: string,
                  state: ScanState, escape: bool, tag: string, depth: nat)
    requires StateOk(state, tag, depth)
    requires At(all, done, buf, line + (if isLastLine then "" else "\n" + rest),
                ModeOf(state, escape, tag, depth, LineStart))
    ensures Scanning(all, done, buf, line, 0, 0, isLastLine, rest, state, escape, tag, depth)
  {
    assert buf + line[0..0] == buf && line[0..] == line;
  }

  /** Where the inner loop leaves off, the rest of the line is buffered with its line feed. */
  lemma LineDone(all: Lexed, done: seq<Segment>, buf: string, line: string, segStart: nat, i: nat,
                 isLastLine: bool, rest: string,
                 state: ScanState, escape: bool, tag: string, depth: nat) returns (m: Mode)
    requires '\n' !in line && (isLastLine ==> rest == "")
    requires i == 0 && state == InNormal ==> !IsBeginMarker(line)
    requires Scanning(all, done, buf, line, segStart, i, isLastLine, rest, state, escape, tag, depth)
    requires i >= |line| || (state == InNormal && Doubled(line[i..], '-'))
    ensures !m.Manual? && (!isLastLine ==> m == ModeOf(state, escape, tag, depth, LineStart))
    ensures At(all, done, buf + line[segStart..] + (if isLastLine then "" else "\n"), rest, m)
  {
    hide At, IsBeginMarker;
    var tail := if isLastLine then "" else "\n" + rest;
    var text := buf + line[segStart..];
    if i > |line| {
      return Single(true);
    }
    m := ModeOf(state, escape, tag, depth, LookBehind(line, i));
    if i < |line| {
      SkipComment(all, done, buf, line, segStart, i, tail);
      m := LineComment;
    } else {
      assert line[i..] + tail == tail && line[segStart..i] == line[segStart..];
    }
    if isLastLine {
      assert text + "" == text;
    } else {
      AtNewline(all, done, text, rest, m);
      m := AfterNewline(m);
    }
  }

  /** The inner loop's switch, for a token that neither ends a statement nor runs into the end of the line. */
  method ScanToken(line: string, i: nat, state0: ScanState, tag0: string, depth0: nat, escape0: bool)
    returns (width: nat, state: ScanState, tag: string, depth: nat, escape: bool)
    requires i < |line| && '\n' !in line && StateOk(state0, tag0, depth0)
    requires i == 0 && state0 == InNormal ==> !IsBeginMarker(line)
    requires state0 == InNormal ==> line[i] != ';' && !(line[i] == '-' && i + 1 < |line| && line[i + 1] == '-')
    requires state0 == InSingleQuote && escape0 ==> line[i] != '\\'
    ensures width > 0 && i + width <= |line| && StateOk(state, tag, depth)
    ensures Step(line[i..], ModeOf(state0, escape0, tag0, depth0, LookBehind(line, i)))
            == Token(width, ModeOf(state, escape, tag, depth, LookBehind(line, i + width)), Keep)
  {
    hide IsBeginMarker, MatchTag, Step, LookBehind, IsEscapeStringPrefix;
    width, state, tag, depth, escape := 1, state0, tag0, depth0, escape0;
    match state {
      case InNormal =>
        NormalToken(line, i);
        if line[i] == '\'' {
          state := InSingleQuote;
          escape := IsEscapeStringPrefix(line, i);
        } else if line[i] == '"' {
          state := InDoubleQuote;
        } else if line[i] == '$' {
          var matched := MatchDollarTag(line, i);
          if matched.Some? {
            state := InDollarQuote;
            var found: Tag := matched.value;
            tag := found;
            width := |tag|;
          }
        } else if line[i] == '/' && i + 1 < |line| && line[i + 1] == '*' {
          state := InBlockComment;
          depth := 1;
          width := 2;
        }
      case InSingleQuote =>
        QuotedToken(line, i, Single(escape));
        if line[i] == '\'' {
          if i + 1 < |line| && line[i + 1] == '\'' {
            width := 2;
          } else {
            state := InNormal;
            escape := false;
          }
        }
      case InDoubleQuote =>
        QuotedToken(line, i, Double);
        if line[i] == '"' {
          if i + 1 < |line| && line[i + 1] == '"' {
            width := 2;
          } else {
            state := InNormal;
          }
        }
      case InDollarQuote =>
        DollarToken(line, i, tag);
        if line[i] == '$' && tag <= line[i..] {
          width := |tag|;
          state := InNormal;
          tag := "";
        }
      case InBlockComment =>
        CommentToken(line, i, depth);
        if line[i] == '*' && i + 1 < |line| && line[i + 1] == '/' {
          depth := depth - 1;
          width := 2;
          if depth == 0 {
            state := InNormal;
          }
        } else if line[i] == '/' && i + 1 < |line| && line[i + 1] == '*' {
          depth := depth + 1;
          width := 2;
        }
    }
  }

  /**
   The inner loop: scans one line and buffers it together with its line feed. `rest` is what follows the
   line feed; it, `all` and `done` serve the proof only.
   */
  method ScanLine(line: string, isLastLine: bool, ghost rest: string, ghost all: Lexed,
                  statements0: seq<string>, buf0: string, ghost done0: seq<Segment>,
                  state0: ScanState, tag0: string, depth0: nat, escape0: bool)
    returns (statements: seq<string>, buf: string, ghost done: seq<Segment>,
             state: ScanState, tag: string, depth: nat, escape: bool)
    requires '\n' !in line && (isLastLine ==> rest == "")
    requires state0 == InNormal ==> !IsBeginMarker(line)
    requires StateOk(state0, tag0, depth0) && statements0 == Kept(done0)
    requires At(all, done0, buf0, line + (if isLastLine then "" else "\n" + rest),
                ModeOf(state0, escape0, tag0, depth0, LineStart))
    ensures StateOk(state, tag, depth) && statements == Kept(done)
    ensures !isLastLine ==> At(all, done, buf, rest, ModeOf(state, escape, tag, depth, LineStart))
    ensures isLastLine ==> exists m: Mode :: !m.Manual? && At(all, done, buf, "", m)
  {
    hide At, Kept, IsEmptyStatement, IsBeginMarker, MatchTag, Step, LookBehind, IsEscapeStringPrefix,
      Scanning, ModeOf;
    statements, buf, done := statements0, buf0, done0;
    state, tag, depth, escape := state0, tag0, depth0, escape0;
    var segStart, i := 0, 0;
    LineBegun(all, done, buf, line, isLastLine, rest, state, escape, tag, depth);
    while i < |line|
      decreases |line| - i
      invariant statements == Kept(done) && StateOk(state, tag, depth) && segStart <= |line| && segStart <= i
      invariant i == 0 && state == InNormal ==> !IsBeginMarker(line)
      invariant Scanning(all, done, buf, line, segStart, i, isLastLine, rest, state, escape, tag, depth)
    {
      if state == InNormal && line[i] == '-' && i + 1 < |line| && line[i + 1] == '-' {
        break; // the rest of the line is a comment
      } else if state == InNormal && line[i] == ';' {
        MovedPastCut(all, done, buf, line, segStart, i, isLastLine, rest, escape, tag, depth);
        buf := buf + line[segStart..i + 1];
        statements := AppendStatement(statements, buf);
        KeptAppend(done, [Segment(buf, false)]);
        done := done + [Segment(buf, false)];
        buf := "";
        segStart := i + 1;
        i := i + 1;
      } else if state == InSingleQuote && escape && line[i] == '\\' {
        EscapeToken(all, done, buf, line, segStart, i, isLastLine, rest, tag, depth);
        i := i + 2;
      } else {
        ghost var state1, escape1, tag1, depth1 := state, escape, tag, depth;
        var width;
        width, state, tag, depth, escape := ScanToken(line, i, state, tag, depth, escape);
        Moved(all, done, buf, line, segStart, i, width, isLastLine, rest,
              state1, escape1, tag1, depth1, state, escape, tag, depth);
        i := i + width;
      }
    }
    ghost var m := LineDone(all, done, buf, line, segStart, i, isLastLine, rest, state, escape, tag, depth);
    buf := buf + line[segStart..];
    if !isLastLine {
      buf := buf + "\n";
    } else {
      assert buf + "" == buf;
    }
  }

  lemma UnlinesFrom(lines: seq<string>, k: nat)
    requires k < |lines|
    ensures Unlines(lines[k..])
            == lines[k] + (if k == |lines| - 1 then "" else "\n" + Unlines(lines[k + 1..]))
  {
    if k == |lines| - 1 {
      assert lines[k..] == [lines[k]] && lines[k] + "" == lines[k];
    } else {
      assert lines[k..][1..] == lines[k + 1..];
      assert lines[k] + "\n" + Unlines(lines[k + 1..]) == lines[k] + ("\n" + Unlines(lines[k + 1..]));
    }
  }

  ghost function Remaining(lines: seq<string>, k: nat): string
    requires k <= |lines|
  {
    if k == |lines| then "" else Unlines(lines[k..])
  }

  /** A whole line read while looking for a marker: one that is a marker, or any line of a manual block. */
  lemma AtWholeLine(all: Lexed, done: seq<Segment>, text: string, line: string, isLastLine: bool, rest: string,
                    m: Mode)
    requires '\n' !in line && (if isLastLine then rest == "" && line != "" else true)
    requires m == Manual || (m == START && IsBeginMarker(line))
    requires At(all, done, text, line + (if isLastLine then "" else "\n" + rest), m)
    ensures m == START ==> At(all, done + [Segment(text, false)], "", rest, Manual)
    ensures m == Manual && IsEndMarker(line) ==> At(all, done + [Segment(text, true)], "", rest, START)
    ensures m == Manual && !IsEndMarker(line) ==>
              At(all, done, text + line + (if isLastLine then "" else "\n"), rest, Manual)
  {
    hide IsBeginMarker, IsEndMarker, At, NormalStep;
    var s := line + (if isLastLine then "" else "\n" + rest);
    FirstLineUnique(line, s);
    var x := line + (if isLastLine then "" else "\n");
    assert s[..LineLength(s)] == x && s[LineLength(s)..] == rest;
    if Step(s, m).event == Keep {
      AtKeep(all, done, text, s, m);
      assert text + x == text + line + (if isLastLine then "" else "\n");
    } else {
      AtFlush(all, done, text, s, m);
    }
  }

  /** splitSQLStatements. */
  method SplitSQLStatements(script: string) returns (r: Result<seq<string>, SplitError>)
    ensures r == Statements(script)
  {
    hide At, Kept, IsEmptyStatement, IsBeginMarker, IsEndMarker, Lex;
    ghost var all := Lex(script, START);
    var statements: seq<string>, buf := [], "";
    var state, tag, depth, inBlock, escape := InNormal, "", 0, false, false;
    var lines := Lines(script);
    ghost var done: seq<Segment> := [];
    ghost var text := ""; // what has been collected: buf, but for a line feed after an unclosed block
    ghost var m := START; // the mode in which the lexer goes on to read the remaining lines
    UnlinesOfLines(script);
    KeptNone();
    AtStart(script, START);
    assert lines[0..] == lines;
    for k := 0 to |lines|
      invariant StateOk(state, tag, depth) && statements == Kept(done)
      invariant At(all, done, text, Remaining(lines, k), m)
      invariant !inBlock || k < |lines| ==> text == buf
      invariant inBlock ==> state == InNormal && m == Manual
      invariant !inBlock && k < |lines| ==> m == ModeOf(state, escape, tag, depth, LineStart)
      invariant !inBlock ==> !m.Manual?
    {
      var line := lines[k];
      var isLastLine := k == |lines| - 1;
      ghost var rest := Remaining(lines, k + 1);
      UnlinesFrom(lines, k);
      if !inBlock && state == InNormal && IsBeginMarker(line) {
        MarkerFacts(line);
        AtWholeLine(all, done, buf, line, isLastLine, rest, m);
        statements := AppendStatement(statements, buf);
        KeptFlush(done, buf, false);
        done := done + [Segment(buf, false)];
        buf, inBlock, text, m := "", true, "", Manual;
      } else if inBlock && state == InNormal && IsEndMarker(line) {
        MarkerFacts(line);
        AtWholeLine(all, done, buf, line, isLastLine, rest, m);
        statements := AppendStatement(statements, buf);
        KeptFlush(done, buf, true);
        done := done + [Segment(buf, true)];
        buf, inBlock, text, m := "", false, "", START;
      } else if inBlock {
        if !isLastLine || line != "" {
          AtWholeLine(all, done, buf, line, isLastLine, rest, m);
          text := text + line + (if isLastLine then "" else "\n");
        }
        buf := buf + line + "\n";
      } else {
        statements, buf, done, state, tag, depth, escape :=
          ScanLine(line, isLastLine, rest, all, statements, buf, done, state, tag, depth, escape);
        text := buf;
        if isLastLine {
          m :| !m.Manual? && At(all, done, buf, "", m);
        } else {
          m := ModeOf(state, escape, tag, depth, LineStart);
        }
      }
    }
    AtEnd(all, done, text, m);
    if inBlock {
      return Failure(UnclosedBlock);
    }
    statements := AppendStatement(statements, buf);
    return Success(statements);
  }
}
