/**
 What the lexer takes as a unit, form by form and letter by letter: literals, dollar quotes, comments and manual
 blocks are read whole, whatever they hold, and a semicolon elsewhere cuts.
 */
module Literals {
  import opened Text
  import opened Directives
  import opened Lexer

  /** From ordinary text, x is read as a part of the segment being collected, and ordinary text goes on after it. */
  ghost predicate IsUnit(x: string, look: Look, rest: string) {
    && Lex(x + rest, Normal(look)).segs == Glue(x, Lex(rest, Normal(Plain)).segs)
    && Lex(x + rest, Normal(look)).final == Lex(rest, Normal(Plain)).final
  }

  /** From mode m, x is read as a part of the segment being collected, and leads to mode n. */
  ghost predicate Passes(x: string, m: Mode, n: Mode, rest: string) {
    Lex(x + rest, m).segs == Glue(x, Lex(rest, n).segs) && Lex(x + rest, m).final == Lex(rest, n).final
  }

  lemma PassNothing(m: Mode, rest: string)
    ensures Passes("", m, m, rest)
  {
    hide Lex;
    assert "" + rest == rest;
    GlueNothing(Lex(rest, m).segs);
  }

  lemma PassToken(x: string, m: Mode, n: Mode, rest: string)
    requires x != "" && Step(x + rest, m) == Token(|x|, n, Keep)
    ensures Passes(x, m, n, rest)
  {
    hide Step;
    assert (x + rest)[..|x|] == x && (x + rest)[|x|..] == rest;
  }

  lemma PassTwo(x: string, y: string, m: Mode, n: Mode, k: Mode, rest: string)
    requires Passes(x, m, n, y + rest) && Passes(y, n, k, rest)
    ensures Passes(x + y, m, k, rest)
  {
    hide Lex;
    assert x + y + rest == x + (y + rest);
    var segs := Lex(rest, k).segs;
    assert x + (y + segs[0].text) == x + y + segs[0].text;
  }

  // ---------------------------------------------------------------------------------------------
  // Ordinary text

  /** A semicolon in ordinary text ends a statement, and belongs to it. */
  lemma SemicolonCuts(look: Look, rest: string)
    ensures Lex(";" + rest, Normal(look)).segs == [Segment(";", false)] + Lex(rest, Normal(Plain)).segs
    ensures Lex(";" + rest, Normal(look)).final == Lex(rest, Normal(Plain)).final
  {
    hide FirstLine, IsBeginMarker, MatchTag;
    var s := ";" + rest;
    NotAMarker(s);
    assert s[..1] == ";" && s[1..] == rest;
  }

  lemma NothingLeft()
    ensures Lex("", Normal(Plain)).segs == [Segment("", false)]
  {
  }

  /** A statement made of a unit and a semicolon. */
  lemma UnitIsOneStatement(x: string)
    requires IsUnit(x, LineStart, ";")
    ensures Lex(x + ";", START).segs == [Segment(x + ";", false), Segment("", false)]
  {
    hide Lex;
    SemicolonCuts(Plain, "");
    assert ";" + "" == ";";
    NothingLeft();
  }

  /** Letters, digits and the underscore, and all that is not ASCII. */
  predicate InWord(c: char) {
    c == '_' || 'a' <= c <= 'z' || 'A' <= c <= 'Z' || '0' <= c <= '9' || c >= '\U{80}'
  }

  /** A character that no literal, comment or statement begins or ends with, nor a line. */
  predicate IsOrdinary(c: char) {
    c !in {'\'', '"', '$', '-', '/', ';', '\n'}
  }

  lemma OrdinaryStep(c: char, look: Look, rest: string)
    requires IsOrdinary(c) && (look == LineStart ==> !IsBeginMarker(FirstLine([c] + rest)))
    ensures Step([c] + rest, Normal(look))
            == Token(1, Normal(if !InWord(c) then Plain
                               else if look in {LineStart, Plain} && c in {'E', 'e'} then LoneE else Word), Keep)
  {
    hide FirstLine, IsBeginMarker, MatchTag;
  }

  /** A word that ordinary text goes on with, up to a character that is not part of one. */
  lemma WordThenOther(c: char, d: char, look: Look, rest: string)
    requires IsOrdinary(c) && IsOrdinary(d) && !IsSpace(c) && c != '-' && !InWord(d)
    ensures Passes([c, d], Normal(look), Normal(Plain), rest)
  {
    hide FirstLine, IsBeginMarker, Lex, Step, MatchTag;
    var s := [c, d] + rest;
    NotAMarker(s);
    assert s == [c] + ([d] + rest);
    OrdinaryStep(c, look, [d] + rest);
    var n := Step(s, Normal(look)).mode;
    PassToken([c], Normal(look), n, [d] + rest);
    OrdinaryStep(d, n.look, rest);
    PassToken([d], n, Normal(Plain), rest);
    PassTwo([c], [d], Normal(look), n, Normal(Plain), rest);
    assert [c] + [d] == [c, d];
  }

  // ---------------------------------------------------------------------------------------------
  // Single quotes

  /** s with every single quote doubled. */
  function Doubling(s: string): string {
    if s == "" then "" else (if s[0] == '\'' then "''" else s[..1]) + Doubling(s[1..])
  }

  /** s with a backslash before every single quote and backslash. */
  function Escaping(s: string): string {
    if s == "" then "" else (if s[0] in {'\'', '\\'} then "\\" + s[..1] else s[..1]) + Escaping(s[1..])
  }

  lemma DoublingStep(s: string, more: string)
    requires s != "" && more != ""
    ensures var t := if s[0] == '\'' then "''" else s[..1];
            Step(t + more, Single(false)) == Token(|t|, Single(false), Keep)
  {
  }

  lemma CloseQuote(escape: bool, rest: string)
    requires rest == "" || rest[0] != '\''
    ensures Passes("'", Single(escape), Normal(Plain), rest)
  {
    hide Lex;
    PassToken("'", Single(escape), Normal(Plain), rest);
  }

  lemma {:induction false} InsidePlain(s: string, rest: string)
    requires rest == "" || rest[0] != '\''
    ensures Passes(Doubling(s) + "'", Single(false), Normal(Plain), rest)
    decreases |s|
  {
    hide Lex, Step, Passes;
    if s == "" {
      CloseQuote(false, rest);
      assert Doubling(s) + "'" == "'";
    } else {
      var t, x := if s[0] == '\'' then "''" else s[..1], Doubling(s[1..]) + "'";
      InsidePlain(s[1..], rest);
      DoublingStep(s, x + rest);
      PassToken(t, Single(false), Single(false), x + rest);
      PassTwo(t, x, Single(false), Single(false), Normal(Plain), rest);
      assert t + x == Doubling(s) + "'";
    }
  }

  lemma OpenQuote(look: Look, rest: string)
    ensures Passes("'", Normal(look), Single(look == LoneE), rest)
  {
    hide Lex, FirstLine, IsBeginMarker;
    NotAMarker("'" + rest);
    PassToken("'", Normal(look), Single(look == LoneE), rest);
  }

  /** '...': doubled quotes are data, and so are semicolons, backslashes, comments and markers. */
  lemma PlainLiteralIsUnit(s: string, look: Look, rest: string)
    requires look != LoneE && (rest == "" || rest[0] != '\'')
    ensures IsUnit("'" + (Doubling(s) + "'"), look, rest)
  {
    hide Lex, Doubling;
    var x := Doubling(s) + "'";
    OpenQuote(look, x + rest);
    InsidePlain(s, rest);
    PassTwo("'", x, Normal(look), Single(false), Normal(Plain), rest);
  }

  lemma EscapingStep(s: string, more: string)
    requires s != "" && more != ""
    ensures var t := if s[0] in {'\'', '\\'} then "\\" + s[..1] else s[..1];
            Step(t + more, Single(true)) == Token(|t|, Single(true), Keep)
  {
  }

  lemma {:induction false} InsideEscape(s: string, rest: string)
    requires rest == "" || rest[0] != '\''
    ensures Passes(Escaping(s) + "'", Single(true), Normal(Plain), rest)
    decreases |s|
  {
    hide Lex, Step, Passes;
    if s == "" {
      CloseQuote(true, rest);
      assert Escaping(s) + "'" == "'";
    } else {
      var t, x := if s[0] in {'\'', '\\'} then "\\" + s[..1] else s[..1], Escaping(s[1..]) + "'";
      InsideEscape(s[1..], rest);
      EscapingStep(s, x + rest);
      PassToken(t, Single(true), Single(true), x + rest);
      PassTwo(t, x, Single(true), Single(true), Normal(Plain), rest);
      assert t + x == Escaping(s) + "'";
    }
  }

  lemma OpenE(e: char, look: Look, rest: string)
    requires e in {'E', 'e'}
    ensures Passes([e] + "'", Normal(look), Single(look in {LineStart, Plain}), rest)
  {
    hide Lex, FirstLine, IsBeginMarker, MatchTag;
    var s := [e] + ("'" + rest);
    NotAMarker(s);
    var n := Normal(if look in {LineStart, Plain} then LoneE else Word);
    OrdinaryStep(e, look, "'" + rest);
    PassToken([e], Normal(look), n, "'" + rest);
    OpenQuote(n.look, rest);
    PassTwo([e], "'", Normal(look), n, Single(look in {LineStart, Plain}), rest);
  }

  /** E'...', where a word can start: a backslash makes the next character data, be it a quote. */
  lemma EscapeLiteralIsUnit(e: char, s: string, look: Look, rest: string)
    requires e in {'E', 'e'} && look in {LineStart, Plain} && (rest == "" || rest[0] != '\'')
    ensures IsUnit([e] + "'" + (Escaping(s) + "'"), look, rest)
  {
    hide Lex, Escaping;
    var x := Escaping(s) + "'";
    OpenE(e, look, x + rest);
    InsideEscape(s, rest);
    PassTwo([e] + "'", x, Normal(look), Single(true), Normal(Plain), rest);
  }

  /** After part of a word, the same two characters open a plain literal, in which a backslash is data. */
  lemma LiteralAfterWord(c: char, e: char, s: string, look: Look, rest: string)
    requires InWord(c) && !IsSpace(c) && e in {'E', 'e'} && (rest == "" || rest[0] != '\'')
    ensures IsUnit([c] + ([e] + "'" + (Doubling(s) + "'")), look, rest)
  {
    hide Lex, Doubling, FirstLine, IsBeginMarker;
    var x := Doubling(s) + "'";
    var y := [e] + "'" + x;
    NotAMarker([c] + (y + rest));
    OrdinaryStep(c, look, y + rest);
    var n := Step([c] + (y + rest), Normal(look)).mode;
    PassToken([c], Normal(look), n, y + rest);
    OpenE(e, n.look, x + rest);
    InsidePlain(s, rest);
    PassTwo([e] + "'", x, n, Single(false), Normal(Plain), rest);
    PassTwo([c], y, Normal(look), n, Normal(Plain), rest);
  }

  /** After another ordinary ASCII character, they open an escape literal. */
  lemma LiteralAfterOther(c: char, e: char, s: string, look: Look, rest: string)
    requires IsOrdinary(c) && !InWord(c) && !IsSpace(c) && e in {'E', 'e'} && (rest == "" || rest[0] != '\'')
    ensures IsUnit([c] + ([e] + "'" + (Escaping(s) + "'")), look, rest)
  {
    hide Lex, Escaping, FirstLine, IsBeginMarker;
    var x := Escaping(s) + "'";
    var y := [e] + "'" + x;
    NotAMarker([c] + (y + rest));
    OrdinaryStep(c, look, y + rest);
    PassToken([c], Normal(look), Normal(Plain), y + rest);
    EscapeLiteralIsUnit(e, s, Plain, rest);
    PassTwo([c], y, Normal(look), Normal(Plain), Normal(Plain), rest);
  }

  // ---------------------------------------------------------------------------------------------
  // Dollar quotes

  /** ASCII letters, digits and underscores, without a digit in front. */
  predicate IsTagName(name: string) {
    && (forall i :: 0 <= i < |name| ==>
          name[i] == '_' || 'a' <= name[i] <= 'z' || 'A' <= name[i] <= 'Z' || '0' <= name[i] <= '9')
    && (name != "" ==> !('0' <= name[0] <= '9'))
  }

  lemma {:induction false} NameChars(name: string, more: string, first: bool)
    requires forall i :: 0 <= i < |name| ==>
               name[i] == '_' || 'a' <= name[i] <= 'z' || 'A' <= name[i] <= 'Z' || '0' <= name[i] <= '9'
    requires first && name != "" ==> !('0' <= name[0] <= '9')
    requires more == "" || more[0] == '$'
    ensures TagChars(name + more, first) == |name|
  {
    if name == "" {
      assert name + more == more;
    } else {
      assert (name + more)[1..] == name[1..] + more;
      NameChars(name[1..], more, false);
    }
  }

  function Delimiter(name: string): (t: Tag)
  {
    "$" + name + "$"
  }

  lemma NameIsTag(name: string, more: string)
    requires IsTagName(name)
    ensures MatchTag(Delimiter(name) + more) == Some(Delimiter(name))
  {
    hide TagChars;
    var s := Delimiter(name) + more;
    assert s[1..] == name + ("$" + more);
    NameChars(name, "$" + more, true);
    assert s[..|name| + 2] == Delimiter(name);
    assert s[|name| + 1] == '$';
  }

  /** The delimiter is not found in the text, nor across the end of it. */
  ghost predicate Lacks(text: string, tag: string) {
    forall i :: 0 <= i < |text| ==> !(tag <= (text + tag)[i..])
  }

  lemma LacksTail(text: string, tag: string)
    requires text != "" && Lacks(text, tag)
    ensures Lacks(text[1..], tag)
  {
    forall i | 0 <= i < |text| - 1
      ensures !(tag <= (text[1..] + tag)[i..])
    {
      assert (text[1..] + tag)[i..] == (text + tag)[i + 1..];
    }
  }

  lemma NoTagYet(text: string, tag: string, rest: string)
    requires text != "" && Lacks(text, tag)
    ensures !(tag <= text + tag + rest)
  {
    var s := text + tag;
    assert s[0..] == s;
    assert (s + rest)[..|tag|] == s[..|tag|];
  }

  lemma DollarStep(s: string, tag: Tag)
    requires s != "" && tag[0] == '$'
    ensures Step(s, Dollar(tag)) == if tag <= s then Token(|tag|, Normal(Plain), Keep) else Token(1, Dollar(tag), Keep)
  {
  }

  lemma {:induction false} InsideDollar(text: string, tag: Tag, rest: string)
    requires Lacks(text, tag) && tag[0] == '$'
    ensures Passes(text + tag, Dollar(tag), Normal(Plain), rest)
    decreases |text|
  {
    hide Lex, Step, Passes;
    if text == "" {
      assert text + tag == tag && tag <= tag + rest;
      DollarStep(tag + rest, tag);
      PassToken(tag, Dollar(tag), Normal(Plain), rest);
    } else {
      var t, x := text[..1], text[1..] + tag;
      LacksTail(text, tag);
      InsideDollar(text[1..], tag, rest);
      NoTagYet(text, tag, rest);
      assert text + tag + rest == t + (x + rest);
      DollarStep(t + (x + rest), tag);
      PassToken(t, Dollar(tag), Dollar(tag), x + rest);
      PassTwo(t, x, Dollar(tag), Dollar(tag), Normal(Plain), rest);
      assert t + x == text + tag;
    }
  }

  /** $name$ ... $name$, for any name of letters, digits and underscores and any text without the delimiter. */
  lemma DollarQuoteIsUnit(name: string, text: string, look: Look, rest: string)
    requires IsTagName(name) && Lacks(text, "$" + name + "$")
    ensures IsUnit(("$" + name + "$") + (text + ("$" + name + "$")), look, rest)
  {
    hide Lex, Lacks, MatchTag, FirstLine, IsBeginMarker;
    var tag := Delimiter(name);
    var x := text + tag;
    NameIsTag(name, x + rest);
    NotAMarker(tag + (x + rest));
    assert Step(tag + (x + rest), Normal(look)) == Token(|tag|, Dollar(tag), Keep);
    PassToken(tag, Normal(look), Dollar(tag), x + rest);
    InsideDollar(text, tag, rest);
    PassTwo(tag, x, Normal(look), Dollar(tag), Normal(Plain), rest);
  }

  /** A dollar sign before a digit, as in a parameter, opens nothing. */
  lemma DollarBeforeDigit(d: char, look: Look, rest: string)
    requires '0' <= d <= '9'
    ensures Passes("$", Normal(look), Normal(Plain), [d] + rest)
  {
    hide Lex, FirstLine, IsBeginMarker;
    var s := "$" + ([d] + rest);
    NotAMarker(s);
    assert s[1..] == [d] + rest;
    assert TagChars(s[1..], true) == 0;
    PassToken("$", Normal(look), Normal(Plain), [d] + rest);
  }

  lemma {:induction false} NameStops(name: string, c: char, rest: string, first: bool)
    requires forall i :: 0 <= i < |name| ==>
               name[i] == '_' || 'a' <= name[i] <= 'z' || 'A' <= name[i] <= 'Z' || '0' <= name[i] <= '9'
    requires (first && name != "" ==> !('0' <= name[0] <= '9')) && IsAscii(c) && !InWord(c)
    ensures TagChars(name + ([c] + rest), first) == |name|
  {
    var s := name + ([c] + rest);
    if name == "" {
      assert s == [c] + rest;
    } else {
      assert s[1..] == name[1..] + ([c] + rest);
      NameStops(name[1..], c, rest, false);
    }
  }

  /** Nor does one whose name is not followed by another. */
  lemma DollarUnclosed(name: string, c: char, look: Look, rest: string)
    requires IsTagName(name) && IsAscii(c) && !InWord(c) && c != '$'
    ensures Passes("$", Normal(look), Normal(Plain), name + ([c] + rest))
  {
    hide Lex, FirstLine, IsBeginMarker, TagChars;
    var s := "$" + (name + ([c] + rest));
    NotAMarker(s);
    assert s[1..] == name + ([c] + rest);
    NameStops(name, c, rest, true);
    PassToken("$", Normal(look), Normal(Plain), name + ([c] + rest));
  }

  // ---------------------------------------------------------------------------------------------
  // Comments

  lemma {:induction false} InsideLineComment(s: string, rest: string)
    requires '\n' !in s
    ensures Passes(s + "\n", LineComment, START, rest)
    decreases |s|
  {
    hide Lex, Passes;
    if s == "" {
      assert s + "\n" == "\n";
      PassToken("\n", LineComment, START, rest);
    } else {
      var x := s[1..] + "\n";
      InsideLineComment(s[1..], rest);
      PassToken(s[..1], LineComment, LineComment, x + rest);
      PassTwo(s[..1], x, LineComment, LineComment, START, rest);
      assert s[..1] + x == s + "\n";
    }
  }

  /** `--` to the end of the line, after which a line starts. */
  lemma LineCommentIsUnit(s: string, look: Look, rest: string)
    requires '\n' !in s && (look == LineStart ==> !IsBeginMarker("--" + s))
    ensures Passes("--" + (s + "\n"), Normal(look), START, rest)
  {
    hide Lex, IsBeginMarker, MatchTag, FirstLine;
    var x := s + "\n";
    var l := "--" + s;
    assert "--" + (x + rest) == l + ("\n" + rest);
    FirstLineUnique(l, l + ("\n" + rest));
    PassToken("--", Normal(look), LineComment, x + rest);
    InsideLineComment(s, rest);
    PassTwo("--", x, Normal(look), LineComment, START, rest);
  }

  /** No comment begins or ends in t, with more after it. */
  ghost predicate IsQuiet(t: string, more: string) {
    forall i :: 0 <= i < |t| ==> !("/*" <= (t + more)[i..]) && !("*/" <= (t + more)[i..])
  }

  lemma QuietStep(s: string, depth: nat)
    requires s != "" && !("/*" <= s) && !("*/" <= s)
    ensures Step(s, Comment(depth)) == Token(1, Comment(depth), Keep)
  {
  }

  lemma {:induction false} InsideComment(t: string, depth: nat, rest: string)
    requires IsQuiet(t, rest)
    ensures Passes(t, Comment(depth), Comment(depth), rest)
    decreases |t|
  {
    hide Lex, Step, Passes;
    if t == "" {
      PassNothing(Comment(depth), rest);
    } else {
      var x := t[1..];
      forall i | 0 <= i < |x|
        ensures !("/*" <= (x + rest)[i..]) && !("*/" <= (x + rest)[i..])
      {
        assert (x + rest)[i..] == (t + rest)[i + 1..];
      }
      InsideComment(x, depth, rest);
      assert (t + rest)[0..] == t + rest == t[..1] + (x + rest);
      QuietStep(t + rest, depth);
      PassToken(t[..1], Comment(depth), Comment(depth), x + rest);
      PassTwo(t[..1], x, Comment(depth), Comment(depth), Comment(depth), rest);
      assert t[..1] + x == t;
    }
  }

  lemma OpenComment(look: Look, rest: string)
    ensures Passes("/*", Normal(look), Comment(1), rest)
  {
    hide Lex, IsBeginMarker, MatchTag, FirstLine;
    NotAMarker("/*" + rest);
    PassToken("/*", Normal(look), Comment(1), rest);
  }

  lemma NestComment(depth: nat, rest: string)
    ensures Passes("/*", Comment(depth), Comment(depth + 1), rest)
    ensures depth > 1 ==> Passes("*/", Comment(depth), Comment(depth - 1), rest)
    ensures Passes("*/", Comment(1), Normal(Plain), rest)
  {
    hide Lex;
    var s := "/*" + rest;
    assert s[0] == '/' && s[..2] == "/*";
    PassToken("/*", Comment(depth), Comment(depth + 1), rest);
    if depth > 1 {
      PassToken("*/", Comment(depth), Comment(depth - 1), rest);
    }
    PassToken("*/", Comment(1), Normal(Plain), rest);
  }

  lemma QuietMore(t: string, rest: string)
    requires IsQuiet(t, "*/")
    ensures IsQuiet(t, "*/" + rest)
  {
    forall i | 0 <= i < |t|
      ensures !("/*" <= (t + ("*/" + rest))[i..]) && !("*/" <= (t + ("*/" + rest))[i..])
    {
      var a, b := (t + "*/")[i..], (t + ("*/" + rest))[i..];
      assert a[0] == b[0] && a[1] == b[1];
      assert !("/*" <= a) && !("*/" <= a);
    }
  }

  /** A block comment. */
  lemma BlockCommentIsUnit(t: string, look: Look, rest: string)
    requires IsQuiet(t, "*/")
    ensures IsUnit("/*" + (t + "*/"), look, rest)
  {
    hide Lex, IsQuiet;
    OpenComment(look, (t + "*/") + rest);
    QuietMore(t, rest);
    InsideComment(t, 1, "*/" + rest);
    NestComment(1, rest);
    PassTwo(t, "*/", Comment(1), Comment(1), Normal(Plain), rest);
    PassTwo("/*", t + "*/", Normal(look), Comment(1), Normal(Plain), rest);
  }

  lemma UnitIsPass(x: string, look: Look, rest: string)
    ensures IsUnit(x, look, rest) <==> Passes(x, Normal(look), Normal(Plain), rest)
  {
  }

  lemma QuietOpen(t: string, rest: string)
    requires IsQuiet(t, "/*")
    ensures IsQuiet(t, "/*" + rest)
  {
    forall i | 0 <= i < |t|
      ensures !("/*" <= (t + ("/*" + rest))[i..]) && !("*/" <= (t + ("/*" + rest))[i..])
    {
      var a, b := (t + "/*")[i..], (t + ("/*" + rest))[i..];
      assert a[0] == b[0] && a[1] == b[1];
      assert !("/*" <= a) && !("*/" <= a);
    }
  }

  /** And one in another. */
  lemma NestedCommentIsUnit(a: string, b: string, c: string, look: Look, rest: string)
    requires IsQuiet(a, "/*") && IsQuiet(b, "*/") && IsQuiet(c, "*/")
    ensures IsUnit("/*" + (a + ("/*" + (b + ("*/" + (c + "*/"))))), look, rest)
  {
    hide Lex, IsQuiet, Passes;
    var x4 := c + "*/";
    var x3 := "*/" + x4;
    var x2 := b + x3;
    var x1 := "/*" + x2;
    var x0 := a + x1;
    QuietMore(c, rest);
    InsideComment(c, 1, "*/" + rest);
    NestComment(1, rest);
    PassTwo(c, "*/", Comment(1), Comment(1), Normal(Plain), rest);
    NestComment(2, x4 + rest);
    PassTwo("*/", x4, Comment(2), Comment(1), Normal(Plain), rest);
    QuietMore(b, x4 + rest);
    assert x3 + rest == "*/" + (x4 + rest);
    InsideComment(b, 2, x3 + rest);
    PassTwo(b, x3, Comment(2), Comment(2), Normal(Plain), rest);
    NestComment(1, x2 + rest);
    PassTwo("/*", x2, Comment(1), Comment(2), Normal(Plain), rest);
    QuietOpen(a, x2 + rest);
    assert x1 + rest == "/*" + (x2 + rest);
    InsideComment(a, 1, x1 + rest);
    PassTwo(a, x1, Comment(1), Comment(1), Normal(Plain), rest);
    OpenComment(look, x0 + rest);
    PassTwo("/*", x0, Normal(look), Comment(1), Normal(Plain), rest);
    UnitIsPass("/*" + x0, look, rest);
  }

  // ---------------------------------------------------------------------------------------------
  // Manual blocks

  /** Whole lines, none of which, trimmed, is the end marker. */
  ghost predicate IsBlockBody(body: string)
    decreases |body|
  {
    body == ""
    || (var l := FirstLine(body);
        |l| < |body| && Trim(l) != "-- +migrate StatementEnd" && IsBlockBody(body[|l| + 1..]))
  }

  lemma BlockStep(s: string, l: string)
    requires l == FirstLine(s) && |l| < |s|
    ensures Step(s, Manual) == if Trim(l) == "-- +migrate StatementEnd" then Token(|l| + 1, START, Close)
                               else Token(|l| + 1, Manual, Keep)
  {
    hide FirstLine, Trim;
  }

  lemma LexOne(s: string, m: Mode)
    requires s != ""
    ensures var t := Step(s, m);
            var rest := Lex(s[t.len..], t.mode);
            && Lex(s, m).final == rest.final
            && Lex(s, m).segs
               == match t.event
                  case Keep => Glue(s[..t.len], rest.segs)
                  case Cut => [Segment(s[..t.len], false)] + rest.segs
                  case Open => [Segment("", false)] + rest.segs
                  case Close => [Segment("", true)] + rest.segs
  {
    hide Step;
  }

  lemma {:induction false} InsideBlock(body: string, end: string, rest: string)
    requires IsBlockBody(body) && '\n' !in end && Trim(end) == "-- +migrate StatementEnd"
    ensures Lex(body + ((end + "\n") + rest), Manual).segs == [Segment(body, true)] + Lex(rest, START).segs
    ensures Lex(body + ((end + "\n") + rest), Manual).final == Lex(rest, START).final
    decreases |body|
  {
    hide Lex, FirstLine, Trim;
    var tail := (end + "\n") + rest;
    var s := body + tail;
    if body == "" {
      assert s == tail && tail == end + ("\n" + rest);
      FirstLineUnique(end, tail);
      BlockStep(tail, end);
      assert tail[..|end| + 1] == end + "\n" && tail[|end| + 1..] == rest;
      LexOne(tail, Manual);
    } else {
      var l := FirstLine(body);
      var x, y := l + "\n", body[|l| + 1..];
      assert body == x + y;
      assert s == l + ("\n" + (y + tail));
      FirstLineUnique(l, s);
      BlockStep(s, l);
      InsideBlock(y, end, rest);
      assert s[..|l| + 1] == x && s[|l| + 1..] == y + tail;
      LexOne(s, Manual);
      assert Glue(x, [Segment(y, true)] + Lex(rest, START).segs) == [Segment(x + y, true)] + Lex(rest, START).segs;
    }
  }

  lemma OpenStep(s: string, l: string)
    requires l == FirstLine(s) && |l| < |s| && Trim(l) == "-- +migrate StatementBegin"
    ensures Step(s, START) == Token(|l| + 1, Manual, Open)
  {
    hide FirstLine, Trim;
  }

  /** From a begin marker line to the end marker line, all is one segment, whatever it looks like. */
  lemma BlockIsUnit(begin: string, body: string, end: string, rest: string)
    requires '\n' !in begin && Trim(begin) == "-- +migrate StatementBegin" && IsBlockBody(body)
    requires '\n' !in end && Trim(end) == "-- +migrate StatementEnd"
    ensures var s := (begin + "\n") + (body + ((end + "\n") + rest));
            Lex(s, START).segs == [Segment("", false)] + ([Segment(body, true)] + Lex(rest, START).segs)
  {
    hide Lex, FirstLine, Trim;
    var r := body + ((end + "\n") + rest);
    var s := (begin + "\n") + r;
    assert s == begin + ("\n" + r);
    FirstLineUnique(begin, s);
    OpenStep(s, begin);
    assert s[|begin| + 1..] == r;
    LexOne(s, START);
    InsideBlock(body, end, rest);
  }
}
