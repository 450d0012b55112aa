/** The directive header of a migration script (internal/migrator/directives.go). */
module Directives {
  import opened Text
  const COMMENT_TOKEN := "--"
  const MIGRATE_TOKEN := "+migrate"
  const MIGRATE_TOKEN_PREFIX := "+migrat"
  const STATEMENT_BEGIN := "StatementBegin"
  const STATEMENT_END := "StatementEnd"
  const BEGIN_LINE := "-- +migrate StatementBegin"
  const END_LINE := "-- +migrate StatementEnd"
  const NO_TRANSACTION := "notransaction"
  const IRREVERSIBLE := "irreversible"
  const KNOWN := {NO_TRANSACTION, IRREVERSIBLE}

  /** A whole line, up to surrounding white space, that opens a manual statement block. */
  predicate IsBeginMarker(line: string) {
    Trim(line) == BEGIN_LINE
  }

  predicate IsEndMarker(line: string) {
    Trim(line) == END_LINE
  }

  /** The names on a directive line; none if the line is not one, block markers included. */
  function DirectiveNames(line: string): Option<seq<string>> {
    var fields := Fields(Trim(line));
    if |fields| < 2 || fields[0] != COMMENT_TOKEN || fields[1] != MIGRATE_TOKEN then None
    else if |fields| > 2 && (fields[2] == STATEMENT_BEGIN || fields[2] == STATEMENT_END) then None
    else Some(fields[2..])
  }

  /** A comment that was probably meant as a directive. */
  predicate LooksLikeDirective(line: string) {
    var fields := Fields(Trim(line));
    if fields == [] then false
    else if COMMENT_TOKEN + MIGRATE_TOKEN_PREFIX <= fields[0] then true
    else fields[0] == COMMENT_TOKEN && |fields| > 1 && MIGRATE_TOKEN_PREFIX <= fields[1]
  }

  predicate IsStatementMarkerLine(line: string) {
    BEGIN_LINE <= Trim(line) || END_LINE <= Trim(line)
  }

  datatype HeaderError =
    | NamesNothing
    | LegacySection(name: string)
    | UnknownDirective(name: string)
    | Malformed
    | LateDirective(lineNumber: nat)

  datatype Header = Header(directives: set<string>, body: string)

  /** The line after the first line feed, or nothing. */
  function AfterFirstLine(s: string): string {
    if |FirstLine(s)| == |s| then "" else s[|FirstLine(s)| + 1..]
  }

  function NameError(name: string): HeaderError {
    if name in {"Up", "Down"} then LegacySection(name) else UnknownDirective(name)
  }

  /** The first name that is not a known directive. */
  function BadName(names: seq<string>): Option<string> {
    if names == [] then None else if names[0] !in KNOWN then Some(names[0]) else BadName(names[1..])
  }

  /** The index of the first directive line. */
  function LateLine(lines: seq<string>): Option<nat> {
    if lines == [] then None
    else if DirectiveNames(lines[0]).Some? then Some(0)
    else match LateLine(lines[1..]) case None => None case Some(i) => Some(i + 1)
  }

  function Checked(directives: set<string>, body: string, firstLine: nat): Result<Header, HeaderError> {
    match LateLine(Lines(body))
    case Some(i) => Failure(LateDirective(firstLine + i))
    case None => Success(Header(directives, body))
  }

  function NameSet(names: seq<string>): set<string> {
    set n | n in names
  }

  /** What ParseDirectiveHeader returns. */
  function ParseHeader(script: string): Result<Header, HeaderError> {
    var head := FirstLine(script);
    match DirectiveNames(head)
    case Some(names) =>
      if names == [] then Failure(NamesNothing)
      else if BadName(names).Some? then Failure(NameError(BadName(names).value))
      else Checked(NameSet(names), AfterFirstLine(script), 2)
    case None =>
      if LooksLikeDirective(head) && !IsStatementMarkerLine(head) then Failure(Malformed)
      else Checked({}, script, 1)
  }

  predicate IsIrreversible(script: string) {
    ParseHeader(script).Success? && IRREVERSIBLE in ParseHeader(script).value.directives
  }

  predicate IsNoTransaction(script: string) {
    ParseHeader(script).Success? && NO_TRANSACTION in ParseHeader(script).value.directives
  }

  method CheckNoLateDirectives(body: string, bodyLine1: nat) returns (r: Option<HeaderError>)
    ensures r == match LateLine(Lines(body)) case None => None case Some(i) => Some(LateDirective(bodyLine1 + i))
  {
    hide DirectiveNames, Lines;
    var lines := Lines(body);
    assert lines[0..] == lines;
    for i := 0 to |lines|
      invariant LateLine(lines)
                == match LateLine(lines[i..]) case None => None case Some(k) => Some(i + k)
    {
      if DirectiveNames(lines[i]).Some? {
        return Some(LateDirective(bodyLine1 + i));
      }
    }
    return None;
  }

  method ParseDirectiveHeader(script: string) returns (r: Result<Header, HeaderError>)
    ensures r == ParseHeader(script)
  {
    hide DirectiveNames, LooksLikeDirective, IsStatementMarkerLine, FirstLine, Lines;
    var directives: set<string> := {};
    var head, rest := FirstLine(script), AfterFirstLine(script);
    var bodyLine1, body := 1, script;
    var names := DirectiveNames(head);
    if names.Some? {
      if names.value == [] {
        return Failure(NamesNothing);
      }
      for i := 0 to |names.value|
        invariant directives == NameSet(names.value[..i])
        invariant BadName(names.value) == BadName(names.value[i..])
      {
        var name := names.value[i];
        if name !in KNOWN {
          return Failure(NameError(name));
        }
        directives := directives + {name};
        assert names.value[..i + 1] == names.value[..i] + [name];
      }
      assert names.value[..|names.value|] == names.value;
      body, bodyLine1 := rest, 2;
    } else if LooksLikeDirective(head) && !IsStatementMarkerLine(head) {
      return Failure(Malformed);
    }
    var late := CheckNoLateDirectives(body, bodyLine1);
    if late.Some? {
      return Failure(late.value);
    }
    return Success(Header(directives, body));
  }

  // ---------------------------------------------------------------------------------------------
  // What acceptance means

  lemma {:induction false} BadNameExact(names: seq<string>)
    ensures BadName(names).None? <==> NameSet(names) <= KNOWN
  {
    if names != [] {
      BadNameExact(names[1..]);
      assert names == [names[0]] + names[1..];
      assert NameSet(names) == {names[0]} + NameSet(names[1..]);
    }
  }

  lemma {:induction false} LateLineExact(lines: seq<string>)
    ensures LateLine(lines).None? <==> forall l :: l in lines ==> DirectiveNames(l).None?
  {
    hide DirectiveNames;
    if lines != [] {
      LateLineExact(lines[1..]);
      assert lines == [lines[0]] + lines[1..];
    }
  }

  /** A text that starts with neither white space nor a dash does not start with a marker line. */
  lemma NotAMarker(s: string)
    requires s != "" && !IsSpace(s[0]) && s[0] != '-'
    ensures !IsBeginMarker(FirstLine(s))
  {
    var l := FirstLine(s);
    assert l != "" ==> l[0] == s[0] && TrimLeft(l) == l;
    var v := TrailingSpace(l);
    assert TrimRight(l) != "" ==> TrimRight(l)[0] == l[0];
  }

  /** The first line is a well-formed header, or nothing like one. */
  predicate HeadIsSound(head: string) {
    match DirectiveNames(head)
    case Some(names) => names != [] && NameSet(names) <= KNOWN
    case None => LooksLikeDirective(head) ==> IsStatementMarkerLine(head)
  }

  /** " a b c". */
  function Spaced(names: seq<string>): (r: string)
    ensures r == "" || r[0] == ' '
  {
    if names == [] then "" else " " + names[0] + Spaced(names[1..])
  }

  /** The header line that names these directives. */
  function HeaderFor(names: seq<string>): string {
    COMMENT_TOKEN + " " + MIGRATE_TOKEN + Spaced(names)
  }

  lemma {:induction false} SpacedFields(names: seq<string>)
    requires forall i :: 0 <= i < |names| ==> IsWord(names[i])
    ensures Fields(Spaced(names)) == names
    ensures names != [] ==> Spaced(names) != "" && !IsSpace(Spaced(names)[|Spaced(names)| - 1])
  {
    if names != [] {
      SpacedFields(names[1..]);
      FieldsCons(" ", names[0], Spaced(names[1..]));
      var n := names[0];
      if |names| == 1 {
        assert Spaced(names) == " " + n;
      }
    }
  }

  lemma HeaderFields(names: seq<string>)
    requires names != [] && forall i :: 0 <= i < |names| ==> IsWord(names[i])
    ensures Trim(HeaderFor(names)) == HeaderFor(names)
    ensures Fields(HeaderFor(names)) == [COMMENT_TOKEN, MIGRATE_TOKEN] + names
  {
    hide Fields, Trim, Spaced;
    var h, rest := HeaderFor(names), Spaced(names);
    SpacedFields(names);
    assert h[0] == '-' && h[|h| - 1] == rest[|rest| - 1];
    TrimTrimmed(h);
    FieldsCons(" ", MIGRATE_TOKEN, rest);
    var tail := " " + MIGRATE_TOKEN + rest;
    FieldsCons("", COMMENT_TOKEN, tail);
    assert h == "" + COMMENT_TOKEN + tail;
  }

  lemma {:induction false} SpacedOneLine(names: seq<string>)
    requires forall i :: 0 <= i < |names| ==> IsWord(names[i])
    ensures '\n' !in Spaced(names)
  {
    if names != [] {
      SpacedOneLine(names[1..]);
      assert IsWord(names[0]);
    }
  }

  lemma KnownWords()
    ensures IsWord(NO_TRANSACTION) && IsWord(IRREVERSIBLE)
  {
  }

  /** A rendered header names the directives it was rendered from, and what follows its line is the body. */
  lemma HeaderReadsBack(names: seq<string>, body: string)
    requires names != [] && (forall i :: 0 <= i < |names| ==> names[i] in KNOWN)
    requires LateLine(Lines(body)).None?
    ensures ParseHeader(HeaderFor(names) + "\n" + body) == Success(Header(NameSet(names), body))
    ensures body == "" ==> ParseHeader(HeaderFor(names)) == Success(Header(NameSet(names), body))
  {
    hide Lines, FirstLine, Trim, Fields, LateLine;
    KnownWords();
    HeaderFields(names);
    SpacedOneLine(names);
    BadNameExact(names);
    var h := HeaderFor(names);
    assert '\n' !in h by {
      assert forall c :: c in h ==> c in "-- +migrate" || c in Spaced(names);
    }
    FirstLineUnique(h, h);
    FirstLineUnique(h, h + "\n" + body);
    assert names[0] != STATEMENT_BEGIN && names[0] != STATEMENT_END;
    assert ([COMMENT_TOKEN, MIGRATE_TOKEN] + names)[2..] == names;
    assert AfterFirstLine(h + "\n" + body) == body;
  }

  lemma NothingLate()
    ensures LateLine(Lines("")).None?
  {
    assert Trim("") == "" && Fields("") == [];
  }

  function BodyOf(script: string): string {
    if DirectiveNames(FirstLine(script)).Some? then AfterFirstLine(script) else script
  }

  lemma HeaderTakesALine(script: string)
    requires DirectiveNames(FirstLine(script)).Some?
    ensures script != "" && AfterFirstLine(script) != script
  {
    assert Trim("") == "" && Fields("") == [];
  }

  /**
   A script is accepted exactly when its first line is sound and no later line is a directive; then the
   directives are the ones named, and the body is the script or the script without its header line.
   */
  lemma HeaderExact(script: string)
    ensures ParseHeader(script).Success?
            <==> HeadIsSound(FirstLine(script))
                 && forall l :: l in Lines(BodyOf(script)) ==> DirectiveNames(l).None?
    ensures ParseHeader(script).Success? ==>
              var h := ParseHeader(script).value;
              && h.body == BodyOf(script) && HasSuffix(script, h.body)
              && h.directives <= KNOWN
              && (h.directives == {} <==> h.body == script)
  {
    hide DirectiveNames, LooksLikeDirective, IsStatementMarkerLine, Lines;
    LateLineExact(Lines(BodyOf(script)));
    match DirectiveNames(FirstLine(script)) {
      case None =>
      case Some(names) =>
        BadNameExact(names);
        assert names != [] ==> names[0] in NameSet(names);
        HeaderTakesALine(script);
    }
  }

  // ---------------------------------------------------------------------------------------------
  // Markers with irregular spacing

  /** A block marker line with white space a and b where there should be one space each. */
  function LooseMarker(a: string, b: string, name: string): string {
    COMMENT_TOKEN + (a + (MIGRATE_TOKEN + (b + name)))
  }

  lemma NoFields()
    ensures Fields("") == []
  {
  }

  lemma LooseFields(a: string, b: string, name: string)
    requires a != "" && AllSpace(a) && b != "" && AllSpace(b) && IsWord(name)
    ensures var l := LooseMarker(a, b, name);
            Trim(l) == l && Fields(l) == [COMMENT_TOKEN, MIGRATE_TOKEN, name]
  {
    hide Fields, Trim;
    var tail := b + name;
    var rest := a + (MIGRATE_TOKEN + tail);
    FieldsCons(b, name, "");
    assert b + (name + "") == tail;
    NoFields();
    FieldsCons(a, MIGRATE_TOKEN, tail);
    FieldsCons("", COMMENT_TOKEN, rest);
    var l := LooseMarker(a, b, name);
    assert "" + (COMMENT_TOKEN + rest) == l;
    assert l[|l| - 1] == rest[|rest| - 1] == tail[|tail| - 1] == name[|name| - 1];
    TrimTrimmed(l);
  }

  lemma MarkerWords()
    ensures IsWord(STATEMENT_BEGIN) && IsWord(STATEMENT_END)
  {
  }

  lemma OneSpace(head: string, gap: string, rest: string)
    requires gap != "" && AllSpace(gap) && rest != ""
    requires var l := head + (gap + rest); l[|head|] == ' ' && !IsSpace(l[|head| + 1])
    ensures gap == " "
  {
    var l := head + (gap + rest);
    assert l[|head| + 1] == (gap + rest)[1];
  }

  /** The exact text of a marker leaves one space in each place. */
  lemma RegularSpacing(a: string, b: string, name: string)
    requires a != "" && AllSpace(a) && b != "" && AllSpace(b) && IsWord(name)
    requires var l := LooseMarker(a, b, name); BEGIN_LINE <= l || END_LINE <= l
    ensures a == " " && b == " "
  {
    var l, tail := LooseMarker(a, b, name), MIGRATE_TOKEN + (b + name);
    assert l[2] == ' ' && l[3] == '+';
    OneSpace(COMMENT_TOKEN, a, tail);
    var head := COMMENT_TOKEN + (" " + MIGRATE_TOKEN);
    assert |head| == 11 && l == head + (b + name);
    assert l[11] == ' ' && l[12] == 'S';
    OneSpace(head, b, name);
  }

  /** Without its surroundings, and with regular spacing, it is the marker line itself. */
  lemma RegularMarker()
    ensures LooseMarker(" ", " ", STATEMENT_BEGIN) == BEGIN_LINE && LooseMarker(" ", " ", STATEMENT_END) == END_LINE
  {
  }

  /**
   A marker whose spacing is not exactly one space each is no directive and no marker either, although it
   looks like one: as the first line of a script it is refused, but not further down.
   */
  lemma IrregularMarkerPasses(a: string, b: string, name: string)
    requires a != "" && AllSpace(a) && b != "" && AllSpace(b) && name in {STATEMENT_BEGIN, STATEMENT_END}
    ensures var l := LooseMarker(a, b, name);
            && DirectiveNames(l).None? && LooksLikeDirective(l)
            && (IsBeginMarker(l) || IsEndMarker(l) || IsStatementMarkerLine(l) <==> a == " " && b == " ")
  {
    hide Trim, Fields, LooseMarker;
    MarkerWords();
    LooseFields(a, b, name);
    RegularMarker();
    var l := LooseMarker(a, b, name);
    if BEGIN_LINE <= l || END_LINE <= l {
      RegularSpacing(a, b, name);
    }
  }

  // ---------------------------------------------------------------------------------------------
  // Lines, word by word

  /** "a b c". */
  function Words(words: seq<string>): string
    requires words != []
  {
    words[0] + Spaced(words[1..])
  }

  lemma NothingSpaced()
    ensures Spaced([]) == "" && Fields("") == []
  {
  }

  lemma WordsFields(words: seq<string>)
    requires words != [] && forall i :: 0 <= i < |words| ==> IsWord(words[i])
    ensures Trim(Words(words)) == Words(words) && Fields(Words(words)) == words
  {
    hide Fields, Trim, Spaced;
    var w, rest := words[0], Spaced(words[1..]);
    var l := Words(words);
    SpacedFields(words[1..]);
    FieldsCons("", w, rest);
    assert "" + (w + rest) == l;
    assert words == [w] + words[1..];
    NothingSpaced();
    assert l[0] == w[0];
    assert |words| == 1 ==> l == w;
    assert |words| > 1 ==> l[|l| - 1] == rest[|rest| - 1];
    TrimTrimmed(l);
  }

  /** Which lines are directives, and what they name. */
  lemma DirectiveByWords(words: seq<string>)
    requires words != [] && forall i :: 0 <= i < |words| ==> IsWord(words[i])
    ensures DirectiveNames(Words(words))
            == if |words| >= 2 && words[0] == "--" && words[1] == "+migrate"
                  && (|words| == 2 || words[2] !in {"StatementBegin", "StatementEnd"})
               then Some(words[2..]) else None
    ensures LooksLikeDirective(Words(words))
            <==> "--+migrat" <= words[0] || (words[0] == "--" && |words| > 1 && "+migrat" <= words[1])
  {
    hide Fields, Trim, Words;
    WordsFields(words);
    assert COMMENT_TOKEN + MIGRATE_TOKEN_PREFIX == "--+migrat";
  }

  lemma ThreeWords(a: string, b: string, c: string)
    ensures Words([a, b, c]) == a + (" " + (b + (" " + c)))
  {
    var w := [a, b, c];
    assert w[1..] == [b, c] && w[1..][1..] == [c] && w[1..][1..][1..] == [];
    assert Spaced([c]) == " " + c;
    assert Spaced([b, c]) == " " + b + Spaced([c]) == " " + (b + (" " + c));
  }

  /** Which lines are markers. */
  lemma MarkerByWords(words: seq<string>)
    requires words != [] && forall i :: 0 <= i < |words| ==> IsWord(words[i])
    ensures IsBeginMarker(Words(words)) <==> words == ["--", "+migrate", "StatementBegin"]
    ensures IsEndMarker(Words(words)) <==> words == ["--", "+migrate", "StatementEnd"]
  {
    hide Fields, Trim, Words;
    var b, e := ["--", "+migrate", "StatementBegin"], ["--", "+migrate", "StatementEnd"];
    WordsFields(words);
    MarkerWords();
    WordsFields(b);
    WordsFields(e);
    ThreeWords("--", "+migrate", "StatementBegin");
    ThreeWords("--", "+migrate", "StatementEnd");
    assert Words(b) == LooseMarker(" ", " ", STATEMENT_BEGIN);
    assert Words(e) == LooseMarker(" ", " ", STATEMENT_END);
    RegularMarker();
  }

  /** A script that starts with a header for these directives, and what it means. */
  lemma HeaderByWords(names: seq<string>, body: string)
    requires names != [] && LateLine(Lines(body)).None?
    requires forall i :: 0 <= i < |names| ==> names[i] in {"notransaction", "irreversible"}
    ensures var s := Words(["--", "+migrate"] + names) + "\n" + body;
            && ParseHeader(s) == Success(Header(NameSet(names), body))
            && (IsNoTransaction(s) <==> "notransaction" in names)
            && (IsIrreversible(s) <==> "irreversible" in names)
  {
    hide ParseHeader, Lines, LateLine;
    var all := ["--", "+migrate"] + names;
    assert all[1..] == ["+migrate"] + names && all[1..][1..] == names;
    assert Words(all) == "--" + (" " + "+migrate" + Spaced(names)) == HeaderFor(names);
    HeaderReadsBack(names, body);
  }

  lemma TokenWords()
    ensures IsWord("--") && IsWord("+migrate")
  {
  }

  lemma WordsOneLine(words: seq<string>)
    requires words != [] && forall i :: 0 <= i < |words| ==> IsWord(words[i])
    ensures '\n' !in Words(words)
  {
    hide Spaced;
    SpacedOneLine(words[1..]);
    assert IsWord(words[0]);
  }

  lemma {:induction false} FirstBadName(names: seq<string>, k: nat)
    requires k <= |names| && forall i :: 0 <= i < k ==> names[i] in {"notransaction", "irreversible"}
    requires k < |names| ==> names[k] !in {"notransaction", "irreversible"}
    ensures BadName(names) == if k < |names| then Some(names[k]) else None
  {
    if k > 0 {
      FirstBadName(names[1..], k - 1);
    }
  }

  /** A header that names anything else first is refused for it, and one that names nothing for that. */
  lemma HeaderRefused(names: seq<string>, k: nat, body: string)
    requires forall i :: 0 <= i < |names| ==> IsWord(names[i])
    requires k <= |names| && forall i :: 0 <= i < k ==> names[i] in {"notransaction", "irreversible"}
    requires if names == [] then true
             else k < |names| && names[k] !in {"notransaction", "irreversible"}
                  && names[0] !in {"StatementBegin", "StatementEnd"}
    ensures var r := ParseHeader(Words(["--", "+migrate"] + names) + ("\n" + body));
            r == Failure(if names == [] then NamesNothing
                         else if names[k] in {"Up", "Down"} then LegacySection(names[k])
                         else UnknownDirective(names[k]))
  {
    hide Lines, FirstLine, Trim, Fields, LateLine, Words;
    var all := ["--", "+migrate"] + names;
    MarkerWords();
    TokenWords();
    WordsOneLine(all);
    FirstLineUnique(Words(all), Words(all) + ("\n" + body));
    DirectiveByWords(all);
    assert all[2..] == names;
    FirstBadName(names, k);
  }

  /** The line that is reported as a late directive is the first that is one. */
  lemma {:induction false} LateLineFirst(lines: seq<string>)
    ensures LateLine(lines).Some? ==>
              var i := LateLine(lines).value;
              && i < |lines| && DirectiveNames(lines[i]).Some?
              && forall j :: 0 <= j < i ==> DirectiveNames(lines[j]).None?
  {
    hide DirectiveNames;
    if lines != [] && DirectiveNames(lines[0]).None? {
      LateLineFirst(lines[1..]);
    }
  }
}
