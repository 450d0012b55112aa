/** The quoted reference to the bookkeeping table (internal/migrator/table.go). */
module TableRef {
  import opened Text
  import opened Directives
  import opened Lexer
  import opened Literals
  const DEFAULT_TABLE_NAME := "migrations"
  const MAX_IDENTIFIER_BYTES := 63

  datatype NameError = EmptyName | TooLong(bytes: nat) | HasNul

  datatype TableConfig = TableConfig(schema: string, name: string)

  /** strings.ReplaceAll(s, `"`, `""`). */
  function DoubleQuotes(s: string): string {
    if s == "" then "" else (if s[0] == '"' then "\"\"" else s[..1]) + DoubleQuotes(s[1..])
  }

  function Quoted(s: string): string {
    "\"" + DoubleQuotes(s) + "\""
  }

  function QuoteIdentifier(s: string): Result<string, NameError> {
    if s == "" then Failure(EmptyName)
    else if ByteLength(s) > MAX_IDENTIFIER_BYTES then Failure(TooLong(ByteLength(s)))
    else if '\0' in s then Failure(HasNul)
    else Success(Quoted(s))
  }

  function Resolve(c: TableConfig): Result<string, NameError> {
    var name := if c.name == "" then DEFAULT_TABLE_NAME else c.name;
    match QuoteIdentifier(name)
    case Failure(e) => Failure(e)
    case Success(quotedName) =>
      if c.schema == "" then Success(quotedName)
      else
        match QuoteIdentifier(c.schema)
        case Failure(e) => Failure(e)
        case Success(quotedSchema) => Success(quotedSchema + "." + quotedName)
  }

  // ---------------------------------------------------------------------------------------------
  // Reading a reference back

  /** The identifier whose quoted interior s starts with, and what follows its closing quote. */
  function ReadInterior(s: string): Option<(string, string)> {
    if s == "" then None
    else if Doubled(s, '"') then
      match ReadInterior(s[2..]) case None => None case Some((id, rest)) => Some(("\"" + id, rest))
    else if s[0] == '"' then Some(("", s[1..]))
    else match ReadInterior(s[1..]) case None => None case Some((id, rest)) => Some((s[..1] + id, rest))
  }

  function ReadIdentifier(s: string): Option<(string, string)> {
    if s != "" && s[0] == '"' then ReadInterior(s[1..]) else None
  }

  /** A reference, as schema (or nothing) and name. */
  function ReadReference(s: string): Option<TableConfig> {
    match ReadIdentifier(s)
    case None => None
    case Some((first, rest)) =>
      if rest == "" then Some(TableConfig("", first))
      else if rest[0] != '.' then None
      else
        match ReadIdentifier(rest[1..])
        case Some((second, "")) => Some(TableConfig(first, second))
        case _ => None
  }

  lemma QuotesHead(s: string)
    ensures DoubleQuotes(s)
            == if s == "" then "" else (if s[0] == '"' then "\"\"" else s[..1]) + DoubleQuotes(s[1..])
  {
  }

  lemma {:induction false} ReadInteriorBack(s: string, rest: string)
    requires rest == "" || rest[0] != '"'
    ensures ReadInterior(DoubleQuotes(s) + "\"" + rest) == Some((s, rest))
  {
    hide DoubleQuotes;
    QuotesHead(s);
    var x := DoubleQuotes(s) + "\"" + rest;
    if s == "" {
      assert x == "\"" + rest && x[1..] == rest;
    } else {
      var tail := DoubleQuotes(s[1..]) + "\"" + rest;
      ReadInteriorBack(s[1..], rest);
      assert s == s[..1] + s[1..];
      if s[0] == '"' {
        assert x == "\"\"" + tail && x[2..] == tail && s[..1] == "\"";
      } else {
        assert x == s[..1] + tail && x[1..] == tail;
      }
    }
  }

  lemma ReadIdentifierBack(s: string, rest: string)
    requires rest == "" || rest[0] != '"'
    ensures ReadIdentifier(Quoted(s) + rest) == Some((s, rest))
  {
    assert (Quoted(s) + rest)[1..] == DoubleQuotes(s) + "\"" + rest;
    ReadInteriorBack(s, rest);
  }

  function Effective(c: TableConfig): TableConfig {
    if c.name == "" then c.(name := DEFAULT_TABLE_NAME) else c
  }

  /** The rendered reference names exactly the configured table: it reads back as schema and name. */
  lemma ReferenceReadsBack(c: TableConfig)
    requires Resolve(c).Success?
    ensures ReadReference(Resolve(c).value) == Some(Effective(c))
  {
    hide ReadIdentifier, Quoted, ByteLength;
    var e := Effective(c);
    ReadIdentifierBack(e.name, "");
    assert Quoted(e.name) + "" == Quoted(e.name);
    if c.schema != "" {
      var rest := "." + Quoted(e.name);
      ReadIdentifierBack(c.schema, rest);
      assert Quoted(c.schema) + "." + Quoted(e.name) == Quoted(c.schema) + rest;
      assert rest[1..] == Quoted(e.name);
    }
  }

  /** Two configurations share a reference only if they name the same table. */
  lemma ReferenceIsUnique(c: TableConfig, d: TableConfig)
    requires Resolve(c).Success? && Resolve(c) == Resolve(d)
    ensures Effective(c) == Effective(d)
  {
    hide Resolve, ReadReference;
    ReferenceReadsBack(c);
    ReferenceReadsBack(d);
  }

  // ---------------------------------------------------------------------------------------------
  // A quoted identifier inside a script

  lemma ClosingStep(rest: string)
    requires rest == "" || rest[0] != '"'
    ensures Step("\"" + rest, Double) == Token(1, Normal(Plain), Keep)
  {
  }

  lemma DoubleStep(s: string, more: string)
    requires s != "" && more != ""
    ensures var t := if s[0] == '"' then "\"\"" else s[..1];
            Step(t + more, Double) == Token(|t|, Double, Keep)
  {
  }

  lemma {:induction false} QuotedInterior(s: string, rest: string)
    requires rest == "" || rest[0] != '"'
    ensures Passes(DoubleQuotes(s) + "\"", Double, Normal(Plain), rest)
    decreases |s|
  {
    hide Lex, Step, Passes, DoubleQuotes;
    QuotesHead(s);
    if s == "" {
      ClosingStep(rest);
      PassToken("\"", Double, Normal(Plain), rest);
      assert "" + "\"" == "\"";
    } else {
      var t, x := if s[0] == '"' then "\"\"" else s[..1], DoubleQuotes(s[1..]) + "\"";
      QuotedInterior(s[1..], rest);
      DoubleStep(s, x + rest);
      PassToken(t, Double, Double, x + rest);
      PassTwo(t, x, Double, Double, Normal(Plain), rest);
      assert DoubleQuotes(s) + "\"" == t + x;
    }
  }

  lemma OpeningStep(x: string, look: Look)
    ensures Step("\"" + x, Normal(look)) == Token(1, Double, Keep)
  {
    NotAMarker("\"" + x);
  }

  /**
   Wherever ordinary text is being read, a quoted identifier is read as a unit: no boundary or marker in
   it is seen, whatever the name holds, and ordinary text goes on after it.
   */
  lemma QuotedIdentifierIsInert(s: string, look: Look, rest: string)
    requires rest == "" || rest[0] != '"'
    ensures IsUnit(Quoted(s), look, rest)
  {
    hide Lex, Step, DoubleQuotes;
    var x := DoubleQuotes(s) + "\"";
    QuotedInterior(s, rest);
    OpeningStep(x + rest, look);
    PassToken("\"", Normal(look), Double, x + rest);
    PassTwo("\"", x, Normal(look), Double, Normal(Plain), rest);
    assert Quoted(s) == "\"" + x;
  }

  // ---------------------------------------------------------------------------------------------
  // What is accepted

  /** A name is accepted if and only if it is not empty, fits PostgreSQL's 63 bytes, and has no NUL in it. */
  lemma NameExactly(s: string)
    ensures QuoteIdentifier(s).Success? <==> s != "" && ByteLength(s) <= 63 && '\0' !in s
    ensures QuoteIdentifier(s).Success? ==> QuoteIdentifier(s).value == "\"" + (DoubleQuotes(s) + "\"")
  {
    hide ByteLength, DoubleQuotes;
    assert "\"" + DoubleQuotes(s) + "\"" == "\"" + (DoubleQuotes(s) + "\"");
  }

  lemma DefaultFits()
    ensures QuoteIdentifier("migrations").Success?
  {
    AsciiLength("migrations");
  }

  /** A configuration is accepted if and only if each name in it is; without one, the table is "migrations". */
  lemma ConfigExactly(c: TableConfig)
    ensures Resolve(c).Success?
            <==> (c.name == "" || QuoteIdentifier(c.name).Success?) && (c.schema == "" || QuoteIdentifier(c.schema).Success?)
    ensures Resolve(TableConfig(c.schema, "")) == Resolve(TableConfig(c.schema, "migrations"))
  {
    hide DoubleQuotes;
    DefaultFits();
  }
}
