/** Strings as the migrator sees them: white space, trimming, lines, fields and byte lengths. */
module Text {

  datatype Option<+T> = None | Some(value: T)

  datatype Result<+T, +E> = Success(value: T) | Failure(error: E)

  /** The Unicode White_Space property, which is what Go's unicode.IsSpace tests. */
  predicate IsSpace(c: char) {
    || '\t' <= c <= '\r'
    || c == ' ' || c == '\U{85}' || c == '\U{A0}' || c == '\U{1680}'
    || '\U{2000}' <= c <= '\U{200A}'
    || c == '\U{2028}' || c == '\U{2029}' || c == '\U{202F}' || c == '\U{205F}' || c == '\U{3000}'
  }

  predicate IsAscii(c: char) {
    c < '\U{80}'
  }

  predicate AllSpace(s: string) {
    forall i :: 0 <= i < |s| ==> IsSpace(s[i])
  }

  /** A string that neither starts nor ends with white space. */
  predicate IsTrimmed(s: string) {
    s == "" || (!IsSpace(s[0]) && !IsSpace(s[|s| - 1]))
  }

  function TrimLeft(s: string): string {
    if s != "" && IsSpace(s[0]) then TrimLeft(s[1..]) else s
  }

  function TrimRight(s: string): string {
    if s != "" && IsSpace(s[|s| - 1]) then TrimRight(s[..|s| - 1]) else s
  }

  function Trim(s: string): string {
    TrimRight(TrimLeft(s))
  }

  lemma {:induction false} TrimLeftDrops(w: string, t: string)
    requires AllSpace(w)
    requires t == "" || !IsSpace(t[0])
    ensures TrimLeft(w + t) == t
  {
    if w == "" {
      assert w + t == t;
    } else {
      assert (w + t)[1..] == w[1..] + t;
      TrimLeftDrops(w[1..], t);
    }
  }

  lemma {:induction false} TrimRightDrops(t: string, v: string)
    requires AllSpace(v)
    requires t == "" || !IsSpace(t[|t| - 1])
    ensures TrimRight(t + v) == t
  {
    if v == "" {
      assert t + v == t;
    } else {
      assert (t + v)[..|t + v| - 1] == t + v[..|v| - 1];
      TrimRightDrops(t, v[..|v| - 1]);
    }
  }

  /** Trimming a text padded with white space gives the text. */
  lemma TrimPadded(w: string, t: string, v: string)
    requires AllSpace(w) && AllSpace(v) && IsTrimmed(t)
    ensures Trim(w + t + v) == t
  {
    if t == "" {
      assert w + t + v == (w + v) + "";
      TrimLeftDrops(w + v, "");
    } else {
      assert w + t + v == w + (t + v);
      TrimLeftDrops(w, t + v);
      TrimRightDrops(t, v);
    }
  }

  lemma {:induction false} LeadingSpace(s: string) returns (w: string)
    ensures s == w + TrimLeft(s) && AllSpace(w)
    ensures TrimLeft(s) == "" || !IsSpace(TrimLeft(s)[0])
  {
    if s != "" && IsSpace(s[0]) {
      var rest := LeadingSpace(s[1..]);
      w := [s[0]] + rest;
      assert s == [s[0]] + s[1..];
    } else {
      w := "";
    }
  }

  lemma {:induction false} TrailingSpace(s: string) returns (v: string)
    ensures s == TrimRight(s) + v && AllSpace(v)
    ensures TrimRight(s) == "" || !IsSpace(TrimRight(s)[|TrimRight(s)| - 1])
  {
    if s != "" && IsSpace(s[|s| - 1]) {
      var rest := TrailingSpace(s[..|s| - 1]);
      v := rest + [s[|s| - 1]];
      assert s == s[..|s| - 1] + [s[|s| - 1]];
    } else {
      v := "";
    }
  }

  /** Every string is white space, its trimmed part, white space. */
  lemma TrimParts(s: string) returns (w: string, v: string)
    ensures s == w + Trim(s) + v
    ensures AllSpace(w) && AllSpace(v) && IsTrimmed(Trim(s))
  {
    w := LeadingSpace(s);
    v := TrailingSpace(TrimLeft(s));
    if TrimRight(TrimLeft(s)) != "" {
      assert TrimLeft(s)[0] == Trim(s)[0];
    }
  }

  lemma TrimTrimmed(s: string)
    requires IsTrimmed(s)
    ensures Trim(s) == s
  {
    TrimPadded("", s, "");
    assert "" + s + "" == s;
  }

  /** Padding a string with white space does not change its trimmed part. */
  lemma TrimIgnoresPadding(w: string, s: string, v: string)
    requires AllSpace(w) && AllSpace(v)
    ensures Trim(w + s + v) == Trim(s)
  {
    var a, b := TrimParts(s);
    assert w + s + v == (w + a) + Trim(s) + (b + v);
    TrimPadded(w + a, Trim(s), b + v);
  }

  /** The text before the first line feed. */
  function FirstLine(s: string): (l: string)
    ensures l <= s && '\n' !in l
    ensures |l| == |s| || s[|l|] == '\n'
  {
    if s == "" || s[0] == '\n' then "" else [s[0]] + FirstLine(s[1..])
  }

  /** FirstLine is the only line-feed-free prefix that ends at a line feed or at the end. */
  lemma {:induction false} FirstLineUnique(l: string, s: string)
    requires l <= s && '\n' !in l
    requires |l| == |s| || s[|l|] == '\n'
    ensures FirstLine(s) == l
  {
    if l != "" {
      FirstLineUnique(l[1..], s[1..]);
      assert l == [l[0]] + l[1..];
    }
  }

  /** strings.Split(s, "\n"). */
  function Lines(s: string): (ls: seq<string>)
    ensures ls != []
    decreases |s|
  {
    var l := FirstLine(s);
    if |l| == |s| then [s] else [l] + Lines(s[|l| + 1..])
  }

  /** The inverse of Lines: strings.Join(ls, "\n"). */
  function Unlines(ls: seq<string>): string
    requires ls != []
  {
    if |ls| == 1 then ls[0] else ls[0] + "\n" + Unlines(ls[1..])
  }

  lemma UnlinesOne(s: string)
    ensures Unlines([s]) == s
  {
  }

  lemma UnlinesCons(l: string, ls: seq<string>)
    requires ls != []
    ensures Unlines([l] + ls) == l + "\n" + Unlines(ls)
  {
    assert ([l] + ls)[1..] == ls;
  }

  lemma {:induction false} UnlinesOfLines(s: string)
    ensures Unlines(Lines(s)) == s
    ensures forall i :: 0 <= i < |Lines(s)| ==> '\n' !in Lines(s)[i]
    decreases |s|
  {
    hide FirstLine, Unlines;
    var l := FirstLine(s);
    if |l| == |s| {
      assert l == s && Lines(s) == [s];
      UnlinesOne(s);
    } else {
      var rest := s[|l| + 1..];
      UnlinesOfLines(rest);
      assert Lines(s) == [l] + Lines(rest);
      UnlinesCons(l, Lines(rest));
      assert s == l + "\n" + rest;
    }
  }

  lemma TrimLeftShorter(s: string)
    ensures |TrimLeft(s)| <= |s|
    ensures TrimLeft(s) == "" || !IsSpace(TrimLeft(s)[0])
  {
  }

  /** The leading run of non-space characters. */
  function WordOf(s: string): (w: string)
    requires s != "" && !IsSpace(s[0])
    ensures w != "" && w <= s
  {
    if |s| == 1 || IsSpace(s[1]) then [s[0]] else [s[0]] + WordOf(s[1..])
  }

  /** strings.Fields: the maximal runs of non-space characters. */
  function Fields(s: string): seq<string>
    decreases |s|
  {
    var t := TrimLeft(s);
    TrimLeftShorter(s);
    if t == "" then []
    else
      var w := WordOf(t);
      [w] + Fields(t[|w|..])
  }

  predicate IsWord(w: string) {
    w != "" && forall i :: 0 <= i < |w| ==> !IsSpace(w[i])
  }

  lemma {:induction false} WordOfWord(w: string, rest: string)
    requires IsWord(w) && (rest == "" || IsSpace(rest[0]))
    ensures WordOf(w + rest) == w
  {
    if |w| == 1 {
      assert rest != "" ==> (w + rest)[1] == rest[0];
    } else {
      assert (w + rest)[1..] == w[1..] + rest && (w + rest)[1] == w[1];
      WordOfWord(w[1..], rest);
    }
  }

  /** The first field of a text that starts with white space and a word. */
  lemma FieldsCons(gap: string, w: string, rest: string)
    requires AllSpace(gap) && IsWord(w) && (rest == "" || IsSpace(rest[0]))
    ensures Fields(gap + w + rest) == [w] + Fields(rest)
    ensures Fields(gap + (w + rest)) == [w] + Fields(rest)
  {
    var t := w + rest;
    assert gap + w + rest == gap + (w + rest) == gap + t && t[0] == w[0];
    TrimLeftDrops(gap, t);
    WordOfWord(w, rest);
    assert t[|w|..] == rest;
  }

  predicate HasSuffix(s: string, x: string) {
    |x| <= |s| && s[|s| - |x|..] == x
  }

  /** Bytes a character takes in UTF-8. */
  function Utf8Width(c: char): (n: nat)
    ensures 1 <= n <= 4
  {
    if c < '\U{80}' then 1 else if c < '\U{800}' then 2 else if c < '\U{10000}' then 3 else 4
  }

  /** len(s) in Go: the number of bytes. */
  function ByteLength(s: string): (n: nat)
    ensures n >= |s|
  {
    if s == "" then 0 else Utf8Width(s[0]) + ByteLength(s[1..])
  }

  lemma {:induction false} AsciiLength(s: string)
    requires forall i :: 0 <= i < |s| ==> IsAscii(s[i])
    ensures ByteLength(s) == |s|
  {
    if s != "" {
      AsciiLength(s[1..]);
    }
  }
}
