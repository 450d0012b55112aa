/** Splitting a second time: when the statements of a script split into themselves. */
module SplitStability {
  import opened Text
  import opened Directives
  import opened Lexer
  import opened SplitTheorems

  // ---------------------------------------------------------------------------------------------
  // The lexer reads a prefix that ends in a semicolon or a line feed the same way on its own

  /** A dollar-quote delimiter holds neither white space nor semicolons. */
  ghost predicate Clean(m: Mode) {
    m.Dollar? ==> forall k :: 0 <= k < |m.tag| ==> !IsSpace(m.tag[k]) && m.tag[k] != ';'
  }

  lemma {:induction false} TagCharsClean(s: string, first: bool)
    ensures forall k :: 0 <= k < TagChars(s, first) ==> !IsSpace(s[k]) && s[k] != ';'
  {
    if s != "" && IsTagChar(s[0], first) {
      TagCharsClean(s[1..], false);
      forall k | 0 <= k < TagChars(s, first)
        ensures !IsSpace(s[k]) && s[k] != ';'
      {
        assert k > 0 ==> s[k] == s[1..][k - 1];
      }
    }
  }

  lemma MatchTagClean(s: string)
    requires s != "" && s[0] == '$' && MatchTag(s).Some?
    ensures Clean(Dollar(MatchTag(s).value))
  {
    TagCharsClean(s[1..], true);
    var n := TagChars(s[1..], true);
    forall k | 0 <= k < n + 2
      ensures !IsSpace(s[k]) && s[k] != ';'
    {
      assert 0 < k < n + 1 ==> s[k] == s[1..][k - 1];
    }
  }

  lemma StepClean(s: string, m: Mode)
    requires s != "" && Clean(m)
    ensures Clean(Step(s, m).mode)
  {
    hide MatchTag, IsBeginMarker, IsEndMarker;
    if s[0] == '$' && MatchTag(s).Some? {
      MatchTagClean(s);
    }
  }

  ghost predicate EndsCleanly(s: string, n: nat)
    requires n <= |s|
  {
    n == |s| || (n > 0 && s[n - 1] in {';', '\n'})
  }

  lemma {:induction false} TagCharsPrefix(s: string, n: nat, first: bool)
    requires n <= |s| && (n == |s| || (n > 0 && s[n - 1] in {';', '\n'}))
    ensures TagChars(s[..n], first) == TagChars(s, first)
    ensures n == |s| || TagChars(s, first) < n
  {
    if n == |s| {
      assert s[..n] == s;
    } else if n > 1 {
      assert s[..n][1..] == s[1..][..n - 1];
      TagCharsPrefix(s[1..], n - 1, false);
    }
  }

  lemma MatchTagPrefix(s: string, n: nat)
    requires 0 < n <= |s| && EndsCleanly(s, n) && s[0] == '$'
    ensures MatchTag(s[..n]) == MatchTag(s)
  {
    if n == |s| {
      assert s[..n] == s;
    } else {
      assert s[..n][1..] == s[1..][..n - 1];
      TagCharsPrefix(s[1..], n - 1, true);
      var k := TagChars(s[1..], true);
      if k + 1 < n {
        assert s[..n][..k + 2] == s[..k + 2];
      }
    }
  }

  lemma MarkerHasNoSemicolon(l: string)
    requires IsBeginMarker(l)
    ensures ';' !in l
  {
    var w, v := TrimParts(l);
    assert forall c :: c in w || c in v ==> IsSpace(c);
    assert forall c :: c in l ==> c in w || c in BEGIN_LINE || c in v;
  }

  lemma MarkerPrefix(s: string, n: nat)
    requires 0 < n <= |s| && EndsCleanly(s, n)
    ensures IsBeginMarker(FirstLine(s[..n])) <==> IsBeginMarker(FirstLine(s))
    ensures IsBeginMarker(FirstLine(s)) ==> LineLength(s[..n]) == LineLength(s)
  {
    hide IsBeginMarker, FirstLine;
    var x, l := s[..n], FirstLine(s);
    if n == |s| {
      assert x == s;
    } else if |l| < n {
      assert l == x[..|l|] && x[|l|] == '\n';
      FirstLineUnique(l, x);
    } else {
      assert '\n' !in x by {
        assert x == l[..n];
      }
      FirstLineUnique(x, x);
      assert x[n - 1] == ';' && l[n - 1] == ';';
      if IsBeginMarker(x) {
        MarkerHasNoSemicolon(x);
      }
      if IsBeginMarker(l) {
        MarkerHasNoSemicolon(l);
      }
    }
  }

  lemma StepPrefix(s: string, n: nat, m: Mode)
    requires 0 < n <= |s| && EndsCleanly(s, n) && !m.Manual? && Clean(m)
    ensures Step(s[..n], m) == Step(s, m)
  {
    hide IsBeginMarker, MatchTag, LineLength;
    var x := s[..n];
    if m == START {
      MarkerPrefix(s, n);
    }
    if s[0] == '$' {
      MatchTagPrefix(s, n);
    }
    assert n >= 2 ==> x[1] == s[1];
  }

  // ---------------------------------------------------------------------------------------------
  // A segment on its own

  /** The lexer, starting in mode m, reads all of x as one statement; `cut` says that a boundary ends it. */
  ghost predicate IsOne(x: string, m: Mode, cut: bool) {
    && !Lex(x, m).final.Manual?
    && Lex(x, m).segs == [Segment(x, false)] + (if cut then [Segment("", false)] else [])
    && (cut ==> x != "" && x[|x| - 1] == ';' && Lex(x, m).final == Normal(Plain))
  }

  lemma OneNothing(m: Mode)
    requires !m.Manual?
    ensures IsOne("", m, false)
  {
  }

  lemma OneKeep(s: string, m: Mode, cut: bool)
    requires s != "" && Step(s, m).event == Keep
    requires IsOne(s[Step(s, m).len..], Step(s, m).mode, cut)
    ensures IsOne(s, m, cut)
  {
    hide Step;
    var t := Step(s, m);
    assert s == s[..t.len] + s[t.len..];
    assert cut ==> s[|s| - 1] == s[t.len..][|s| - t.len - 1];
  }

  lemma OneCut(s: string, m: Mode)
    requires s == ";" && Step(s, m) == Token(1, Normal(Plain), Cut)
    ensures IsOne(s, m, true)
  {
    assert s[..1] == s && s[1..] == "";
  }

  lemma StepFacts(s: string, m: Mode)
    requires s != "" && !m.Manual?
    ensures var t := Step(s, m);
            && (t.event == Keep ==> !t.mode.Manual?)
            && (t.event == Cut ==> t == Token(1, Normal(Plain), Cut) && s[0] == ';')
            && (t.event == Open ==> m == START)
            && t.event != Close
            && (t.mode == START ==> s[t.len - 1] == '\n')
  {
    hide MatchTag, IsBeginMarker;
  }

  lemma LexHead(s: string, m: Mode)
    requires s != ""
    ensures var t := Step(s, m);
            var rest := Lex(s[t.len..], t.mode).segs;
            Lex(s, m).segs
            == match t.event
               case Keep => Glue(s[..t.len], rest)
               case Cut => [Segment(s[..t.len], false)] + rest
               case Open => [Segment("", false)] + rest
               case Close => [Segment("", true)] + rest
  {
  }

  lemma EmptyLex(m: Mode)
    ensures Lex("", m).segs == [Segment("", m.Manual?)]
  {
  }

  /** The first segment is a prefix of the input, and read on its own it is one statement. */
  lemma {:induction false} FirstSegment(s: string, m: Mode) returns (cut: bool)
    requires !m.Manual? && Clean(m)
    ensures var x := Lex(s, m).segs[0];
            && !x.manual && x.text <= s && IsOne(x.text, m, cut)
            && (x.text == s || (x.text == "" && m == START) || (x.text != "" && x.text[|x.text| - 1] in {';', '\n'}))
    ensures NoMarkers(s, m) && |Lex(s, m).segs| > 1 ==> cut
    decreases |s|
  {
    hide Step, Lex, NoMarkers, IsOne;
    if s == "" {
      OneNothing(m);
      LexNothing(m);
      EmptyLex(m);
      return false;
    }
    var t := Step(s, m);
    LexHead(s, m);
    StepFacts(s, m);
    StepClean(s, m);
    if NoMarkers(s, m) {
      StepNoMarkers(s, m);
    }
    match t.event {
      case Open =>
        OneNothing(m);
        return false;
      case Cut =>
        StepPrefix(s, 1, m);
        assert s[..1] == ";";
        OneCut(s[..1], m);
        return true;
      case Keep =>
        cut := FirstSegment(s[t.len..], t.mode);
        var x := Lex(s[t.len..], t.mode).segs[0].text;
        var n := t.len + |x|;
        assert s[..t.len] + x == s[..n] && s[..n][t.len..] == x;
        assert EndsCleanly(s, n);
        StepPrefix(s, n, m);
        OneKeep(s[..n], m, cut);
    }
  }

  lemma GlueTail(x: string, segs: seq<Segment>, k: nat)
    requires 0 < k <= |segs|
    ensures Glue(x, segs)[k..] == segs[k..]
  {
  }

  lemma SuffixOfTail(s: string, n: nat, rest: string)
    requires n <= |s|
    ensures HasSuffix(s[n..], s[n..]) && (HasSuffix(s[n..], rest) ==> HasSuffix(s, rest))
  {
    var r := s[n..];
    if HasSuffix(r, rest) {
      assert rest == r[|r| - |rest|..] == s[|s| - |rest|..];
    }
  }

  lemma FlushMode(s: string, m: Mode)
    requires s != ""
    ensures Step(s, m).event != Keep ==> Step(s, m).mode in {START, Normal(Plain), Manual}
  {
    hide MatchTag, IsBeginMarker, IsEndMarker;
  }

  /** Every segment after the first is the first segment of what is left of the input. */
  lemma {:induction false} SegmentOrigin(s: string, m: Mode, k: nat) returns (rest: string, mode: Mode)
    requires 0 < k < |Lex(s, m).segs| && Clean(m)
    ensures HasSuffix(s, rest) && Clean(mode) && mode in {START, Normal(Plain), Manual}
    ensures Lex(rest, mode).segs == Lex(s, m).segs[k..]
    ensures NoMarkers(s, m) ==> NoMarkers(rest, mode)
    decreases |s|
  {
    hide Step, Lex, NoMarkers, Glue, HasSuffix;
    if s == "" {
      EmptyLex(m);
      return;
    }
    var t := Step(s, m);
    LexHead(s, m);
    StepClean(s, m);
    FlushMode(s, m);
    if NoMarkers(s, m) {
      StepNoMarkers(s, m);
    }
    var r := s[t.len..];
    if t.event == Keep {
      GlueTail(s[..t.len], Lex(r, t.mode).segs, k);
      rest, mode := SegmentOrigin(r, t.mode, k);
    } else if k == 1 {
      rest, mode := r, t.mode;
    } else {
      rest, mode := SegmentOrigin(r, t.mode, k - 1);
    }
    SuffixOfTail(s, t.len, rest);
  }

  lemma ManualStep(s: string)
    requires s != ""
    ensures var t := Step(s, Manual); t.event in {Keep, Close} && (t.event == Keep ==> t.mode == Manual)
  {
  }

  /** Segments flagged manual are exactly those collected inside a block. */
  lemma {:induction false} ManualFlag(s: string)
    ensures Lex(s, Manual).segs[0].manual
    decreases |s|
  {
    hide Step, Lex;
    if s == "" {
      EmptyLex(Manual);
    } else {
      LexHead(s, Manual);
      var t := Step(s, Manual);
      assert t.event in {Keep, Close} && (t.event == Keep ==> t.mode == Manual) by {
        ManualStep(s);
      }
      if t.event == Keep {
        ManualFlag(s[t.len..]);
      }
    }
  }

  // ---------------------------------------------------------------------------------------------
  // Trimming a segment

  function LookAfter(w: string, look: Look): Look {
    if w == "" then look else LookAfter(w[1..], Next(look, w[0]))
  }

  lemma SpaceStep(s: string, look: Look)
    requires s != "" && IsSpace(s[0])
    ensures NormalStep(s, look) == Token(1, Normal(Next(look, s[0])), Keep)
  {
  }

  /** Inside a statement there are no block markers. */
  lemma OneStep(s: string, look: Look, cut: bool)
    requires s != "" && IsOne(s, Normal(look), cut)
    ensures Step(s, Normal(look)) == NormalStep(s, look)
    ensures cut ==> s[|s| - 1] == ';'
  {
    hide NormalStep, IsBeginMarker;
    LexHead(s, Normal(look));
    assert Lex(s, Normal(look)).segs[0].text == s;
  }

  lemma TailOne(s: string, m: Mode, cut: bool)
    requires s != "" && IsOne(s, m, cut) && Step(s, m).event == Keep
    requires cut ==> |s| > Step(s, m).len
    ensures IsOne(s[Step(s, m).len..], Step(s, m).mode, cut)
  {
    hide Step;
    var t := Step(s, m);
    var r := s[t.len..];
    var rest := Lex(r, t.mode).segs;
    assert s == s[..t.len] + r;
    assert Lex(s, m).segs == Glue(s[..t.len], rest);
    assert rest[0].text == r by {
      assert Lex(s, m).segs[0].text == s;
      assert s[..t.len] + rest[0].text == s;
      assert rest[0].text == s[t.len..];
    }
    assert rest == [rest[0]] + rest[1..];
    assert Lex(s, m).segs[1..] == rest[1..];
    assert cut ==> r[|r| - 1] == s[|s| - 1];
  }

  /** Leading white space only changes what the next character sees before it. */
  lemma {:induction false} DropLeft(w: string, z: string, look: Look, cut: bool)
    requires AllSpace(w) && IsOne(w + z, Normal(look), cut)
    ensures IsOne(z, Normal(LookAfter(w, look)), cut)
    decreases |w|
  {
    hide IsOne, Step, NormalStep;
    var s := w + z;
    if w == "" {
      assert s == z;
    } else {
      SpaceStep(s, look);
      OneStep(s, look, cut);
      assert s[1..] == w[1..] + z && s[..1] == w[..1];
      TailOne(s, Normal(look), cut);
      DropLeft(w[1..], z, Next(look, w[0]), cut);
    }
  }

  lemma {:induction false} SpaceLook(w: string, look: Look)
    requires AllSpace(w) && w != ""
    ensures LookAfter(w, look)
            == if w[|w| - 1] == '\n' then LineStart else if IsAscii(w[|w| - 1]) then Plain else Word
    decreases |w|
  {
    if |w| > 1 {
      SpaceLook(w[1..], Next(look, w[0]));
    } else {
      assert w[1..] == "";
    }
  }

  lemma LexSame(s: string, m: Mode, n: Mode)
    requires s != "" && Step(s, m) == Step(s, n)
    ensures Lex(s, m) == Lex(s, n)
  {
    hide Step;
  }

  /** The text opens with an escape string. */
  predicate OpensWithEscapeString(z: string) {
    |z| >= 2 && z[0] in {'E', 'e'} && z[1] == '\''
  }

  lemma WordStep(z: string)
    requires z != "" && !OpensWithEscapeString(z)
    ensures z[0] !in {'E', 'e'} ==> NormalStep(z, Word) == NormalStep(z, LineStart)
    ensures z[0] in {'E', 'e'} ==>
              && NormalStep(z, Word) == Token(1, Normal(Word), Keep)
              && NormalStep(z, LineStart) == Token(1, Normal(LoneE), Keep)
    ensures z[0] in {'E', 'e'} && |z| > 1 ==> NormalStep(z[1..], Word) == NormalStep(z[1..], LoneE)
    ensures NormalStep(z, Plain) == NormalStep(z, LineStart)
  {
    hide MatchTag;
  }

  /** `E'` opens an escape string where an identifier can start, and a plain one after part of one. */
  lemma OpeningQuote(z: string, look: Look, cut: bool)
    requires OpensWithEscapeString(z) && !IsBeginMarker(FirstLine(z))
    ensures IsOne(z, Normal(look), cut) <==> IsOne(z[2..], Single(look in {LineStart, Plain}), cut)
  {
    hide IsOne, IsBeginMarker, MatchTag, FirstLine, LineLength;
    var e := look in {LineStart, Plain};
    assert Step(z, Normal(look)) == Token(1, Normal(if e then LoneE else Word), Keep);
    assert Step(z[1..], Normal(if e then LoneE else Word)) == Token(1, Single(e), Keep);
    assert z[1..][1..] == z[2..];
    if IsOne(z, Normal(look), cut) {
      OneStep(z, look, cut);
      TailOne(z, Normal(look), cut);
      TailOne(z[1..], Normal(if e then LoneE else Word), cut);
    }
    if IsOne(z[2..], Single(e), cut) {
      OneKeep(z[1..], Normal(if e then LoneE else Word), cut);
      OneKeep(z, Normal(look), cut);
    }
  }

  /**
   The literal that s is inside of has no escaped quote: up to its closing quote, backslashes taken in pairs
   from the left, no quote follows a backslash.
   */
  predicate NoEscapedQuote(s: string)
    decreases |s|
  {
    if s == "" then true
    else if s[0] == '\\' then |s| < 2 || (s[1] != '\'' && NoEscapedQuote(s[2..]))
    else if Doubled(s, '\'') then NoEscapedQuote(s[2..])
    else s[0] == '\'' || NoEscapedQuote(s[1..])
  }

  lemma {:induction false} NoEscapedQuotePadded(s: string, v: string)
    requires NoEscapedQuote(s) && AllSpace(v)
    ensures NoEscapedQuote(s + v)
    decreases |s| + |v|
  {
    if s == "" {
      assert s + v == v;
      if v != "" {
        assert "" + v[1..] == v[1..];
        NoEscapedQuotePadded("", v[1..]);
      }
    } else {
      assert (s + v)[1..] == s[1..] + v;
      if |s| == 1 {
        assert v != "" ==> (s + v)[1] == v[0];
        if v != "" {
          assert (s + v)[2..] == "" + v[1..];
          NoEscapedQuotePadded("", v[1..]);
          NoEscapedQuotePadded("", v);
          assert "" + v == v;
        }
      } else {
        assert (s + v)[2..] == s[2..] + v && (s + v)[1] == s[1];
        if s[0] == '\\' || Doubled(s, '\'') {
          NoEscapedQuotePadded(s[2..], v);
        } else if s[0] != '\'' {
          NoEscapedQuotePadded(s[1..], v);
        }
      }
    }
  }

  lemma SingleSteps(s: string)
    requires s != ""
    ensures s[0] == '\\' ==> Step(s, Single(true)) == Token(if |s| >= 2 then 2 else 1, Single(true), Keep)
    ensures s[0] != '\\' ==>
              var t := Step(s, Single(false));
              Step(s, Single(true)) == t.(mode := if t.mode.Single? then Single(true) else t.mode)
    ensures Step(s, Single(false)).event == Keep
    ensures s[0] != '\'' ==> Step(s, Single(false)) == Token(1, Single(false), Keep)
    ensures Doubled(s, '\'') ==> Step(s, Single(false)) == Token(2, Single(false), Keep)
    ensures s[0] == '\'' && !Doubled(s, '\'') ==> Step(s, Single(false)) == Token(1, Normal(Plain), Keep)
  {
  }

  lemma GlueTwice(x: string, y: string, segs: seq<Segment>)
    requires segs != []
    ensures Glue(x, Glue(y, segs)) == Glue(x + y, segs)
  {
    assert x + (y + segs[0].text) == x + y + segs[0].text;
  }

  /** Only escaped quotes tell the two kinds of string apart. */
  lemma {:induction false} SameReading(s: string)
    requires NoEscapedQuote(s)
    ensures Lex(s, Single(true)).segs == Lex(s, Single(false)).segs
    ensures Lex(s, Single(true)).final == Lex(s, Single(false)).final
            || (Lex(s, Single(true)).final.Single? && Lex(s, Single(false)).final.Single?)
    decreases |s|
  {
    hide Lex, Step, Glue;
    if s == "" {
      EmptyLex(Single(true));
      EmptyLex(Single(false));
      LexNothing(Single(true));
      LexNothing(Single(false));
      return;
    }
    SingleSteps(s);
    LexHead(s, Single(true));
    LexHead(s, Single(false));
    LexTexts(s, Single(true));
    LexTexts(s, Single(false));
    if s[0] == '\\' && |s| >= 2 {
      SingleSteps(s[1..]);
      LexHead(s[1..], Single(false));
      LexTexts(s[1..], Single(false));
      assert s[1..][1..] == s[2..] && s[..1] + s[1..][..1] == s[..2];
      SameReading(s[2..]);
      if s[1] == '\\' || s[1] != '\'' {
        GlueTwice(s[..1], s[1..][..1], Lex(s[2..], Single(false)).segs);
      }
    } else {
      var t := Step(s, Single(false));
      if t.mode.Single? {
        SameReading(s[t.len..]);
      }
    }
  }

  lemma PlainStep(z: string)
    requires z != ""
    ensures NormalStep(z, Plain) == NormalStep(z, LineStart)
  {
    hide MatchTag;
  }

  /** A statement reads the same at the start of a script as after white space, escape strings apart. */
  lemma FreshStart(z: string, look: Look, cut: bool)
    requires z != "" && IsOne(z, Normal(look), cut)
    requires look in {LineStart, Plain, Word}
    requires look == Word && OpensWithEscapeString(z) ==> NoEscapedQuote(z[2..])
    requires !IsBeginMarker(FirstLine(z))
    ensures IsOne(z, START, cut)
  {
    hide NormalStep, IsBeginMarker, Lex;
    OneStep(z, look, cut);
    if look == Word && OpensWithEscapeString(z) {
      OpeningQuote(z, Word, cut);
      OpeningQuote(z, LineStart, cut);
      SameReading(z[2..]);
    } else if look == Plain {
      PlainStep(z);
      LexSame(z, Normal(look), START);
    } else if look == Word {
      WordStep(z);
      if z[0] in {'E', 'e'} {
        LexHead(z, Normal(Word));
        LexHead(z, START);
        LexTexts(z, Normal(Word));
        LexTexts(z, START);
        if |z| > 1 {
          LexSame(z[1..], Normal(Word), Normal(LoneE));
        } else {
          EmptyLex(Normal(Word));
          EmptyLex(Normal(LoneE));
          LexNothing(Normal(Word));
          LexNothing(Normal(LoneE));
        }
      } else {
        LexSame(z, Normal(look), START);
      }
    }
  }

  lemma SameMarker(a: string, b: string)
    requires Trim(a) == Trim(b)
    ensures IsBeginMarker(a) <==> IsBeginMarker(b)
  {
  }

  lemma MarkerPadded(t: string, v: string)
    requires t != "" && AllSpace(v)
    ensures IsBeginMarker(FirstLine(t)) <==> IsBeginMarker(FirstLine(t + v))
  {
    hide IsBeginMarker, Trim, FirstLine;
    var l := FirstLine(t);
    if |l| < |t| {
      assert l == (t + v)[..|l|] && (t + v)[|l|] == '\n';
      FirstLineUnique(l, t + v);
    } else {
      var p := FirstLine(v);
      assert |p| < |v| ==> (t + v)[|t + p|] == '\n';
      assert AllSpace(p) && v == p + v[|p|..] && t + v == t + p + v[|p|..];
      FirstLineUnique(t + p, t + v);
      TrimIgnoresPadding("", t, p);
      assert "" + t + p == t + p && l == t;
      SameMarker(t, t + p);
    }
  }

  lemma {:induction false} TagCharsPadded(t: string, v: string, first: bool)
    requires AllSpace(v)
    ensures TagChars(t + v, first) == TagChars(t, first)
  {
    if t == "" {
      assert t + v == v;
    } else {
      assert (t + v)[1..] == t[1..] + v;
      TagCharsPadded(t[1..], v, false);
    }
  }

  lemma MatchTagPadded(t: string, v: string)
    requires t != "" && t[0] == '$' && AllSpace(v)
    ensures MatchTag(t + v) == MatchTag(t)
  {
    assert (t + v)[1..] == t[1..] + v;
    TagCharsPadded(t[1..], v, true);
    var k := TagChars(t[1..], true);
    if k + 1 < |t| {
      assert (t + v)[..k + 2] == t[..k + 2];
    }
  }

  /** Trailing white space is read with a preceding character only after a backslash. */
  lemma StepPadded(t: string, v: string, m: Mode)
    requires t != "" && AllSpace(v) && !m.Manual? && Clean(m)
    requires Step(t + v, m).event == Keep
    ensures if m == Single(true) && t == "\\" then Step(t, m) == Token(1, m, Keep)
            else Step(t, m) == Step(t + v, m)
  {
    hide IsBeginMarker, MatchTag, LineLength;
    var s := t + v;
    if m == START {
      MarkerPadded(t, v);
    }
    if t[0] == '$' {
      MatchTagPadded(t, v);
    }
    assert |t| >= 2 ==> s[1] == t[1];
    assert |t| == 1 && v != "" ==> s[1] == v[0];
    assert v != "" ==> s[|t|] == v[0];
  }

  lemma OneKeeps(s: string, m: Mode)
    requires s != "" && IsOne(s, m, false)
    ensures Step(s, m).event == Keep
  {
    hide Step;
    LexHead(s, m);
  }

  lemma {:induction false} DropRight(t: string, v: string, m: Mode)
    requires AllSpace(v) && !m.Manual? && Clean(m) && IsOne(t + v, m, false)
    ensures IsOne(t, m, false)
    decreases |t|
  {
    hide IsOne, Step;
    if t == "" {
      OneNothing(m);
      return;
    }
    var s := t + v;
    OneKeeps(s, m);
    StepPadded(t, v, m);
    StepFacts(s, m);
    StepClean(s, m);
    var k := Step(t, m).len;
    if m == Single(true) && t == "\\" {
      OneNothing(m);
      assert t[1..] == "";
    } else {
      TailOne(s, m, false);
      assert s[k..] == t[k..] + v;
      DropRight(t[k..], v, Step(t, m).mode);
    }
    OneKeep(t, m, false);
  }

  // ---------------------------------------------------------------------------------------------
  // The theorems

  /** At index k a line begins that the lexer takes for a StatementBegin marker. */
  predicate MeetsMarker(x: string, m: Mode, k: nat)
    requires k < |x|
  {
    ModeAt(x, m, k) == Some(START) && IsBeginMarker(FirstLine(x[k..]))
  }

  /** Read from mode m, x meets no marker, and no boundary but perhaps its last character. */
  ghost predicate HasNoBreak(x: string, m: Mode) {
    forall k :: 0 <= k < |x| ==> !MeetsMarker(x, m, k) && (IsBoundary(x, m, k) ==> k == |x| - 1)
  }

  predicate EndsInBoundary(x: string, m: Mode) {
    x != "" && IsBoundary(x, m, |x| - 1)
  }

  lemma KeepsNoBreak(x: string, m: Mode)
    requires x != "" && Step(x, m).event == Keep && !m.Manual?
    ensures !MeetsMarker(x, m, 0) && !IsBoundary(x, m, 0)
  {
    hide IsBeginMarker, MatchTag, FirstLine;
    assert x[0..] == x;
  }

  /** Breaks are those of the first token, then those of the rest. */
  lemma BreakStep(x: string, m: Mode)
    requires x != "" && Step(x, m).event == Keep && !m.Manual?
    ensures var t := Step(x, m);
            var r := x[t.len..];
            && (HasNoBreak(x, m) <==> HasNoBreak(r, t.mode))
            && (EndsInBoundary(x, m) <==> EndsInBoundary(r, t.mode))
  {
    hide Step, IsBeginMarker, FirstLine;
    var t := Step(x, m);
    var r := x[t.len..];
    KeepsNoBreak(x, m);
    assert forall k :: 0 < k < t.len ==> ModeAt(x, m, k).None?;
    forall k | 0 <= k < |r|
      ensures ModeAt(x, m, t.len + k) == ModeAt(r, t.mode, k)
      ensures IsBoundary(x, m, t.len + k) <==> IsBoundary(r, t.mode, k)
      ensures MeetsMarker(x, m, t.len + k) <==> MeetsMarker(r, t.mode, k)
    {
      assert r[k..] == x[t.len + k..] && r[k] == x[t.len + k];
    }
    if HasNoBreak(x, m) {
      forall k | 0 <= k < |r|
        ensures !MeetsMarker(r, t.mode, k) && (IsBoundary(r, t.mode, k) ==> k == |r| - 1)
      {
        assert !MeetsMarker(x, m, t.len + k);
      }
    }
    if HasNoBreak(r, t.mode) {
      forall k | 0 <= k < |x|
        ensures !MeetsMarker(x, m, k) && (IsBoundary(x, m, k) ==> k == |x| - 1)
      {
        if k >= t.len {
          assert !MeetsMarker(r, t.mode, k - t.len);
        }
      }
    }
  }

  lemma OneIsNothing(m: Mode, cut: bool)
    requires !m.Manual?
    ensures HasNoBreak("", m) && !EndsInBoundary("", m) && (IsOne("", m, cut) ==> !cut)
  {
  }

  lemma OneCutOnly(x: string, m: Mode)
    requires IsOne(x, m, true)
    ensures !IsOne(x, m, false)
  {
  }

  /** The first token ends the statement, or is a marker line. */
  lemma BreaksAtOnce(x: string, m: Mode, cut: bool)
    requires x != "" && !m.Manual? && Step(x, m).event in {Cut, Open}
    ensures IsOne(x, m, cut) <==> HasNoBreak(x, m) && cut == EndsInBoundary(x, m)
  {
    hide IsBeginMarker, MatchTag, FirstLine, Lex;
    LexHead(x, m);
    assert x[0..] == x && ModeAt(x, m, 0) == Some(m);
    if Step(x, m).event == Open {
      assert MeetsMarker(x, m, 0);
      assert Lex(x, m).segs[0].text == "";
    } else {
      assert IsBoundary(x, m, 0);
      assert Lex(x, m).segs[0].text == x[..1];
      if |x| == 1 {
        assert x == ";";
        OneCut(x, m);
        OneCutOnly(x, m);
      }
    }
  }

  lemma CutTail(t: string, m: Mode)
    requires t != "" && IsOne(t, m, true) && !m.Manual?
    ensures Step(t, m).event == Keep ==> Step(t, m).len < |t|
    ensures Step(t, m).event == Cut ==> t == ";"
    ensures Step(t, m).event in {Keep, Cut}
  {
    hide Step, Lex;
    LexHead(t, m);
    StepFacts(t, m);
    var k := Step(t, m).len;
    EmptyLex(Step(t, m).mode);
    assert Lex(t, m).segs[0].text == t;
    if k == |t| {
      assert t[k..] == "";
    }
  }

  /**
   Being read as one statement, in terms of the text: no marker is met and no boundary before the end, and
   `cut` is whether there is one at the end.
   */
  lemma {:induction false} OneExactly(x: string, m: Mode, cut: bool)
    requires !m.Manual?
    ensures IsOne(x, m, cut) <==> HasNoBreak(x, m) && cut == EndsInBoundary(x, m)
    decreases |x|
  {
    hide IsOne, Step, HasNoBreak, Lex, EndsInBoundary;
    if x == "" {
      OneNothing(m);
      OneIsNothing(m, cut);
    } else if Step(x, m).event == Keep {
      var t := Step(x, m);
      StepFacts(x, m);
      BreakStep(x, m);
      OneExactly(x[t.len..], t.mode, cut);
      if IsOne(x, m, cut) {
        if cut {
          CutTail(x, m);
        }
        TailOne(x, m, cut);
      } else if IsOne(x[t.len..], t.mode, cut) {
        OneKeep(x, m, cut);
      }
    } else {
      StepFacts(x, m);
      BreaksAtOnce(x, m, cut);
    }
  }

  /**
   White space outside ASCII stands right before an `E'` that opens the statement. Such a character is
   trimmed off as white space, but until then it counts as part of an identifier and hides the prefix.
   */
  ghost predicate MasksEscape(x: string) {
    exists i :: 0 <= i < |x| && AllSpace(x[..i + 1]) && !IsAscii(x[i]) && OpensWithEscapeString(x[i + 1..])
  }

  /** What precedes the trimmed part is part of an identifier only if it masks an escape string there. */
  lemma LookOfTrimmed(w: string, z: string, look: Look)
    requires AllSpace(w) && look in {LineStart, Plain}
    ensures LookAfter(w, look) in {LineStart, Plain, Word}
    ensures LookAfter(w, look) == Word && OpensWithEscapeString(z) ==> MasksEscape(w + z)
  {
    hide OpensWithEscapeString;
    if w != "" {
      SpaceLook(w, look);
      var x, i := w + z, |w| - 1;
      assert x[..i + 1] == w && x[i + 1..] == z && x[i] == w[i];
    }
  }

  /** Reading on after white space, as at the start of a script. */
  lemma ReadAfresh(w: string, z: string, m: Mode, cut: bool)
    requires m in {START, Normal(Plain)} && AllSpace(w) && z != "" && IsOne(w + z, m, cut)
    requires !IsBeginMarker(FirstLine(z)) && (MasksEscape(w + z) ==> |z| >= 2 && NoEscapedQuote(z[2..]))
    ensures IsOne(z, START, cut)
  {
    hide IsOne, IsBeginMarker, FirstLine, NoEscapedQuote, MasksEscape;
    DropLeft(w, z, m.look, cut);
    LookOfTrimmed(w, z, m.look);
    FreshStart(z, LookAfter(w, m.look), cut);
  }

  lemma LastOfPadded(t: string, v: string)
    requires AllSpace(v)
    ensures v == "" || IsSpace((t + v)[|t + v| - 1])
  {
  }

  /** A boundary ends with a semicolon, after which there is nothing to trim. */
  lemma CutLeavesNoSpace(t: string, v: string)
    requires AllSpace(v) && IsOne(t + v, START, true)
    ensures t + v == t
  {
    hide Lex;
    LastOfPadded(t, v);
  }

  lemma TrimmedOne(x: string, m: Mode, cut: bool)
    requires m in {START, Normal(Plain)} && IsOne(x, m, cut)
    requires Trim(x) != "" && !IsBeginMarker(FirstLine(Trim(x)))
    requires MasksEscape(x) ==> |Trim(x)| >= 2 && NoEscapedQuote(Trim(x)[2..])
    ensures IsOne(Trim(x), START, cut)
  {
    hide IsOne, IsBeginMarker, Trim, FirstLine, NoEscapedQuote, MasksEscape;
    var t := Trim(x);
    var w, v := TrimParts(x);
    var z := t + v;
    assert x == w + z;
    if MasksEscape(x) {
      assert z[2..] == t[2..] + v;
      NoEscapedQuotePadded(t[2..], v);
    }
    MarkerPadded(t, v);
    ReadAfresh(w, z, m, cut);
    if cut {
      CutLeavesNoSpace(t, v);
    } else {
      DropRight(t, v, START);
    }
  }

  /** A trimmed text with something to execute, read as one statement at the start of a script. */
  ghost predicate StandsAlone(t: string, cut: bool) {
    IsTrimmed(t) && !IsEmptyStatement(t) && IsOne(t, START, cut)
  }

  lemma KeptSingle(seg: Segment)
    ensures Kept([seg]) == if IsEmptyStatement(Trim(seg.text)) then [] else [Trim(seg.text)]
  {
    assert [seg][1..] == [];
  }

  lemma BlankIsEmpty()
    ensures Trim("") == "" && IsEmptyStatement("")
  {
  }

  lemma StandsAloneSplits(t: string, cut: bool)
    requires StandsAlone(t, cut)
    ensures Statements(t) == Success([t])
  {
    hide Lex, IsEmptyStatement;
    TrimTrimmed(t);
    BlankIsEmpty();
    KeptSingle(Segment(t, false));
    KeptSingle(Segment("", false));
    KeptAppend([Segment(t, false)], if cut then [Segment("", false)] else []);
  }

  /** Inside the escape string that t opens with, and after it, there is no break before the end. */
  ghost predicate ReadsAsOne(t: string) {
    |t| >= 2 && HasNoBreak(t[2..], Single(true))
  }

  predicate ReadsToBoundary(t: string) {
    |t| >= 2 && EndsInBoundary(t[2..], Single(true))
  }

  /**
   A segment that is dropped, or whose statement reads the same once it is trimmed and on its own: its first
   line is not the begin marker, and an escape string that was masked does not, when read as one, bring in a
   break or, where more statements follow, take away the boundary at the end.
   */
  ghost predicate StaysWhole(seg: Segment, more: bool) {
    var t := Trim(seg.text);
    || IsEmptyStatement(t)
    || (!IsBeginMarker(FirstLine(t)) && (MasksEscape(seg.text) ==> ReadsAsOne(t) && (more ==> ReadsToBoundary(t))))
  }

  lemma OpensTrimmed(t: string, v: string)
    requires AllSpace(v) && OpensWithEscapeString(t + v)
    ensures OpensWithEscapeString(t)
  {
    var z := t + v;
    assert forall k :: |t| <= k < |z| ==> z[k] == v[k - |t|];
    assert |t| >= 2;
    assert z[0] == t[0] && z[1] == t[1];
  }

  lemma MaskedParts(x: string) returns (w: string, z: string)
    requires MasksEscape(x)
    ensures x == w + z && AllSpace(w) && OpensWithEscapeString(z)
  {
    hide OpensWithEscapeString;
    var i :| 0 <= i < |x| && AllSpace(x[..i + 1]) && !IsAscii(x[i]) && OpensWithEscapeString(x[i + 1..]);
    return x[..i + 1], x[i + 1..];
  }

  lemma MaskedOpens(x: string)
    requires MasksEscape(x)
    ensures OpensWithEscapeString(Trim(x))
  {
    hide MasksEscape, TrimLeft, TrimRight;
    var w, z := MaskedParts(x);
    TrimLeftDrops(w, z);
    var v := TrailingSpace(z);
    OpensTrimmed(TrimRight(z), v);
  }

  lemma MaskedIsOne(t: string, cut: bool)
    requires OpensWithEscapeString(t)
    ensures IsOne(t, START, cut) <==> IsOne(t[2..], Single(true), cut)
  {
    hide IsOne;
    assert t[0] == 'E' || t[0] == 'e';
    NotAMarker(t);
    OpeningQuote(t, LineStart, cut);
  }

  /** The statement of a segment, on its own. */
  lemma SegmentStandsAlone(script: string, m: Mode, more: bool) returns (cut: bool)
    requires m in {START, Normal(Plain)} && (more ==> NoMarkers(script, m) && |Lex(script, m).segs| > 1)
    requires var seg := Lex(script, m).segs[0];
             StaysWhole(seg, more) && !IsEmptyStatement(Trim(seg.text))
    ensures StandsAlone(Trim(Lex(script, m).segs[0].text), cut)
    ensures more ==> cut
  {
    hide Lex, IsEmptyStatement, IsBeginMarker, NoMarkers, IsOne, Trim, HasNoBreak, EndsInBoundary, MasksEscape;
    cut := FirstSegment(script, m);
    var x := Lex(script, m).segs[0].text;
    BlankIsEmpty();
    var w, v := TrimParts(x);
    if MasksEscape(x) {
      var t := Trim(x);
      cut := EndsInBoundary(t[2..], Single(true));
      OneExactly(t[2..], Single(true), cut);
      MaskedOpens(x);
      MaskedIsOne(t, cut);
    } else {
      TrimmedOne(x, m, cut);
    }
  }

  /** No segment is longer than the input, and only the first can be as long. */
  lemma {:induction false} SegmentsFit(s: string, m: Mode)
    ensures forall i :: 0 <= i < |Lex(s, m).segs| ==> |Lex(s, m).segs[i].text| <= |s|
    ensures forall i :: 0 < i < |Lex(s, m).segs| ==> |Lex(s, m).segs[i].text| < |s|
    decreases |s|
  {
    hide Step, Lex;
    if s == "" {
      EmptyLex(m);
    } else {
      var t := Step(s, m);
      LexHead(s, m);
      SegmentsFit(s[t.len..], t.mode);
    }
  }

  lemma {:induction false} KeptOrigin(segs: seq<Segment>, t: string) returns (i: nat)
    requires t in Kept(segs)
    ensures i < |segs| && Trim(segs[i].text) == t
  {
    hide Trim, IsEmptyStatement;
    if Trim(segs[0].text) == t {
      return 0;
    }
    i := KeptOrigin(segs[1..], t);
    i := i + 1;
  }

  /** A text that splits into itself is read as one statement. */
  lemma SelfSplitIsOne(t: string) returns (cut: bool)
    requires Statements(t) == Success([t])
    ensures IsOne(t, START, cut)
  {
    hide Lex, Kept, IsOne, Trim;
    var segs := Lex(t, START).segs;
    assert [t][0] in Kept(segs);
    var i := KeptOrigin(segs, t);
    var w, v := TrimParts(segs[i].text);
    SegmentsFit(t, START);
    cut := FirstSegment(t, START);
    assert segs[0].text == t;
  }

  lemma NotMarker(s: string)
    requires '-' !in s && '\n' !in s
    ensures !IsBeginMarker(FirstLine(s))
  {
    FirstLineUnique(s, s);
    var w, v := TrimParts(s);
    assert Trim(s) != "" ==> s[|w|] == Trim(s)[0];
  }

  lemma OneIsNoMarker(t: string, cut: bool)
    requires IsOne(t, START, cut)
    ensures !IsBeginMarker(FirstLine(t))
  {
    hide Lex, IsBeginMarker, FirstLine, NormalStep;
    if t == "" {
      NotMarker(t);
    } else {
      LexHead(t, START);
      assert Lex(t, START).segs[0].text == t;
    }
  }

  /**
   A statement produced outside a manual block splits into exactly itself if its first line is not the begin
   marker and no escape string was masked, or one without an escaped quote in it.
   */
  lemma StatementIsStable(script: string, k: nat)
    requires k < |Lex(script, START).segs|
    requires !Lex(script, START).segs[k].manual && !IsEmptyStatement(Trim(Lex(script, START).segs[k].text))
    requires var x := Lex(script, START).segs[k].text;
             var t := Trim(x);
             !IsBeginMarker(FirstLine(t)) && (MasksEscape(x) ==> |t| >= 2 && NoEscapedQuote(t[2..]))
    ensures var t := Trim(Lex(script, START).segs[k].text); Statements(t) == Success([t])
  {
    hide Lex, IsEmptyStatement, Trim, Statements, MasksEscape, IsOne, IsBeginMarker, FirstLine, NoEscapedQuote;
    var rest, m := script, START;
    if k > 0 {
      rest, m := SegmentOrigin(script, START, k);
      assert Lex(rest, m).segs[0] == Lex(script, START).segs[k];
      if m == Manual {
        ManualFlag(rest);
      }
    }
    var x := Lex(script, START).segs[k].text;
    var cut := FirstSegment(rest, m);
    BlankIsEmpty();
    TrimmedOne(x, m, cut);
    var w, v := TrimParts(x);
    StandsAloneSplits(Trim(x), cut);
  }

  /**
   A statement produced outside a manual block splits into exactly itself if and only if its first line is
   not the begin marker and, should white space outside ASCII have been trimmed off in front of an escape
   string, reading the string as one meets no marker and no boundary before the last character.
   */
  lemma StableExactly(script: string, k: nat)
    requires k < |Lex(script, START).segs|
    requires var seg := Lex(script, START).segs[k];
             !seg.manual && !IsEmptyStatement(Trim(seg.text))
    ensures var x := Lex(script, START).segs[k].text;
            var t := Trim(x);
            Statements(t) == Success([t])
            <==> !IsBeginMarker(FirstLine(t)) && (MasksEscape(x) ==> ReadsAsOne(t))
  {
    hide Lex, IsEmptyStatement, Trim, Statements, MasksEscape, IsOne, IsBeginMarker, FirstLine, HasNoBreak,
      EndsInBoundary;
    var x := Lex(script, START).segs[k].text;
    var t := Trim(x);
    if Statements(t) == Success([t]) {
      var cut := SelfSplitIsOne(t);
      OneIsNoMarker(t, cut);
      if MasksEscape(x) {
        MaskedOpens(x);
        MaskedIsOne(t, cut);
        OneExactly(t[2..], Single(true), cut);
      }
    } else if MasksEscape(x) && ReadsAsOne(t) {
      var cut := EndsInBoundary(t[2..], Single(true));
      OneExactly(t[2..], Single(true), cut);
      MaskedOpens(x);
      MaskedIsOne(t, cut);
      var w, v := TrimParts(x);
      StandsAloneSplits(t, cut);
    } else if !IsBeginMarker(FirstLine(t)) && !MasksEscape(x) {
      StatementIsStable(script, k);
    }
  }

  /** Statements that stand alone, each but the last ended by a boundary. */
  ghost predicate Chain(ts: seq<string>) {
    || ts == []
    || (|ts| == 1 && StandsAlone(ts[0], false))
    || (StandsAlone(ts[0], true) && Chain(ts[1..]))
  }

  function JoinLines(ts: seq<string>): string {
    if ts == [] then "" else Unlines(ts)
  }

  lemma CutEnds(t: string, m: Mode)
    requires IsOne(t, m, true)
    ensures t != "" && t[|t| - 1] == ';'
  {
  }

  lemma GlueHead(x: string, seg: Segment, segs: seq<Segment>)
    ensures Glue(x, [seg] + segs) == [seg.(text := x + seg.text)] + segs
  {
  }

  /** After a statement that a boundary ends, the lexer is back where it can start the next one. */
  lemma {:induction false} AppendCut(t: string, y: string, m: Mode)
    requires IsOne(t, m, true) && Clean(m) && !m.Manual?
    ensures Lex(t + y, m).segs == [Segment(t, false)] + Lex(y, Normal(Plain)).segs
    ensures Lex(t + y, m).final == Lex(y, Normal(Plain)).final
    decreases |t|
  {
    hide Step, Lex, IsOne, Glue, Texts;
    var s := t + y;
    CutEnds(t, m);
    StepPrefix(s, |t|, m);
    assert s[..|t|] == t;
    CutTail(t, m);
    StepFacts(t, m);
    StepClean(t, m);
    LexHead(s, m);
    LexTexts(s, m);
    var k := Step(t, m).len;
    assert s[k..] == t[k..] + y && s[..k] == t[..k];
    if Step(t, m).event == Keep {
      TailOne(t, m, true);
      AppendCut(t[k..], y, Step(t, m).mode);
      GlueHead(t[..k], Segment(t[k..], false), Lex(y, Normal(Plain)).segs);
      assert t[..k] + t[k..] == t;
    } else {
      assert t[k..] + y == y;
    }
  }

  lemma KeptGlue(w: string, segs: seq<Segment>)
    requires segs != [] && AllSpace(w)
    ensures Kept(Glue(w, segs)) == Kept(segs)
  {
    hide IsEmptyStatement, Trim;
    TrimIgnoresPadding(w, segs[0].text, "");
    assert w + segs[0].text + "" == w + segs[0].text;
    assert Glue(w, segs)[1..] == segs[1..];
  }

  lemma FeedStep(rest: string)
    ensures Step("\n" + rest, Normal(Plain)) == Token(1, START, Keep)
  {
  }

  lemma ChainCons(t: string, s: string)
    requires StandsAlone(t, true) && Statements(s).Success?
    ensures Statements(t + ("\n" + s)) == Success([t] + Statements(s).value)
  {
    hide Lex, IsEmptyStatement, Trim, IsOne, Step, Kept;
    var y := "\n" + s;
    AppendCut(t, y, START);
    LexHead(y, Normal(Plain));
    LexTexts(y, Normal(Plain));
    FeedStep(s);
    assert y[1..] == s && y[..1] == "\n";
    KeptGlue("\n", Lex(s, START).segs);
    TrimTrimmed(t);
    KeptSingle(Segment(t, false));
    KeptAppend([Segment(t, false)], Lex(y, Normal(Plain)).segs);
  }

  lemma {:induction false} ChainSplits(ts: seq<string>)
    requires Chain(ts)
    ensures Statements(JoinLines(ts)) == Success(ts)
  {
    hide Lex, IsEmptyStatement, Trim, StandsAlone, Step, Kept;
    if ts == [] {
      EmptyLex(START);
      LexNothing(START);
      BlankIsEmpty();
      KeptSingle(Segment("", false));
    } else if |ts| == 1 {
      StandsAloneSplits(ts[0], StandsAlone(ts[0], true));
      assert ts == [ts[0]];
    } else {
      var t, rest := ts[0], ts[1..];
      ChainSplits(rest);
      ChainCons(t, Unlines(rest));
      assert t + "\n" + Unlines(rest) == t + ("\n" + Unlines(rest));
      assert ts == [t] + rest;
    }
  }

  /** Each segment stays whole, with regard to whether another statement follows it. */
  ghost predicate AllStayWhole(segs: seq<Segment>) {
    forall k :: 0 <= k < |segs| ==> StaysWhole(segs[k], Kept(segs[k + 1..]) != [])
  }

  lemma AllStayWholeTail(segs: seq<Segment>)
    requires segs != [] && AllStayWhole(segs)
    ensures AllStayWhole(segs[1..])
  {
    hide StaysWhole, Kept;
    var rest := segs[1..];
    forall k | 0 <= k < |rest|
      ensures StaysWhole(rest[k], Kept(rest[k + 1..]) != [])
    {
      assert rest[k] == segs[k + 1] && rest[k + 1..] == segs[k + 1 + 1..];
    }
  }

  lemma {:induction false} SegmentsChain(s: string, m: Mode)
    requires m in {START, Normal(Plain)} && NoMarkers(s, m) && AllStayWhole(Lex(s, m).segs)
    ensures Chain(Kept(Lex(s, m).segs))
    decreases |Lex(s, m).segs|
  {
    hide Lex, StaysWhole, NoMarkers, IsEmptyStatement, StandsAlone;
    var segs := Lex(s, m).segs;
    if |segs| > 1 {
      var rest, mode := SegmentOrigin(s, m, 1);
      NoMarkersMode(rest, mode);
      AllStayWholeTail(segs);
      SegmentsChain(rest, mode);
    } else {
      assert segs[1..] == [];
    }
    if !IsEmptyStatement(Trim(segs[0].text)) {
      var more := Kept(segs[1..]) != [];
      assert StaysWhole(segs[0], more);
      var cut := SegmentStandsAlone(s, m, more);
      assert Kept(segs) == [Trim(segs[0].text)] + Kept(segs[1..]);
      assert Kept(segs)[1..] == Kept(segs[1..]);
    } else {
      assert Kept(segs) == Kept(segs[1..]);
    }
  }

  /** A script without block markers: its statements, one per line group, split into the same statements. */
  lemma ResplitIsIdentity(script: string)
    requires HasNoBeginLine(script) && AllStayWhole(Lex(script, START).segs)
    ensures Statements(script).Success?
    ensures Statements(JoinLines(Statements(script).value)) == Statements(script)
  {
    hide AllStayWhole, Kept, Lex;
    NoMarkersAtStart(script);
    LexPieces(script, START);
    SegmentsChain(script, START);
    ChainSplits(Kept(Lex(script, START).segs));
  }

  // ---------------------------------------------------------------------------------------------
  // The exception is real

  lemma {:induction false} ByteLengthBound(s: string)
    ensures ByteLength(s) <= 4 * |s|
  {
    if s != "" {
      ByteLengthBound(s[1..]);
    }
  }

  lemma ShortLineRuns(t: string)
    requires t != "" && |t| < 100 && '\n' !in t && IsTrimmed(t) && t[0] !in {'-', ';', ' ', '\t', '\r', '\n'}
    ensures !IsEmptyStatement(t)
  {
    ByteLengthBound(t);
    TrimTrimmed(t);
    FirstLineUnique(t, t);
    assert Lines(t) == [t];
  }

  /** One more token in front of a statement that a boundary ends. */
  lemma KeepOne(s: string, rest: string, m: Mode)
    requires s != "" && Step(s, m).event == Keep && s[Step(s, m).len..] == rest
    requires IsOne(rest, Step(s, m).mode, true)
    ensures IsOne(s, m, true)
  {
    hide Step, IsOne;
    OneKeep(s, m, true);
  }

  lemma CutStep()
    ensures NormalStep(";", Plain) == Token(1, Normal(Plain), Cut)
  {
  }

  lemma PlainLiteral()
    ensures IsOne("\\'';';", Single(false), true)
  {
    hide IsOne, NormalStep;
    assert Step(";", Normal(Plain)) == NormalStep(";", Plain);
    CutStep();
    OneCut(";", Normal(Plain));
    KeepOne("';", ";", Single(false));
    KeepOne(";';", "';", Single(false));
    KeepOne("'';';", ";';", Single(false));
    KeepOne("\\'';';", "'';';", Single(false));
  }

  /** After a no-break space, the quote opens a plain literal, in which the backslash is data. */
  lemma PlainReading()
    ensures IsOne("\U{A0}E'\\'';';", START, true)
  {
    hide IsOne, IsBeginMarker, MatchTag, FirstLine, LineLength;
    PlainLiteral();
    KeepOne("'\\'';';", "\\'';';", Normal(Word));
    KeepOne("E'\\'';';", "'\\'';';", Normal(Word));
    NotMarker("\U{A0}E'\\'';';");
    KeepOne("\U{A0}E'\\'';';", "E'\\'';';", START);
  }

  /** On its own, it opens an escape string, in which the backslash escapes the next quote. */
  lemma EscapeReading()
    ensures IsOne("E'\\'';", START, true)
  {
    hide IsOne, IsBeginMarker, MatchTag, FirstLine, LineLength;
    OneCut(";", Normal(Plain));
    KeepOne("';", ";", Single(true));
    KeepOne("\\'';", "';", Single(true));
    KeepOne("'\\'';", "\\'';", Normal(LoneE));
    NotMarker("E'\\'';");
    KeepOne("E'\\'';", "'\\'';", START);
  }

  /** A no-break space before an escape string: one statement, which on its own splits in two. */
  lemma NoBreakSpaceCounterexample()
    ensures var script, t := "\U{A0}E'\\'';';", "E'\\'';';";
            && Statements(script) == Success([t])
            && Statements(t) != Success([t])
  {
    hide Lex, IsEmptyStatement, Trim;
    var script, t := "\U{A0}E'\\'';';", "E'\\'';';";
    PlainReading();
    TrimPadded("\U{A0}", t, "");
    assert "\U{A0}" + t + "" == script;
    ShortLineRuns(t);
    KeptSingle(Segment(script, false));
    BlankIsEmpty();
    KeptSingle(Segment("", false));
    KeptAppend([Segment(script, false)], [Segment("", false)]);
    var first, second := "E'\\'';", "';";
    EscapeReading();
    AppendCut(first, second, START);
    assert first + second == t;
    ShortLineRuns(first);
    TrimTrimmed(first);
    KeptSingle(Segment(first, false));
    KeptAppend([Segment(first, false)], Lex(second, Normal(Plain)).segs);
    assert Kept(Lex(t, START).segs)[0] == first;
  }
}
