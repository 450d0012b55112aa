/** What the splitter throws away: segments that hold nothing to execute, as far as isOnlyComments can see. */
module SplitDrops {
  import opened Text
  import opened Directives
  import opened Lexer
  import opened SplitTheorems
  import opened SplitStability

  /** Character by character: white space and line comments only. */
  predicate CommentsOnly(s: string, inComment: bool)
    decreases |s|
  {
    if s == "" then true
    else if inComment then CommentsOnly(s[1..], s[0] != '\n')
    else if IsSpace(s[0]) then CommentsOnly(s[1..], false)
    else Doubled(s, '-') && CommentsOnly(s[2..], true)
  }

  predicate AllIdle(lines: seq<string>) {
    forall i :: 0 <= i < |lines| ==> IsIdle(lines[i])
  }

  lemma {:induction false} CommentTail(l: string, rest: string)
    requires '\n' !in l
    ensures CommentsOnly(l, true)
    ensures CommentsOnly(l + "\n" + rest, true) <==> CommentsOnly(rest, false)
  {
    if l == "" {
      assert (l + "\n" + rest)[1..] == rest;
    } else {
      assert (l + "\n" + rest)[1..] == l[1..] + "\n" + rest;
      CommentTail(l[1..], rest);
    }
  }

  lemma {:induction false} SpaceHead(w: string, s: string)
    requires AllSpace(w)
    ensures CommentsOnly(w + s, false) <==> CommentsOnly(s, false)
  {
    if w == "" {
      assert w + s == s;
    } else {
      assert (w + s)[1..] == w[1..] + s;
      SpaceHead(w[1..], s);
    }
  }

  /** One line: idle exactly when it is white space and perhaps a comment. */
  lemma IdleLine(l: string, rest: string)
    requires '\n' !in l
    ensures CommentsOnly(l, false) <==> IsIdle(l)
    ensures CommentsOnly(l + "\n" + rest, false) <==> IsIdle(l) && CommentsOnly(rest, false)
  {
    var w, v := TrimParts(l);
    var t := Trim(l);
    assert forall c :: c in t || c in v ==> c in l;
    if t == "" {
      assert l == w + v;
      SpaceHead(l, "");
      assert l + "" == l;
      SpaceHead(l + "\n", rest);
    } else {
      var z := t + v;
      assert l == w + z && l + "\n" + rest == w + (z + "\n" + rest);
      SpaceHead(w, z);
      SpaceHead(w, z + "\n" + rest);
      assert |t| >= 2 ==> t[1] == z[1];
      assert |t| == 1 ==> !Doubled(z, '-') && !Doubled(z + "\n" + rest, '-');
      assert "--" <= t <==> Doubled(z, '-');
      if Doubled(z, '-') {
        assert (z + "\n" + rest)[2..] == z[2..] + "\n" + rest;
        CommentTail(z[2..], rest);
      }
    }
  }

  /** A text is comments and white space exactly when each of its lines is. */
  lemma {:induction false} AllIdleMeansComments(s: string)
    ensures AllIdle(Lines(s)) <==> CommentsOnly(s, false)
    decreases |s|
  {
    hide IsIdle, CommentsOnly;
    var l := FirstLine(s);
    if |l| == |s| {
      assert Lines(s) == [s] && l == s;
      IdleLine(s, "");
    } else {
      var rest := s[|l| + 1..];
      assert s == l + "\n" + rest;
      AllIdleMeansComments(rest);
      IdleLine(l, rest);
      assert Lines(s) == [l] + Lines(rest);
      assert Lines(s)[1..] == Lines(rest);
      assert AllIdle(Lines(s)) <==> IsIdle(l) && AllIdle(Lines(rest)) by {
        if IsIdle(l) && AllIdle(Lines(rest)) {
          assert forall i :: 0 < i < |Lines(s)| ==> Lines(s)[i] == Lines(rest)[i - 1];
        }
        if AllIdle(Lines(s)) {
          assert forall i :: 0 <= i < |Lines(rest)| ==> Lines(rest)[i] == Lines(s)[i + 1];
          assert Lines(s)[0] == l;
        }
      }
    }
  }

  /** The scan meets a line that does not fit its buffer before it has met anything to execute, and something is left. */
  predicate CutShort(lines: seq<string>) {
    lines != []
    && if IsOverlong(lines[0]) then !AllIdle(lines) else IsIdle(lines[0]) && CutShort(lines[1..])
  }

  lemma {:induction false} ScanVerdict(lines: seq<string>)
    ensures OnlyCommentLines(lines) <==> AllIdle(lines) || CutShort(lines)
    ensures !(AllIdle(lines) && CutShort(lines))
  {
    if lines != [] {
      ScanVerdict(lines[1..]);
      assert lines == [lines[0]] + lines[1..];
      assert forall i :: 0 <= i < |lines| - 1 ==> lines[1..][i] == lines[i + 1];
      assert AllIdle(lines) <==> IsIdle(lines[0]) && AllIdle(lines[1..]) by {
        if IsIdle(lines[0]) && AllIdle(lines[1..]) {
          assert forall i :: 0 < i < |lines| ==> lines[i] == lines[1..][i - 1];
        }
      }
    }
  }

  /**
   isOnlyComments tells the truth about a text exactly when its scan is not cut short by a line of 65536
   bytes or more.
   */
  lemma OnlyCommentsExactly(s: string)
    ensures (IsOnlyComments(s) <==> CommentsOnly(s, false)) <==> !CutShort(Lines(s))
    ensures CommentsOnly(s, false) ==> IsOnlyComments(s)
  {
    ScanVerdict(Lines(s));
    AllIdleMeansComments(s);
  }

  lemma NotOverlong()
    ensures !IsOverlong("")
  {
  }

  /** A script that is one statement on one line too long for the scan splits into nothing at all. */
  lemma LongLineIsDropped(t: string, cut: bool)
    requires IsTrimmed(t) && '\n' !in t && IsOverlong(t) && IsOne(t, START, cut)
    requires t[0] !in {'-', ';'}
    ensures Statements(t) == Success([]) && !CommentsOnly(t, false) && !IsBlank(t)
  {
    hide IsOverlong, Lex;
    NotOverlong();
    FirstLineUnique(t, t);
    assert Lines(t) == [t];
    assert !IsSpace(t[0]);
    TrimTrimmed(t);
    BlankIsEmpty();
    KeptSingle(Segment(t, false));
    KeptSingle(Segment("", false));
    KeptAppend([Segment(t, false)], if cut then [Segment("", false)] else []);
  }

  lemma WordLetter(t: string, look: Look)
    requires t != "" && t[0] == 'x' && !IsBeginMarker(FirstLine(t)) && look in {LineStart, Word}
    ensures Step(t, Normal(look)) == Token(1, Normal(Word), Keep)
  {
    hide MatchTag, FirstLine, IsBeginMarker;
  }

  lemma {:induction false} LongWord(n: nat, look: Look)
    requires look in {LineStart, Word}
    ensures IsOne(seq(n, _ => 'x'), Normal(look), false)
    decreases n
  {
    hide IsOne, Step;
    var t := seq(n, _ => 'x');
    if n == 0 {
      assert t == "";
      OneNothing(Normal(look));
    } else {
      NotAMarker(t);
      WordLetter(t, look);
      assert t[1..] == seq(n - 1, _ => 'x');
      LongWord(n - 1, Word);
      OneKeep(t, Normal(look), false);
    }
  }

  /** One character less fits. */
  lemma LimitIsExact(t: string)
    requires forall i :: 0 <= i < |t| ==> IsAscii(t[i])
    ensures IsOverlong(t) <==> |t| >= 65536
  {
    AsciiLength(t);
  }

  /** For instance, 65536 letters. */
  lemma LongLineExists()
    ensures var t := seq(65536, _ => 'x');
            IsTrimmed(t) && '\n' !in t && IsOverlong(t) && t[0] !in {'-', ';'} && IsOne(t, START, false)
  {
    var t := seq(65536, _ => 'x');
    assert ByteLength(t) >= |t|;
    LongWord(65536, LineStart);
  }

  // ---------------------------------------------------------------------------------------------
  // The segments of a script

  /** Nowhere 65536 bytes without a line feed. */
  ghost predicate LinesFit(s: string) {
    forall i, j :: 0 <= i <= j <= |s| && '\n' !in s[i..j] ==> !IsOverlong(s[i..j])
  }

  lemma SliceOfSlice(s: string, a: nat, b: nat, i: nat, j: nat)
    requires a <= b <= |s| && i <= j <= b - a
    ensures s[a..b][i..j] == s[a + i..a + j]
  {
    var x, y := s[a..b][i..j], s[a + i..a + j];
    assert |x| == |y|;
    forall k | 0 <= k < |x|
      ensures x[k] == y[k]
    {
      assert x[k] == s[a..b][i + k] == s[a + (i + k)];
      assert y[k] == s[a + i + k];
    }
  }

  lemma LinesFitSlice(s: string, a: nat, b: nat)
    requires a <= b <= |s| && LinesFit(s)
    ensures LinesFit(s[a..b])
  {
    forall i, j | 0 <= i <= j <= b - a && '\n' !in s[a..b][i..j]
      ensures !IsOverlong(s[a..b][i..j])
    {
      SliceOfSlice(s, a, b, i, j);
      assert !IsOverlong(s[a + i..a + j]);
    }
  }

  lemma {:induction false} LinesFitEach(s: string)
    requires LinesFit(s)
    ensures forall l :: l in Lines(s) ==> !IsOverlong(l)
    decreases |s|
  {
    hide IsOverlong;
    var l := FirstLine(s);
    assert s[0..|l|] == l;
    if |l| < |s| {
      LinesFitSlice(s, |l| + 1, |s|);
      assert s[|l| + 1..|s|] == s[|l| + 1..];
      LinesFitEach(s[|l| + 1..]);
      assert Lines(s) == [l] + Lines(s[|l| + 1..]);
    } else {
      assert Lines(s) == [s] && l == s;
    }
  }

  lemma {:induction false} FitsNotCutShort(lines: seq<string>)
    requires forall l :: l in lines ==> !IsOverlong(l)
    ensures !CutShort(lines)
  {
    if lines != [] {
      assert forall l :: l in lines[1..] ==> l in lines;
      assert lines[0] in lines;
      FitsNotCutShort(lines[1..]);
    }
  }

  /** Each segment is a stretch of the script. */
  lemma {:induction false} FirstIsPrefix(s: string, m: Mode)
    ensures Lex(s, m).segs[0].text <= s
    decreases |s|
  {
    hide Step, Lex;
    if s == "" {
      EmptyLex(m);
    } else {
      LexHead(s, m);
      var t := Step(s, m);
      FirstIsPrefix(s[t.len..], t.mode);
      assert s == s[..t.len] + s[t.len..];
    }
  }

  lemma SegmentIsSlice(script: string, k: nat) returns (a: nat, b: nat)
    requires k < |Lex(script, START).segs|
    ensures a <= b <= |script| && Lex(script, START).segs[k].text == script[a..b]
  {
    hide Lex;
    var rest, m := script, START;
    if k > 0 {
      rest, m := SegmentOrigin(script, START, k);
      assert Lex(rest, m).segs[0] == Lex(script, START).segs[k];
    }
    FirstIsPrefix(rest, m);
    a := |script| - |rest|;
    b := a + |Lex(script, START).segs[k].text|;
    assert rest == script[a..];
  }

  lemma {:induction false} SpaceTail(s: string, v: string, inComment: bool)
    requires AllSpace(v)
    ensures CommentsOnly(s + v, inComment) <==> CommentsOnly(s, inComment)
    decreases |s| + |v|
  {
    if s == "" {
      assert s + v == v;
      if v != "" {
        SpaceTail("", v[1..], inComment && v[0] != '\n');
        assert "" + v[1..] == v[1..];
      }
    } else {
      assert (s + v)[1..] == s[1..] + v;
      assert |s| == 1 && v != "" ==> (s + v)[1] == v[0];
      SpaceTail(s[1..], v, if inComment then s[0] != '\n' else false);
      if |s| > 1 {
        assert (s + v)[2..] == s[2..] + v;
        SpaceTail(s[2..], v, true);
      }
    }
  }

  /** Every token that the lexer reads is white space, opens a line comment, or is inside one. */
  predicate ReadsNothing(s: string, m: Mode)
    decreases |s|
  {
    s == ""
    || var t := Step(s, m);
       && (m.LineComment? || (m.Normal? && (t.mode.LineComment? || (t.mode.Normal? && IsSpace(s[0])))))
       && ReadsNothing(s[t.len..], t.mode)
  }

  /** Reading a segment, the lexer meets no marker, and a boundary only at its end. */
  lemma OneEvent(x: string, m: Mode, cut: bool)
    requires x != "" && IsOne(x, m, cut) && !m.Manual?
    ensures Step(x, m).event in {Keep, Cut}
    ensures m.Normal? ==> Step(x, m) == NormalStep(x, m.look)
    ensures Step(x, m).event == Cut ==> x[0] == ';'
    ensures cut && Step(x, m).event == Keep ==> |x| > Step(x, m).len
  {
    hide Step, IsOne, NormalStep;
    StepFacts(x, m);
    if m.Normal? {
      OneStep(x, m.look, cut);
      NormalStepKeeps(x, m.look);
    }
    if cut {
      CutTail(x, m);
    }
  }

  lemma IdleStep(s: string, m: Mode)
    requires s != "" && (m.LineComment? || (m.Normal? && Step(s, m) == NormalStep(s, m.look)))
    ensures var t := Step(s, m);
            && (m.LineComment? ==> t == Token(1, if s[0] == '\n' then START else m, Keep))
            && (m.Normal? && IsSpace(s[0]) ==> t.len == 1 && t.mode.Normal? && t.event == Keep)
            && (m.Normal? && Doubled(s, '-') ==> t == Token(2, LineComment, Keep))
            && (m.Normal? && !Doubled(s, '-') ==> !t.mode.LineComment?)
  {
    hide MatchTag, IsBeginMarker;
  }

  /** Of a segment read as one, both readers say the same. */
  lemma {:induction false} CommentsAreComments(x: string, m: Mode, cut: bool)
    requires IsOne(x, m, cut) && (m.Normal? || m.LineComment?)
    ensures ReadsNothing(x, m) <==> CommentsOnly(x, m.LineComment?)
    decreases |x|
  {
    hide IsOne, Step, NormalStep;
    if x != "" {
      OneEvent(x, m, cut);
      IdleStep(x, m);
      var t := Step(x, m);
      if t.event == Keep && (t.mode.Normal? || t.mode.LineComment?) {
        TailOne(x, m, cut);
        CommentsAreComments(x[t.len..], t.mode, cut);
      }
    }
  }

  lemma TrimmedComments(x: string)
    ensures CommentsOnly(Trim(x), false) <==> CommentsOnly(x, false)
  {
    hide Trim, CommentsOnly;
    var w, v := TrimParts(x);
    SpaceHead(w, Trim(x) + v);
    SpaceTail(Trim(x), v, false);
    assert x == w + (Trim(x) + v);
  }

  lemma WholeSuffix(s: string)
    ensures HasSuffix(s, s)
  {
  }

  lemma ShortSegment(script: string, a: nat, b: nat)
    requires LinesFit(script) && a <= b <= |script|
    ensures !CutShort(Lines(Trim(script[a..b])))
  {
    hide LinesFit, Trim;
    var x := script[a..b];
    LinesFitSlice(script, a, b);
    var t := Trim(x);
    var w, v := TrimParts(x);
    assert t == x[|w|..|w| + |t|];
    LinesFitSlice(x, |w|, |w| + |t|);
    LinesFitEach(t);
    FitsNotCutShort(Lines(t));
  }

  /**
   In a script whose lines fit the scan, a segment is dropped exactly when it is only white space and
   semicolons or only white space and comments; outside manual blocks, comments to the lexer as it reads the
   segment in its place in the script.
   */
  lemma DroppedSegmentsAreIdle(script: string, k: nat) returns (rest: string, m: Mode)
    requires LinesFit(script) && k < |Lex(script, START).segs|
    ensures HasSuffix(script, rest) && Lex(rest, m).segs == Lex(script, START).segs[k..]
    ensures var seg := Lex(script, START).segs[k];
            var t := Trim(seg.text);
            && (seg.manual <==> m == Manual)
            && (IsEmptyStatement(t) <==> IsBlank(t) || CommentsOnly(t, false))
            && (!seg.manual ==> (IsEmptyStatement(t) <==> IsBlank(t) || ReadsNothing(seg.text, m)))
  {
    hide Lex, LinesFit, Trim, CommentsOnly, IsOnlyComments, ReadsNothing, HasSuffix, IsOne, IsBlank, CutShort,
      NoMarkers, Lines;
    rest, m := script, START;
    if k > 0 {
      rest, m := SegmentOrigin(script, START, k);
    } else {
      WholeSuffix(script);
    }
    var a, b := SegmentIsSlice(script, k);
    var x := script[a..b];
    ShortSegment(script, a, b);
    OnlyCommentsExactly(Trim(x));
    if m == Manual {
      ManualFlag(rest);
    } else {
      var cut := FirstSegment(rest, m);
      CommentsAreComments(x, m, cut);
      TrimmedComments(x);
    }
  }

  // ---------------------------------------------------------------------------------------------
  // A script with nothing in it

  predicate OnlyStops(s: string) {
    forall i :: 0 <= i < |s| ==> s[i] in {' ', '\t', '\r', '\n', ';'}
  }

  lemma NoMarkerInStops(s: string)
    requires OnlyStops(s)
    ensures !IsBeginMarker(FirstLine(s))
  {
    hide FirstLine;
    var l := FirstLine(s);
    var w, v := TrimParts(l);
    assert forall i :: 0 <= i < |l| ==> l[i] == s[i];
    assert Trim(l) != "" ==> l[|w|] == Trim(l)[0];
  }

  lemma StopStep(s: string, look: Look)
    requires s != "" && OnlyStops(s) && look in {LineStart, Plain}
    ensures var t := Step(s, Normal(look));
            t.len == 1 && t.mode in {START, Normal(Plain)} && t.event == if s[0] == ';' then Cut else Keep
  {
    hide IsBeginMarker, MatchTag, FirstLine;
    NoMarkerInStops(s);
  }

  lemma {:induction false} StopSegments(s: string, look: Look)
    requires OnlyStops(s) && look in {LineStart, Plain}
    ensures var r := Lex(s, Normal(look));
            !r.final.Manual? && forall k :: 0 <= k < |r.segs| ==> OnlyStops(r.segs[k].text)
    decreases |s|
  {
    hide Step, Lex;
    if s == "" {
      EmptyLex(Normal(look));
      LexNothing(Normal(look));
    } else {
      StopStep(s, look);
      var t := Step(s, Normal(look));
      LexHead(s, Normal(look));
      LexTexts(s, Normal(look));
      StopSegments(s[1..], t.mode.look);
    }
  }

  lemma StopsAreEmpty(x: string)
    requires OnlyStops(x)
    ensures IsEmptyStatement(Trim(x))
  {
    hide Trim, IsOnlyComments;
    var w, v := TrimParts(x);
    var t := Trim(x);
    assert forall i :: 0 <= i < |t| ==> t[i] == x[|w| + i];
  }

  lemma {:induction false} NothingKept(segs: seq<Segment>)
    requires forall k :: 0 <= k < |segs| ==> OnlyStops(segs[k].text)
    ensures Kept(segs) == []
  {
    hide OnlyStops, IsEmptyStatement, Trim;
    if segs != [] {
      StopsAreEmpty(segs[0].text);
      assert forall k :: 0 <= k < |segs| - 1 ==> segs[1..][k] == segs[k + 1];
      NothingKept(segs[1..]);
    }
  }

  /** A script of white space and semicolons has no statements, however many semicolons there are. */
  lemma StopsHaveNoStatements(s: string)
    requires OnlyStops(s)
    ensures Statements(s) == Success([])
  {
    hide Lex, OnlyStops, Kept;
    StopSegments(s, LineStart);
    NothingKept(Lex(s, START).segs);
  }
}
