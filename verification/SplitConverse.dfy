/**
 When joining the statements of a script and splitting again gives the same list: exactly when each statement
 stays whole. SplitStability has the one half; this is the other.
 */
module SplitConverse {
  import opened Text
  import opened Directives
  import opened Lexer
  import opened SplitTheorems
  import opened SplitStability
  import opened SplitDrops

  // ---------------------------------------------------------------------------------------------
  // What is known of the statements of a script without StatementBegin lines

  ghost predicate ReadFrom(t: string, look: Look, cut: bool) {
    look in {LineStart, Plain, Word} && IsOne(t, Normal(look), cut)
  }

  /** No line but perhaps the first is a begin marker. */
  ghost predicate NoInnerBegin(t: string) {
    forall i :: 0 < i <= |t| && t[i - 1] == '\n' ==> !IsBeginMarker(FirstLine(t[i..]))
  }

  /** Trimmed, kept, and read as one statement where it stood; `cut`: a boundary ended it. */
  ghost predicate CameOut(t: string, cut: bool) {
    IsTrimmed(t) && !IsEmptyStatement(t) && NoInnerBegin(t) && exists look :: ReadFrom(t, look, cut)
  }

  ghost predicate AllCameOut(ts: seq<string>) {
    forall i :: 0 <= i < |ts| ==> CameOut(ts[i], true) || (i == |ts| - 1 && CameOut(ts[i], false))
  }

  lemma AllCameOutCons(t: string, cut: bool, rest: seq<string>)
    requires CameOut(t, cut) && (rest != [] ==> cut) && AllCameOut(rest)
    ensures AllCameOut([t] + rest)
  {
    hide CameOut;
    var ts := [t] + rest;
    forall i | 0 <= i < |ts|
      ensures CameOut(ts[i], true) || (i == |ts| - 1 && CameOut(ts[i], false))
    {
      if i > 0 {
        assert ts[i] == rest[i - 1];
      }
    }
  }

  lemma AllCameOutTail(ts: seq<string>)
    requires ts != [] && AllCameOut(ts)
    ensures AllCameOut(ts[1..])
  {
    hide CameOut;
    forall i | 0 <= i < |ts| - 1
      ensures CameOut(ts[1..][i], true) || (i == |ts| - 2 && CameOut(ts[1..][i], false))
    {
      assert ts[1..][i] == ts[i + 1];
    }
  }

  lemma HeadCut(ts: seq<string>) returns (cut: bool)
    requires ts != [] && AllCameOut(ts)
    ensures CameOut(ts[0], cut) && (|ts| > 1 ==> cut)
  {
    hide CameOut;
    cut := |ts| > 1 || CameOut(ts[0], true);
  }

  lemma PaddedTail(s: string, w: string, t: string, v: string, i: nat)
    requires w + t + v <= s && i <= |t|
    ensures s[|w| + i..][..|w + t + v| - |w| - i] == t[i..] + v
  {
    var x, a := w + t + v, |w| + i;
    assert x == s[..|x|];
    assert x[a..] == t[i..] + v;
    assert s[a..][..|x| - a] == s[..|x|][a..];
  }

  /** The lines of a trimmed segment are lines of the script, or lines that it cut off without making a marker. */
  lemma InnerLines(s: string, m: Mode, w: string, t: string, v: string)
    requires NoMarkers(s, m) && IsTrimmed(t) && AllSpace(v)
    requires w + t + v <= s && EndsCleanly(s, |w + t + v|)
    ensures NoInnerBegin(t)
  {
    hide IsBeginMarker, FirstLine;
    var x := w + t + v;
    forall i | 0 < i <= |t| && t[i - 1] == '\n'
      ensures !IsBeginMarker(FirstLine(t[i..]))
    {
      assert i < |t|;
      var a, r := |w| + i, s[|w| + i..];
      assert x[a - 1] == t[i - 1] && s[a - 1] == x[a - 1];
      assert !IsBeginMarker(FirstLine(r));
      var n := |x| - a;
      PaddedTail(s, w, t, v, i);
      assert EndsCleanly(r, n);
      MarkerPrefix(r, n);
      MarkerPadded(t[i..], v);
    }
  }

  lemma CutKeepsAll(t: string, v: string, look: Look)
    requires AllSpace(v) && IsOne(t + v, Normal(look), true)
    ensures t + v == t
  {
    hide Lex;
    LastOfPadded(t, v);
  }

  lemma HeadCameOut(s: string, m: Mode) returns (cut: bool)
    requires m in {START, Normal(Plain)} && NoMarkers(s, m)
    requires !IsEmptyStatement(Trim(Lex(s, m).segs[0].text))
    ensures CameOut(Trim(Lex(s, m).segs[0].text), cut)
    ensures |Lex(s, m).segs| > 1 ==> cut
  {
    hide Lex, IsOne, IsEmptyStatement, NoMarkers, Trim, NoInnerBegin;
    cut := FirstSegment(s, m);
    var x := Lex(s, m).segs[0].text;
    var t := Trim(x);
    var w, v := TrimParts(x);
    BlankIsEmpty();
    assert x == w + (t + v);
    InnerLines(s, m, w, t, v);
    DropLeft(w, t + v, m.look, cut);
    LookOfTrimmed(w, t + v, m.look);
    var look := LookAfter(w, m.look);
    if cut {
      CutKeepsAll(t, v, look);
    } else {
      DropRight(t, v, Normal(look));
    }
    assert ReadFrom(t, look, cut);
  }

  lemma NoneCameOut()
    ensures AllCameOut([])
  {
  }

  lemma {:induction false} SegmentsCameOut(s: string, m: Mode)
    requires m in {START, Normal(Plain)} && NoMarkers(s, m)
    ensures AllCameOut(Kept(Lex(s, m).segs))
    decreases |Lex(s, m).segs|
  {
    hide Lex, NoMarkers, IsEmptyStatement, CameOut, AllCameOut;
    var segs := Lex(s, m).segs;
    if |segs| > 1 {
      var rest, mode := SegmentOrigin(s, m, 1);
      NoMarkersMode(rest, mode);
      SegmentsCameOut(rest, mode);
    } else {
      assert segs[1..] == [];
      NoneCameOut();
    }
    if !IsEmptyStatement(Trim(segs[0].text)) {
      var cut := HeadCameOut(s, m);
      AllCameOutCons(Trim(segs[0].text), cut, Kept(segs[1..]));
      assert Kept(segs) == [Trim(segs[0].text)] + Kept(segs[1..]);
    } else {
      assert Kept(segs) == Kept(segs[1..]);
    }
  }

  // ---------------------------------------------------------------------------------------------
  // Lines of the joined list

  lemma JoinCons(ts: seq<string>)
    requires ts != []
    ensures JoinLines(ts) == if |ts| == 1 then ts[0] else ts[0] + ("\n" + JoinLines(ts[1..]))
  {
    if |ts| > 1 {
      assert ts[0] + "\n" + Unlines(ts[1..]) == ts[0] + ("\n" + Unlines(ts[1..]));
    }
  }

  lemma InSlice(s: string, i: nat, j: nat, k: nat)
    ensures i <= k < j <= |s| ==> s[k] in s[i..j]
  {
    assert i <= k < j <= |s| ==> s[i..j][k - i] == s[k];
  }

  lemma LinesFitConcat(a: string, b: string)
    requires LinesFit(a) && LinesFit(b)
    ensures LinesFit(a + ("\n" + b))
  {
    hide IsOverlong;
    var s := a + ("\n" + b);
    forall i, j | 0 <= i <= j <= |s| && '\n' !in s[i..j]
      ensures !IsOverlong(s[i..j])
    {
      InSlice(s, i, j, |a|);
      if j <= |a| {
        assert s[i..j] == a[i..j];
      } else {
        var d := |a| + 1;
        assert s[i..j] == b[i - d..j - d];
      }
    }
  }

  lemma NothingFits()
    ensures LinesFit("") && JoinLines([]) == ""
  {
    hide IsOverlong;
    NotOverlong();
    assert forall i, j :: 0 <= i <= j <= 0 ==> ""[i..j] == "";
  }

  lemma {:induction false} LinesFitJoin(ts: seq<string>)
    requires forall i :: 0 <= i < |ts| ==> LinesFit(ts[i])
    ensures LinesFit(JoinLines(ts))
  {
    hide LinesFit, JoinLines;
    if ts == [] {
      NothingFits();
    } else {
      JoinCons(ts);
      if |ts| > 1 {
        assert forall i :: 0 <= i < |ts| - 1 ==> ts[1..][i] == ts[i + 1];
        LinesFitJoin(ts[1..]);
        LinesFitConcat(ts[0], JoinLines(ts[1..]));
      }
    }
  }

  lemma {:induction false} KeptFit(script: string, segs: seq<Segment>)
    requires forall k :: 0 <= k < |segs| ==> LinesFit(segs[k].text)
    ensures forall i :: 0 <= i < |Kept(segs)| ==> LinesFit(Kept(segs)[i])
  {
    hide LinesFit, IsEmptyStatement, Trim;
    if segs != [] {
      assert forall k :: 0 <= k < |segs| - 1 ==> segs[1..][k] == segs[k + 1];
      KeptFit(script, segs[1..]);
      var x := segs[0].text;
      var w, v := TrimParts(x);
      assert Trim(x) == x[|w|..|w| + |Trim(x)|];
      LinesFitSlice(x, |w|, |w| + |Trim(x)|);
    }
  }

  lemma StatementsFit(script: string)
    requires LinesFit(script)
    ensures LinesFit(JoinLines(Kept(Lex(script, START).segs)))
  {
    hide LinesFit, Lex;
    var segs := Lex(script, START).segs;
    forall k | 0 <= k < |segs|
      ensures LinesFit(segs[k].text)
    {
      var a, b := SegmentIsSlice(script, k);
      LinesFitSlice(script, a, b);
    }
    KeptFit(script, segs);
    LinesFitJoin(Kept(segs));
  }

  /** The first line of the joined list is that of its first statement. */
  lemma FirstOfJoin(t: string, s: string)
    ensures FirstLine(t + ("\n" + s)) == FirstLine(t)
  {
    hide FirstLine;
    var l := FirstLine(t);
    assert |l| < |t| ==> (t + ("\n" + s))[|l|] == t[|l|];
    FirstLineUnique(l, t + ("\n" + s));
  }

  // ---------------------------------------------------------------------------------------------
  // Trimmed texts and begin markers

  lemma {:induction false} LastLineStart(w: string) returns (i: nat)
    ensures i <= |w| && (i == 0 || w[i - 1] == '\n') && '\n' !in w[i..]
  {
    i := |w|;
    while i > 0 && w[i - 1] != '\n'
      invariant i <= |w| && '\n' !in w[i..]
    {
      assert w[i - 1..] == [w[i - 1]] + w[i..];
      i := i - 1;
    }
  }

  /** A text none of whose lines up to its first character is a begin marker does not start with one when trimmed. */
  lemma TrimNoBegin(y: string)
    requires forall i :: 0 <= i <= |y| && (i == 0 || y[i - 1] == '\n') && AllSpace(y[..i]) ==>
               !IsBeginMarker(FirstLine(y[i..]))
    ensures !IsBeginMarker(FirstLine(Trim(y)))
  {
    hide IsBeginMarker, FirstLine, Trim;
    var t := Trim(y);
    var w, v := TrimParts(y);
    if t == "" {
      NotMarker("");
      return;
    }
    var i := LastLineStart(w);
    var z, l := t + v, FirstLine(t + v);
    assert y[..i] == w[..i] && y[i..] == w[i..] + z;
    assert i > 0 ==> y[i - 1] == w[i - 1];
    assert |l| < |z| ==> (w[i..] + z)[|w[i..] + l|] == z[|l|];
    assert w[i..] + l <= w[i..] + z;
    FirstLineUnique(w[i..] + l, w[i..] + z);
    TrimIgnoresPadding(w[i..], l, "");
    assert w[i..] + l + "" == w[i..] + l;
    SameMarker(w[i..] + l, l);
    MarkerPadded(t, v);
  }

  /** For instance, what follows a line feed of a statement that came out of a script. */
  lemma TailNoBegin(t: string, p: string, y: string)
    requires NoInnerBegin(t) && t == p + y && p != "" && p[|p| - 1] == '\n'
    ensures !IsBeginMarker(FirstLine(Trim(y)))
  {
    hide IsBeginMarker, FirstLine, Trim;
    forall i | 0 <= i <= |y| && (i == 0 || y[i - 1] == '\n') && AllSpace(y[..i])
      ensures !IsBeginMarker(FirstLine(y[i..]))
    {
      var k := |p| + i;
      assert t[k - 1] == '\n' && t[k..] == y[i..];
    }
    TrimNoBegin(y);
  }

  // ---------------------------------------------------------------------------------------------
  // Reading past comments, and past a manual block

  lemma NewlineSkipped(x: string, m: Mode)
    requires x != "" && (m.LineComment? || (m.Normal? && Step(x, m) == NormalStep(x, m.look)))
    ensures x[0] == '\n' ==> Step(x, m) == Token(1, START, Keep)
  {
  }

  /** After comment lines, the lexer is where it starts. */
  lemma {:induction false} SkipComments(b: string, y: string, m: Mode, cut: bool)
    requires m.Normal? || m.LineComment?
    requires if b == "" then m == START else b[|b| - 1] == '\n'
    requires CommentsOnly(b, m.LineComment?) && y != "" && IsOne(b + y, m, cut)
    ensures IsOne(y, START, cut)
    decreases |b|
  {
    hide IsOne, Step, NormalStep;
    var x := b + y;
    if b == "" {
      assert x == y;
      return;
    }
    OneEvent(x, m, cut);
    IdleStep(x, m);
    assert |b| >= 2 ==> x[1] == b[1];
    assert |b| == 1 ==> b[0] == '\n';
    var t := Step(x, m);
    NewlineSkipped(x, m);
    TailOne(x, m, cut);
    assert x[t.len..] == b[t.len..] + y;
    SkipComments(b[t.len..], y, t.mode, cut);
  }

  lemma FirstBreak(x: string, m: Mode)
    requires x != "" && HasNoBreak(x, m) && IsBoundary(x, m, 0)
    ensures |x| == 1 && EndsInBoundary(x, m)
  {
    assert !MeetsMarker(x, m, 0);
  }

  /** A semicolon at the head of one statement is all of it. */
  lemma OnlySemicolon(z: string, look: Look, cut: bool)
    requires IsOne(";" + z, Normal(look), cut)
    ensures z == "" && cut
  {
    hide IsOne, HasNoBreak;
    var x := ";" + z;
    OneExactly(x, Normal(look), cut);
    assert IsBoundary(x, Normal(look), 0);
    FirstBreak(x, Normal(look));
  }

  lemma ManualLine(s: string)
    requires s != ""
    ensures var t := Step(s, Manual);
            var l := FirstLine(s);
            && (t.event == Close ==> IsEndMarker(l) && t.mode == START)
            && (if |l| == |s| then t.len == |s| && s[..t.len] == l && s[t.len..] == ""
                else t.len == |l| + 1 && s[..t.len] == l + "\n")
  {
    hide IsEndMarker;
    var l := FirstLine(s);
    assert |l| < |s| ==> s[..|l| + 1] == l + "\n";
  }

  /** Inside a block, a line ends it or belongs to it. */
  lemma ManualHead(s: string) returns (line: string, r: string, ends: bool)
    requires s != ""
    ensures s == line + r && r == s[|line|..] && line != ""
    ensures var l := FirstLine(s); line == l + "\n" || (line == l && r == "")
    ensures ends ==> IsEndMarker(FirstLine(s)) && Lex(s, Manual).final == Lex(r, START).final
                     && Lex(s, Manual).segs == [Segment("", true)] + Lex(r, START).segs
    ensures !ends ==> Lex(s, Manual).final == Lex(r, Manual).final
                      && Lex(s, Manual).segs == Glue(line, Lex(r, Manual).segs)
  {
    hide IsEndMarker, Lex, Step, Glue, FirstLine, Texts;
    var t := Step(s, Manual);
    ManualStep(s);
    LexHead(s, Manual);
    LexTexts(s, Manual);
    ManualLine(s);
    return s[..t.len], s[t.len..], t.event == Close;
  }

  lemma OneMoreLine(l: string, body: string, more: string)
    requires body == "" || body[|body| - 1] == '\n'
    ensures (l + "\n") + (body + more) == (l + "\n" + body) + more
    ensures var b := l + "\n" + body; b[|b| - 1] == '\n'
  {
  }

  lemma NothingManual()
    ensures Lex("", Manual).final.Manual?
  {
  }

  /** A manual block that ends: its lines, the end marker, and the rest. */
  lemma {:induction false} ManualBlock(s: string) returns (body: string, end: string, rest: string)
    requires !Lex(s, Manual).final.Manual?
    ensures s == body + (end + rest) && (body == "" || body[|body| - 1] == '\n')
    ensures Lex(s, Manual).segs == [Segment(body, true)] + Lex(rest, START).segs
    ensures Lex(s, Manual).final == Lex(rest, START).final
    ensures var l := FirstLine(end + rest);
            IsEndMarker(l) && (end == l + "\n" || (end == l && rest == ""))
    decreases |s|
  {
    hide IsEndMarker, Lex, Glue, FirstLine;
    NothingManual();
    var line, r, ends := ManualHead(s);
    if ends {
      body, end, rest := "", line, r;
      assert "" + (end + rest) == end + rest;
    } else {
      var b;
      b, end, rest := ManualBlock(r);
      GlueHead(line, Segment(b, true), Lex(rest, START).segs);
      assert r != "";
      OneMoreLine(FirstLine(s), b, end + rest);
      body := line + b;
    }
  }

  // ---------------------------------------------------------------------------------------------
  // The statements that a joined list splits into

  /** The first of the statements, if there is one, does not begin with a begin marker. */
  ghost predicate StartsWell(segs: seq<Segment>) {
    Kept(segs) == [] || !IsBeginMarker(FirstLine(Kept(segs)[0]))
  }

  /** A statement with its boundary, a line feed, and more. */
  lemma ConsSegs(y: string, s: string)
    requires IsOne(y, START, true)
    ensures Kept(Lex(y + ("\n" + s), START).segs) == Kept([Segment(y, false)]) + Kept(Lex(s, START).segs)
    ensures Lex(y + ("\n" + s), START).final == Lex(s, START).final
  {
    hide Lex, IsEmptyStatement, Trim, IsOne, Step, Kept;
    var z := "\n" + s;
    AppendCut(y, z, START);
    LexHead(z, Normal(Plain));
    LexTexts(z, Normal(Plain));
    FeedStep(s);
    assert z[1..] == s && z[..1] == "\n";
    KeptGlue("\n", Lex(s, START).segs);
    KeptAppend([Segment(y, false)], Lex(z, Normal(Plain)).segs);
  }

  lemma KeptOfOne(y: string, cut: bool)
    requires IsOne(y, START, cut)
    ensures Kept(Lex(y, START).segs) == Kept([Segment(y, false)])
  {
    hide Lex, IsEmptyStatement, Kept;
    BlankIsEmpty();
    KeptSingle(Segment("", false));
    KeptAppend([Segment(y, false)], if cut then [Segment("", false)] else []);
    KeptAppend([Segment(y, false)], []);
    assert [Segment(y, false)] + [] == [Segment(y, false)];
  }

  function Joined(y: string, ts: seq<string>): string {
    if ts == [] then y else y + ("\n" + JoinLines(ts))
  }

  /** From the middle of a statement on, at a line that is read as at the start of a script. */
  lemma AfterTail(t: string, p: string, y: string, cut: bool, ts: seq<string>)
    requires NoInnerBegin(t) && t == p + y && p != "" && p[|p| - 1] == '\n'
    requires IsOne(y, START, cut) && (ts != [] ==> cut)
    requires !Lex(JoinLines(ts), START).final.Manual? ==> StartsWell(Lex(JoinLines(ts), START).segs)
    ensures !Lex(Joined(y, ts), START).final.Manual? ==> StartsWell(Lex(Joined(y, ts), START).segs)
  {
    hide Lex, IsEmptyStatement, Kept, IsOne, IsBeginMarker, NoInnerBegin, JoinLines, FirstLine, Trim;
    TailNoBegin(t, p, y);
    KeptSingle(Segment(y, false));
    if ts == [] {
      KeptOfOne(y, cut);
    } else {
      ConsSegs(y, JoinLines(ts));
    }
  }

  /** Within lines that fit, dropped means blank or comments. */
  lemma DroppedMeans(s: string, a: nat, b: nat)
    requires LinesFit(s) && a <= b <= |s|
    ensures var x := s[a..b];
            IsEmptyStatement(Trim(x)) <==> IsBlank(Trim(x)) || CommentsOnly(x, false)
  {
    hide LinesFit, Trim, CommentsOnly, IsBlank, CutShort, Lines, IsOnlyComments;
    ShortSegment(s, a, b);
    OnlyCommentsExactly(Trim(s[a..b]));
    TrimmedComments(s[a..b]);
  }

  lemma {:induction false} CommentsPrefix(a: string, b: string, inComment: bool)
    requires CommentsOnly(a + ("\n" + b), inComment)
    ensures CommentsOnly(a, inComment)
    decreases |a|
  {
    var s := a + ("\n" + b);
    if a != "" {
      assert s[1..] == a[1..] + ("\n" + b);
      assert |a| == 1 ==> s[1] == '\n';
      if inComment || IsSpace(a[0]) {
        CommentsPrefix(a[1..], b, inComment && a[0] != '\n');
      } else {
        assert s[2..] == a[2..] + ("\n" + b) && s[1] == a[1];
        CommentsPrefix(a[2..], b, true);
      }
    }
  }

  lemma {:induction false} CommentsConcat(a: string, b: string, inComment: bool)
    requires CommentsOnly(a, inComment) && CommentsOnly(b, false) && (if a == "" then !inComment else a[|a| - 1] == '\n')
    ensures CommentsOnly(a + b, inComment)
    decreases |a|
  {
    var s := a + b;
    if a == "" {
      assert s == b;
    } else {
      assert s[1..] == a[1..] + b;
      if inComment || IsSpace(a[0]) {
        CommentsConcat(a[1..], b, inComment && a[0] != '\n');
      } else {
        assert s[2..] == a[2..] + b && s[1] == a[1];
        CommentsConcat(a[2..], b, true);
      }
    }
  }

  lemma NothingIsComment()
    ensures CommentsOnly("", false)
  {
  }

  /** A marker line is a comment. */
  lemma MarkerIsComment(l: string)
    requires '\n' !in l && (IsBeginMarker(l) || IsEndMarker(l))
    ensures CommentsOnly(l, false) && CommentsOnly(l + "\n", false)
  {
    hide CommentsOnly, Trim;
    IdleLine(l, "");
    assert l + "\n" + "" == l + "\n";
    NothingIsComment();
  }

  /** A kept statement that begins with a marker line has more lines, and not only comments in them. */
  lemma MoreThanMarker(t: string) returns (l: string, u: string)
    requires !IsEmptyStatement(t) && (IsBeginMarker(FirstLine(t)) || IsEndMarker(FirstLine(t)))
    ensures l == FirstLine(t) && t == (l + "\n") + u && !CommentsOnly(u, false)
    ensures CommentsOnly(l + "\n", false)
  {
    hide IsBeginMarker, IsEndMarker, CommentsOnly, IsOnlyComments, FirstLine;
    l := FirstLine(t);
    MarkerIsComment(l);
    OnlyCommentsExactly(t);
    assert l != t;
    u := t[|l| + 1..];
    assert t == (l + "\n") + u;
    if CommentsOnly(u, false) {
      CommentsConcat(l + "\n", u, false);
    }
  }

  /** After a marker line and comments, the rest of a statement reads as at the start of a script. */
  lemma ReadsOn(t: string, cut: bool, p: string, y: string)
    requires CameOut(t, cut) && t == p + y && p != "" && p[|p| - 1] == '\n' && CommentsOnly(p, false) && y != ""
    ensures IsOne(y, START, cut) && NoInnerBegin(t)
  {
    hide IsOne, CommentsOnly, NoInnerBegin, IsEmptyStatement;
    var look :| ReadFrom(t, look, cut);
    SkipComments(p, y, Normal(look), cut);
  }

  // ---------------------------------------------------------------------------------------------
  // A statement that begins with the begin marker opens a block

  lemma JoinedNotEmpty(y: string, ts: seq<string>)
    ensures y != "" ==> Joined(y, ts) != ""
  {
  }

  /** Comments that do not cover all of u end within it. */
  lemma EndsWithin(u: string, ts: seq<string>, be: string, rest: string) returns (y: string)
    requires Joined(u, ts) == be + rest && CommentsOnly(be, false) && !CommentsOnly(u, false)
    ensures u == be + y && y != "" && rest == Joined(y, ts)
  {
    hide CommentsOnly, JoinLines;
    var r := Joined(u, ts);
    assert be == r[..|be|] && u == r[..|u|] && rest == r[|be|..];
    assert be != u;
    if |be| > |u| {
      var b := be[|u| + 1..];
      assert be == u + ("\n" + b);
      CommentsPrefix(u, b, false);
    }
    y := u[|be|..];
    assert u == be + y;
    assert ts != [] ==> r == be + (y + ("\n" + JoinLines(ts)));
  }

  /** The block ends in the same statement, after nothing but comments. */
  lemma CommentBlock(t: string, cut: bool, l: string, u: string, ts: seq<string>,
                     body: string, end: string, rest: string)
    requires CameOut(t, cut) && (ts != [] ==> cut)
    requires t == (l + "\n") + u && CommentsOnly(l + "\n", false) && !CommentsOnly(u, false)
    requires Joined(u, ts) == body + (end + rest) && (body == "" || body[|body| - 1] == '\n')
    requires CommentsOnly(body, false)
    requires var e := FirstLine(end + rest); IsEndMarker(e) && (end == e + "\n" || (end == e && rest == ""))
    requires !Lex(JoinLines(ts), START).final.Manual? ==> StartsWell(Lex(JoinLines(ts), START).segs)
    ensures !Lex(rest, START).final.Manual? ==> StartsWell(Lex(rest, START).segs)
  {
    hide Lex, CameOut, IsOne, IsBeginMarker, IsEndMarker, NoInnerBegin, JoinLines, CommentsOnly, StartsWell,
      FirstLine, Joined;
    var be, e := body + end, FirstLine(end + rest);
    MarkerIsComment(e);
    CommentsConcat(body, end, false);
    assert Joined(u, ts) == be + rest;
    var y := EndsWithin(u, ts, be, rest);
    JoinedNotEmpty(y, ts);
    assert end == e + "\n";
    var p := (l + "\n") + be;
    CommentsConcat(l + "\n", be, false);
    assert t == p + y && be[|be| - 1] == '\n' && p[|p| - 1] == '\n';
    ReadsOn(t, cut, p, y);
    AfterTail(t, p, y, cut, ts);
  }

  /** A text that is blank without being comments has white space and then a semicolon. */
  lemma BlankBody(body: string) returns (w: string, z: string)
    requires IsBlank(Trim(body)) && !CommentsOnly(body, false)
    ensures AllSpace(w) && body == w + (";" + z)
    ensures forall c :: c in body && !IsSpace(c) ==> c == ';'
  {
    hide Trim, CommentsOnly;
    var t := Trim(body);
    var v;
    w, v := TrimParts(body);
    TrimmedComments(body);
    NothingIsComment();
    assert t != "";
    assert t[0] == ';';
    z := t[1..] + v;
    assert body == w + (";" + z);
    assert forall c :: c in body ==> c in w || c in t || c in v;
    assert forall c :: c in w || c in v ==> IsSpace(c);
  }

  lemma EmptyOnes()
    ensures IsEmptyStatement("") && IsEmptyStatement(";")
  {
  }

  lemma NotSemicolon(t: string, cut: bool)
    requires CameOut(t, cut)
    ensures t != "" && t[0] != ';'
  {
    hide IsOne, NoInnerBegin;
    EmptyOnes();
    var look :| ReadFrom(t, look, cut);
    if t != "" && t[0] == ';' {
      assert t == ";" + t[1..];
      OnlySemicolon(t[1..], look, cut);
    }
  }

  /** After white space and a semicolon, there is nothing left of the statement, and the block goes on. */
  lemma SemicolonEnds(t: string, cut: bool, l: string, u: string, w: string)
    requires CameOut(t, cut) && t == (l + "\n") + u && CommentsOnly(l + "\n", false)
    requires AllSpace(w) && |w| < |u| && u[..|w|] == w && u[|w|] == ';'
    ensures u == w + ";"
  {
    hide IsOne, CommentsOnly, CameOut;
    ReadsOn(t, cut, l + "\n", u);
    var z := u[|w| + 1..];
    assert u == w + (";" + z);
    DropLeft(w, ";" + z, LineStart, cut);
    OnlySemicolon(z, LookAfter(w, LineStart), cut);
  }

  lemma SpaceIsComment(u: string)
    requires AllSpace(u)
    ensures CommentsOnly(u, false)
  {
    SpaceHead(u, "");
    assert u + "" == u;
  }

  lemma MarkerNotEmpty(e: string)
    requires IsEndMarker(e)
    ensures e != ""
  {
  }

  lemma ReachesNext(u: string, j: string, body: string, more: string)
    requires (u + "\n") + j == body + more && j != ""
    ensures |body| > |u| + 1 ==> j[0] in body
  {
    var r := body + more;
    assert |body| > |u| + 1 ==> body[|u| + 1] == r[|u| + 1] == j[0];
  }

  /** What a joined list begins with is neither white space nor a semicolon. */
  lemma NextLine(ts: seq<string>)
    requires ts != [] && AllCameOut(ts)
    ensures var j := JoinLines(ts); j != "" && j[0] == ts[0][0] && !IsSpace(j[0]) && j[0] != ';'
    ensures FirstLine(JoinLines(ts)) == FirstLine(ts[0])
  {
    hide JoinLines, FirstLine, AllCameOut;
    var cut := HeadCut(ts);
    NotSemicolon(ts[0], cut);
    JoinCons(ts);
    if |ts| > 1 {
      FirstOfJoin(ts[0], JoinLines(ts[1..]));
    }
  }

  lemma BlockIsOneLine(t: string, cut: bool, l: string, u: string, ts: seq<string>,
                       body: string, end: string, rest: string)
    requires CameOut(t, cut) && AllCameOut(ts)
    requires t == (l + "\n") + u && CommentsOnly(l + "\n", false) && !CommentsOnly(u, false)
    requires Joined(u, ts) == body + (end + rest) && (body == "" || body[|body| - 1] == '\n')
    requires IsBlank(Trim(body)) && !CommentsOnly(body, false) && end != ""
    ensures ts != [] && end + rest == JoinLines(ts)
  {
    hide CameOut, CommentsOnly, Trim, IsBlank, JoinLines, AllCameOut;
    var r := Joined(u, ts);
    var w, z := BlankBody(body);
    var q := |w|;
    assert forall i :: 0 <= i < |body| ==> r[i] == body[i];
    assert forall i :: 0 <= i < |u| ==> r[i] == u[i];
    assert body[..q] == w && body[q] == ';';
    if |u| <= q {
      assert u == w[..|u|];
      SpaceIsComment(u);
    }
    assert u[..q] == w;
    SemicolonEnds(t, cut, l, u, w);
    assert |body| >= |u| && r == u + r[|u|..];
    if ts != [] {
      var j := JoinLines(ts);
      assert body[|u| - 1] == ';';
      assert r == (u + "\n") + j;
      NextLine(ts);
      ReachesNext(u, j, body, end + rest);
      assert |body| == |u| + 1;
      assert r[|body|..] == j;
    }
  }

  lemma NothingStarts()
    ensures StartsWell(Lex(JoinLines([]), START).segs)
  {
  }

  lemma JoinAfterLine(ts: seq<string>, e: string, u: string)
    requires ts != [] && ts[0] == (e + "\n") + u
    ensures JoinLines(ts) == (e + "\n") + Joined(u, ts[1..])
  {
    hide JoinLines;
    JoinCons(ts);
  }

  lemma NotDropped(ts: seq<string>)
    requires AllCameOut(ts)
    ensures ts != [] ==> !IsEmptyStatement(ts[0])
  {
    if ts != [] {
      var _ := HeadCut(ts);
    }
  }

  lemma EndLine(e: string, end: string, rest: string, more: string)
    requires end + rest == (e + "\n") + more && (end == e + "\n" || (end == e && rest == ""))
    ensures end == e + "\n" && rest == more
  {
    assert (end + rest)[|end|..] == rest;
    assert |end| == |e| + 1 ==> ((e + "\n") + more)[|end|..] == more;
  }

  /** The block runs on into the next statement, which begins with the end marker. */
  lemma SemicolonBlock(t: string, cut: bool, l: string, u: string, ts: seq<string>,
                       body: string, end: string, rest: string)
    requires CameOut(t, cut) && AllCameOut(ts)
    requires t == (l + "\n") + u && CommentsOnly(l + "\n", false) && !CommentsOnly(u, false)
    requires Joined(u, ts) == body + (end + rest) && (body == "" || body[|body| - 1] == '\n')
    requires IsBlank(Trim(body)) && !CommentsOnly(body, false)
    requires var e := FirstLine(end + rest); IsEndMarker(e) && (end == e + "\n" || (end == e && rest == ""))
    requires |ts| > 1 && !Lex(JoinLines(ts[1..]), START).final.Manual? ==> StartsWell(Lex(JoinLines(ts[1..]), START).segs)
    ensures !Lex(rest, START).final.Manual? ==> StartsWell(Lex(rest, START).segs)
  {
    hide Lex, CameOut, IsEmptyStatement, IsOne, IsBeginMarker, IsEndMarker, NoInnerBegin, JoinLines, CommentsOnly,
      StartsWell, FirstLine, Trim, IsBlank, AllCameOut;
    NotDropped(ts);
    MarkerNotEmpty(FirstLine(end + rest));
    BlockIsOneLine(t, cut, l, u, ts, body, end, rest);
    var cut1 := HeadCut(ts);
    NextLine(ts);
    var e, u1 := MoreThanMarker(ts[0]);
    JoinAfterLine(ts, e, u1);
    EndLine(e, end, rest, Joined(u1, ts[1..]));
    NothingIsComment();
    ReadsOn(ts[0], cut1, e + "\n", u1);
    NothingStarts();
    AfterTail(ts[0], e + "\n", u1, cut1, ts[1..]);
  }

  /** After the opening marker line, the lexer reads the rest as a block. */
  lemma OpensBlock(s: string, l: string, r: string)
    requires s == (l + "\n") + r && l == FirstLine(s) && IsBeginMarker(l)
    ensures Lex(s, START).segs == [Segment("", false)] + Lex(r, Manual).segs
    ensures Lex(s, START).final == Lex(r, Manual).final
    ensures Kept(Lex(s, START).segs) == Kept(Lex(r, Manual).segs)
  {
    hide IsBeginMarker, Lex, FirstLine, Kept, IsEmptyStatement;
    LexHead(s, START);
    LexTexts(s, START);
    assert Step(s, START) == Token(|l| + 1, Manual, Open);
    assert s[|l| + 1..] == r;
    BlankIsEmpty();
    KeptSingle(Segment("", false));
    KeptAppend([Segment("", false)], Lex(r, Manual).segs);
  }

  lemma SpaceWithin(u: string, ts: seq<string>, body: string, more: string, i: nat)
    requires Joined(u, ts) == body + more && i <= |body| && AllSpace(body[..i])
    ensures i >= |u| ==> CommentsOnly(u, false)
  {
    hide JoinLines, CommentsOnly;
    if i >= |u| {
      var r := Joined(u, ts);
      assert forall k :: 0 <= k < |u| ==> u[k] == r[k] == body[..i][k];
      SpaceIsComment(u);
    }
  }

  lemma LineOfJoin(u: string, ts: seq<string>, i: nat)
    requires i < |u|
    ensures FirstLine(Joined(u, ts)[i..]) == FirstLine(u[i..])
  {
    hide FirstLine, JoinLines;
    if ts != [] {
      assert Joined(u, ts)[i..] == u[i..] + ("\n" + JoinLines(ts));
      FirstOfJoin(u[i..], JoinLines(ts));
    } else {
      assert Joined(u, ts)[i..] == u[i..];
    }
  }

  lemma LineOfBlock(r: string, body: string, more: string, i: nat)
    requires r == body + more && i < |body| && body[|body| - 1] == '\n'
    ensures FirstLine(r[i..]) == FirstLine(body[i..])
  {
    hide FirstLine;
    var b := body[i..];
    var l := FirstLine(b);
    assert r[i..] == b + more;
    assert b[|b| - 1] == '\n';
    assert |l| < |b|;
    FirstLineUnique(l, b + more);
  }

  /** The first text in a block is not a begin marker: the lines up to it are inner lines of the statement. */
  lemma BodyStartsWell(t: string, l: string, u: string, ts: seq<string>, body: string, more: string)
    requires NoInnerBegin(t) && t == (l + "\n") + u && !CommentsOnly(u, false)
    requires Joined(u, ts) == body + more && (body == "" || body[|body| - 1] == '\n')
    ensures !IsBeginMarker(FirstLine(Trim(body)))
  {
    hide IsBeginMarker, FirstLine, Trim, CommentsOnly, JoinLines;
    var r := Joined(u, ts);
    forall i | 0 <= i <= |body| && (i == 0 || body[i - 1] == '\n') && AllSpace(body[..i])
      ensures !IsBeginMarker(FirstLine(body[i..]))
    {
      if i == |body| {
        NotMarker("");
      } else {
        SpaceWithin(u, ts, body, more, i);
        LineOfJoin(u, ts, i);
        LineOfBlock(r, body, more, i);
        var k := |l| + 1 + i;
        assert t[k..] == u[i..];
        assert i > 0 ==> r[i - 1] == body[i - 1] == u[i - 1] == t[k - 1];
      }
    }
    TrimNoBegin(body);
  }

  lemma KeptOfBlock(body: string, segs: seq<Segment>)
    ensures Kept([Segment(body, true)] + segs)
            == (if IsEmptyStatement(Trim(body)) then [] else [Trim(body)]) + Kept(segs)
  {
    hide IsEmptyStatement, Trim, Kept;
    KeptSingle(Segment(body, true));
    KeptAppend([Segment(body, true)], segs);
  }

  /** A list whose first statement begins with the begin marker. */
  lemma BlockFirst(ts: seq<string>)
    requires ts != [] && AllCameOut(ts) && LinesFit(JoinLines(ts)) && IsBeginMarker(FirstLine(ts[0]))
    requires !Lex(JoinLines(ts[1..]), START).final.Manual? ==> StartsWell(Lex(JoinLines(ts[1..]), START).segs)
    requires |ts| > 1 && !Lex(JoinLines(ts[2..]), START).final.Manual? ==> StartsWell(Lex(JoinLines(ts[2..]), START).segs)
    ensures !Lex(JoinLines(ts), START).final.Manual? ==> StartsWell(Lex(JoinLines(ts), START).segs)
  {
    hide Lex, IsEmptyStatement, IsOne, IsBeginMarker, IsEndMarker, NoInnerBegin, JoinLines, CommentsOnly, Kept,
      FirstLine, Trim, IsBlank, AllCameOut, LinesFit, IsTrimmed;
    var j := JoinLines(ts);
    if Lex(j, START).final.Manual? {
      return;
    }
    var cut := HeadCut(ts);
    var l, u := MoreThanMarker(ts[0]);
    var rest0 := ts[1..];
    JoinCons(ts);
    NextLine(ts);
    var r := Joined(u, rest0);
    assert j == (l + "\n") + r;
    OpensBlock(j, l, r);
    var body, end, rest := ManualBlock(r);
    KeptOfBlock(body, Lex(rest, START).segs);
    BodyStartsWell(ts[0], l, u, rest0, body, end + rest);
    if IsEmptyStatement(Trim(body)) {
      AllCameOutTail(ts);
      var a := |l| + 1;
      assert j[a..a + |body|] == body;
      DroppedMeans(j, a, a + |body|);
      if CommentsOnly(body, false) {
        CommentBlock(ts[0], cut, l, u, rest0, body, end, rest);
      } else {
        assert |ts| > 1 ==> rest0[1..] == ts[2..];
        SemicolonBlock(ts[0], cut, l, u, rest0, body, end, rest);
      }
    }
  }

  // ---------------------------------------------------------------------------------------------
  // Other statements

  /** Unless it begins with the marker or with an escape string, a statement reads the same at the start of a script. */
  lemma ReadsAtStart(t: string, cut: bool)
    requires CameOut(t, cut) && !IsBeginMarker(FirstLine(t)) && !OpensWithEscapeString(t)
    ensures IsOne(t, START, cut)
  {
    hide IsOne, IsBeginMarker, FirstLine, IsEmptyStatement, NoInnerBegin;
    EmptyOnes();
    var look :| ReadFrom(t, look, cut);
    FreshStart(t, look, cut);
  }

  lemma HeadOfPadded(w: string, u: string)
    requires AllSpace(w)
    ensures w == "" || IsSpace((w + u)[0])
  {
  }

  lemma NotAllSpace(t: string, v: string, c: char)
    requires AllSpace(v) && t + v != "" && (t + v)[0] == c && !IsSpace(c)
    ensures t != "" && t[0] == c
  {
    assert t == "" ==> t + v == v;
  }

  lemma LetterTrimmed(x: string)
    requires x != "" && !IsSpace(x[0])
    ensures Trim(x) != "" && Trim(x)[0] == x[0]
  {
    hide TrimRight;
    assert TrimLeft(x) == x;
    var v := TrailingSpace(x);
    assert x == TrimRight(x) + v;
    NotAllSpace(TrimRight(x), v, x[0]);
  }

  lemma LetterIsNoComment(x: string)
    requires x != "" && x[0] in {'E', 'e'}
    ensures !CommentsOnly(x, false)
  {
  }

  /** Text that begins with a letter is kept. */
  lemma LetterKept(x: string)
    requires x != "" && x[0] in {'E', 'e'} && LinesFit(x)
    ensures !IsEmptyStatement(Trim(x)) && Trim(x) != "" && Trim(x)[0] == x[0]
  {
    hide LinesFit, Trim, CommentsOnly, IsOnlyComments;
    LetterTrimmed(x);
    LetterIsNoComment(x);
    DroppedMeans(x, 0, |x|);
    assert x[0..|x|] == x;
  }

  lemma EscapeToken(j: string)
    requires OpensWithEscapeString(j)
    ensures Step(j, START) == Token(1, Normal(LoneE), Keep)
  {
    hide FirstLine, IsBeginMarker, MatchTag;
    NotAMarker(j);
  }

  /** A list whose first statement begins with an escape string splits into one that begins so, too. */
  lemma EscapeFirst(j: string)
    requires OpensWithEscapeString(j) && LinesFit(j)
    ensures var segs := Lex(j, START).segs;
            var x := segs[0].text;
            && x <= j && x != "" && !IsEmptyStatement(Trim(x)) && Trim(x) != "" && Trim(x)[0] == x[0] == j[0]
            && Kept(segs) == [Trim(x)] + Kept(segs[1..])
  {
    hide Lex, IsOne, LinesFit, IsEmptyStatement, Trim, NoMarkers;
    var segs := Lex(j, START).segs;
    var cut := FirstSegment(j, START);
    var x := segs[0].text;
    EscapeToken(j);
    LexHead(j, START);
    assert x != "";
    assert x == j[0..|x|];
    LinesFitSlice(j, 0, |x|);
    LetterKept(x);
  }

  lemma KeptTrimmed(t: string)
    requires IsTrimmed(t) && !IsEmptyStatement(t)
    ensures Kept([Segment(t, false)]) == [t]
  {
    hide IsEmptyStatement, Trim;
    TrimTrimmed(t);
    KeptSingle(Segment(t, false));
  }

  lemma JoinTailFits(ts: seq<string>)
    requires ts != [] && LinesFit(JoinLines(ts))
    ensures LinesFit(JoinLines(ts[1..]))
  {
    hide LinesFit, JoinLines;
    JoinCons(ts);
    var j := JoinLines(ts);
    if |ts| > 1 {
      var a := |ts[0]| + 1;
      assert j[a..|j|] == JoinLines(ts[1..]);
      LinesFitSlice(j, a, |j|);
    } else {
      assert ts[1..] == [];
      NothingFits();
    }
  }

  lemma {:induction false} NeverMarkerFirst(ts: seq<string>)
    requires AllCameOut(ts) && LinesFit(JoinLines(ts))
    ensures !Lex(JoinLines(ts), START).final.Manual? ==> StartsWell(Lex(JoinLines(ts), START).segs)
    decreases |ts|
  {
    hide Lex, IsOne, LinesFit, IsEmptyStatement, Trim, AllCameOut, JoinLines, FirstLine, IsBeginMarker, Kept;
    if ts == [] {
      NothingStarts();
      return;
    }
    var j, t := JoinLines(ts), ts[0];
    var cut := HeadCut(ts);
    JoinCons(ts);
    if IsBeginMarker(FirstLine(t)) {
      AllCameOutTail(ts);
      JoinTailFits(ts);
      NeverMarkerFirst(ts[1..]);
      if |ts| > 1 {
        AllCameOutTail(ts[1..]);
        JoinTailFits(ts[1..]);
        assert ts[1..][1..] == ts[2..];
        NeverMarkerFirst(ts[2..]);
      }
      BlockFirst(ts);
    } else if OpensWithEscapeString(t) {
      EscapeFirst(j);
      NotAMarker(Trim(Lex(j, START).segs[0].text));
    } else {
      ReadsAtStart(t, cut);
      KeptTrimmed(t);
      if |ts| > 1 {
        ConsSegs(t, JoinLines(ts[1..]));
      } else {
        KeptOfOne(t, cut);
      }
    }
  }

  // ---------------------------------------------------------------------------------------------
  // The converse

  lemma OpenIsMarker(s: string, m: Mode)
    requires s != "" && !m.Manual? && Step(s, m).event == Open
    ensures m == START && IsBeginMarker(FirstLine(s))
  {
    hide IsBeginMarker, FirstLine, MatchTag;
  }

  lemma OpenAfter(s: string, m: Mode)
    requires s != "" && !m.Manual?
    ensures Step(s, m).event == Keep && Step(s, m).mode == START ==> s[Step(s, m).len - 1] == '\n'
  {
    StepFacts(s, m);
  }

  lemma GlueParts(x: string, segs: seq<Segment>)
    requires segs != []
    ensures Glue(x, segs)[0].text == x + segs[0].text && Glue(x, segs)[1..] == segs[1..]
  {
  }

  lemma TailOfTail(s: string, n: nat, y: string)
    requires n <= |s| && y <= s[n..]
    ensures var x := s[..n] + y; x <= s && x[n..] == y && s[|x|..] == s[n..][|y|..]
  {
  }

  /** The first segment, and what is left after it, when the first token belongs to it. */
  lemma KeepSplit(s: string, m: Mode)
    requires s != "" && !m.Manual? && Clean(m) && Step(s, m).event == Keep
    ensures var t, x := Step(s, m), Lex(s, m).segs[0].text;
            var r := s[t.len..];
            var y := Lex(r, t.mode).segs[0].text;
            && x != "" && x <= s && Step(x, m) == t && x[t.len..] == y && x == s[..t.len] + y
            && s[|x|..] == r[|y|..] && Lex(s, m).segs[1..] == Lex(r, t.mode).segs[1..]
            && |Lex(s, m).segs| == |Lex(r, t.mode).segs| && Lex(s, m).final == Lex(r, t.mode).final
            && !t.mode.Manual? && Clean(t.mode)
  {
    hide Lex, Step, IsOne, NoMarkers, Glue, Texts, Clean;
    var t := Step(s, m);
    var r := s[t.len..];
    StepFacts(s, m);
    StepClean(s, m);
    LexHead(s, m);
    LexTexts(s, m);
    var y := Lex(r, t.mode).segs[0].text;
    GlueParts(s[..t.len], Lex(r, t.mode).segs);
    var _ := FirstSegment(s, m);
    var _ := FirstSegment(r, t.mode);
    TailOfTail(s, t.len, y);
    var x := s[..t.len] + y;
    assert x != "";
    StepPrefix(s, |x|, m);
    assert s[..|x|] == x;
  }

  /** A semicolon that cuts the input ends its first segment with a boundary. */
  lemma CutIsOne(s: string, m: Mode)
    requires s != "" && !m.Manual? && Clean(m) && Step(s, m).event == Cut
    ensures !IsOne(Lex(s, m).segs[0].text, m, false)
  {
    hide Lex, Step, IsOne;
    StepFacts(s, m);
    LexHead(s, m);
    StepPrefix(s, 1, m);
    assert s[..1] == ";";
    OneCut(";", m);
    OneCutOnly(";", m);
  }

  /** A first segment that neither a boundary nor the end of the input ends is followed by a begin marker line. */
  lemma {:induction false} FirstOpen(s: string, m: Mode)
    requires !m.Manual? && Clean(m) && |Lex(s, m).segs| > 1 && IsOne(Lex(s, m).segs[0].text, m, false)
    ensures var x := Lex(s, m).segs[0].text;
            && x <= s && (if x == "" then m == START else x[|x| - 1] == '\n')
            && IsBeginMarker(FirstLine(s[|x|..])) && Lex(s, m).final == Lex(s[|x|..], START).final
            && Lex(s, m).segs[1..] == Lex(s[|x|..], START).segs[1..]
    decreases |s|
  {
    hide Lex, Step, IsOne, IsBeginMarker, FirstLine, Clean;
    if s == "" {
      EmptyLex(m);
      return;
    }
    var t := Step(s, m);
    StepFacts(s, m);
    match t.event {
      case Open =>
        LexHead(s, m);
        OpenIsMarker(s, m);
        assert s[0..] == s;
      case Cut =>
        CutIsOne(s, m);
      case Keep =>
        KeepSplit(s, m);
        var x := Lex(s, m).segs[0].text;
        TailOne(x, m, false);
        FirstOpen(s[t.len..], t.mode);
        OpenAfter(s, m);
    }
  }

  lemma JoinOpens(ts: seq<string>)
    requires ts != [] && OpensWithEscapeString(ts[0])
    ensures OpensWithEscapeString(JoinLines(ts))
  {
    hide JoinLines;
    JoinCons(ts);
  }

  /** Of a text that begins as its trimmed part does, only the end is trimmed. */
  lemma OnlyTrailing(x: string) returns (v: string)
    requires x != "" && Trim(x) != "" && Trim(x)[0] == x[0]
    ensures x == Trim(x) + v && AllSpace(v)
  {
    hide Trim;
    var w;
    w, v := TrimParts(x);
    assert x == w + (Trim(x) + v);
    HeadOfPadded(w, Trim(x) + v);
  }

  lemma NoneKept()
    ensures Kept([]) == []
  {
  }

  /** The white space between two statements of a joined list that a line feed ends is that line feed. */
  lemma WhiteGap(t: string, v: string, k: string, x: string, j: string)
    requires j == t + ("\n" + k) && x == t + v && x <= j && AllSpace(v) && t != ""
    requires k != "" && !IsSpace(k[0]) && x[|x| - 1] == '\n' && (v == "" ==> !IsSpace(t[|t| - 1]))
    ensures v == "\n" && j[|x|..] == k
  {
    assert j[|t|] == '\n' && j[|t| + 1] == k[0];
    assert forall i :: 0 <= i < |v| ==> v[i] == j[|t| + i];
  }

  lemma MarkerNotBlank(k: string)
    requires IsBeginMarker(FirstLine(k))
    ensures k != ""
  {
    NotMarker("");
  }

  /** The segments after an opening marker line. */
  lemma OpenLosesLine(k: string)
    requires IsBeginMarker(FirstLine(k))
    ensures Kept(Lex(k, START).segs) == Kept(Lex(k, START).segs[1..])
  {
    hide IsBeginMarker, FirstLine, IsEmptyStatement, Trim;
    MarkerNotBlank(k);
    LexHead(k, START);
    BlankIsEmpty();
    assert Lex(k, START).segs[0].text == "";
  }

  /** Then the statement that follows would begin with a begin marker. */
  lemma NextWouldOpen(ts: seq<string>, v: string)
    requires |ts| > 1 && AllCameOut(ts) && LinesFit(JoinLines(ts)) && AllSpace(v)
    requires !Lex(JoinLines(ts), START).final.Manual? && Kept(Lex(JoinLines(ts), START).segs) == ts
    requires Lex(JoinLines(ts), START).segs[0].text == ts[0] + v && ts[0] != "" && IsOne(ts[0] + v, START, false)
    requires Kept(Lex(JoinLines(ts), START).segs) == [ts[0]] + Kept(Lex(JoinLines(ts), START).segs[1..])
    ensures IsBeginMarker(FirstLine(ts[1])) && !Lex(JoinLines(ts[1..]), START).final.Manual?
    ensures Kept(Lex(JoinLines(ts[1..]), START).segs) == ts[1..]
    ensures AllCameOut(ts[1..]) && LinesFit(JoinLines(ts[1..]))
  {
    hide Lex, IsOne, LinesFit, IsEmptyStatement, Trim, AllCameOut, JoinLines, FirstLine, IsBeginMarker, Kept, StartsWell;
    var j, x, k := JoinLines(ts), ts[0] + v, JoinLines(ts[1..]);
    var segs := Lex(j, START).segs;
    NoneKept();
    assert segs[1..] != [];
    FirstOpen(j, START);
    JoinCons(ts);
    var _ := HeadCut(ts);
    AllCameOutTail(ts);
    NextLine(ts[1..]);
    var r := j[|x|..];
    assert v == "\n" && r == k by {
      WhiteGap(ts[0], v, k, x, j);
    }
    OpenLosesLine(k);
    JoinTailFits(ts);
  }

  lemma HeadOfKept(segs: seq<Segment>, ts: seq<string>)
    requires ts != [] && Kept(segs) == ts && StartsWell(segs)
    ensures !IsBeginMarker(FirstLine(ts[0]))
  {
  }

  lemma NextNeverOpens(ts: seq<string>)
    requires ts != [] && AllCameOut(ts) && LinesFit(JoinLines(ts))
    requires !Lex(JoinLines(ts), START).final.Manual? && Kept(Lex(JoinLines(ts), START).segs) == ts
    ensures !IsBeginMarker(FirstLine(ts[0]))
  {
    hide Lex, LinesFit, AllCameOut, JoinLines, FirstLine, IsBeginMarker, Kept, StartsWell;
    NeverMarkerFirst(ts);
    HeadOfKept(Lex(JoinLines(ts), START).segs, ts);
  }

  lemma NotOpenedNext(ts: seq<string>, v: string)
    requires |ts| > 1 && AllCameOut(ts) && LinesFit(JoinLines(ts)) && AllSpace(v)
    requires !Lex(JoinLines(ts), START).final.Manual?
    requires Lex(JoinLines(ts), START).segs[0].text == ts[0] + v && ts[0] != "" && IsOne(ts[0] + v, START, false)
    requires Kept(Lex(JoinLines(ts), START).segs) == [ts[0]] + Kept(Lex(JoinLines(ts), START).segs[1..])
    ensures Kept(Lex(JoinLines(ts), START).segs) != ts
  {
    if Kept(Lex(JoinLines(ts), START).segs) == ts {
      NextWouldOpen(ts, v);
      NextNeverOpens(ts[1..]);
    }
  }

  lemma CameOutStands(t: string, cut: bool, c: bool)
    requires CameOut(t, cut) && IsOne(t, START, c)
    ensures StandsAlone(t, c)
  {
  }

  /** The head of a list that comes back, when it begins with an escape string, stands alone. */
  lemma EscapeStands(ts: seq<string>)
    requires ts != [] && AllCameOut(ts) && LinesFit(JoinLines(ts)) && OpensWithEscapeString(ts[0])
    requires !Lex(JoinLines(ts), START).final.Manual? && Kept(Lex(JoinLines(ts), START).segs) == ts
    ensures StandsAlone(ts[0], true) || (|ts| == 1 && StandsAlone(ts[0], false))
  {
    hide Lex, IsOne, LinesFit, IsEmptyStatement, Trim, AllCameOut, CameOut, JoinLines, FirstLine, IsBeginMarker, Kept,
      NoMarkers, OpensWithEscapeString, StandsAlone;
    var j, t := JoinLines(ts), ts[0];
    var cut := HeadCut(ts);
    JoinOpens(ts);
    EscapeFirst(j);
    var c := FirstSegment(j, START);
    var x := Lex(j, START).segs[0].text;
    assert Trim(x) == t;
    var v := OnlyTrailing(x);
    if c {
      CutLeavesNoSpace(t, v);
      CameOutStands(t, cut, true);
    } else {
      DropRight(t, v, START);
      CameOutStands(t, cut, false);
      if |ts| > 1 {
        NotOpenedNext(ts, v);
      }
    }
  }

  lemma NoneChained(ts: seq<string>)
    requires ts == []
    ensures Chain(ts)
  {
  }

  lemma StandsRead(t: string)
    ensures StandsAlone(t, true) ==> IsOne(t, START, true) && Kept([Segment(t, false)]) == [t]
  {
    hide IsEmptyStatement, Kept, IsOne;
    if StandsAlone(t, true) {
      KeptTrimmed(t);
    }
  }

  lemma {:induction false} ListBack(ts: seq<string>)
    requires AllCameOut(ts) && LinesFit(JoinLines(ts))
    requires !Lex(JoinLines(ts), START).final.Manual? && Kept(Lex(JoinLines(ts), START).segs) == ts
    ensures Chain(ts)
    decreases |ts|
  {
    hide Lex, IsOne, LinesFit, IsEmptyStatement, Trim, AllCameOut, JoinLines, FirstLine, IsBeginMarker, Kept, StartsWell,
      StandsAlone;
    if ts == [] {
      return;
    }
    var j, t := JoinLines(ts), ts[0];
    var cut := HeadCut(ts);
    JoinCons(ts);
    NeverMarkerFirst(ts);
    HeadOfKept(Lex(j, START).segs, ts);
    if OpensWithEscapeString(t) {
      EscapeStands(ts);
    } else {
      ReadsAtStart(t, cut);
      CameOutStands(t, cut, cut);
    }
    if |ts| > 1 {
      StandsRead(t);
      ConsSegs(t, JoinLines(ts[1..]));
      AllCameOutTail(ts);
      JoinTailFits(ts);
      assert ts == [t] + ts[1..];
      ListBack(ts[1..]);
    } else {
      NoneChained(ts[1..]);
    }
  }

  /** Statements that stand alone stayed whole. */
  lemma HeadStaysWhole(x: string, cut: bool, more: bool)
    requires StandsAlone(Trim(x), cut) && (more ==> cut)
    ensures StaysWhole(Segment(x, false), more)
  {
    hide IsOne, HasNoBreak, EndsInBoundary, Trim, FirstLine, IsBeginMarker, MasksEscape, IsEmptyStatement;
    var t := Trim(x);
    OneIsNoMarker(t, cut);
    if MasksEscape(x) {
      MaskedOpens(x);
      MaskedIsOne(t, cut);
      OneExactly(t[2..], Single(true), cut);
    }
  }

  lemma DroppedStaysWhole(seg: Segment, more: bool)
    requires IsEmptyStatement(Trim(seg.text))
    ensures StaysWhole(seg, more)
  {
  }

  lemma {:induction false} ChainStaysWhole(segs: seq<Segment>)
    requires Chain(Kept(segs)) && forall i :: 0 <= i < |segs| ==> !segs[i].manual
    ensures AllStayWhole(segs)
  {
    hide StaysWhole, StandsAlone, IsEmptyStatement, Trim;
    if segs != [] {
      var rest, x := segs[1..], segs[0].text;
      var ts := Kept(segs);
      assert segs[0] == Segment(x, false);
      if IsEmptyStatement(Trim(x)) {
        assert ts == Kept(rest);
        DroppedStaysWhole(segs[0], Kept(rest) != []);
      } else {
        assert ts == [Trim(x)] + Kept(rest) && ts[1..] == Kept(rest);
        var cut := StandsAlone(Trim(x), true);
        HeadStaysWhole(x, cut, Kept(rest) != []);
        if |ts| == 1 {
          NoneChained(ts[1..]);
        }
      }
      ChainStaysWhole(rest);
      forall k | 0 <= k < |segs|
        ensures StaysWhole(segs[k], Kept(segs[k + 1..]) != [])
      {
        if k > 0 {
          assert segs[k] == rest[k - 1] && segs[k + 1..] == rest[k - 1 + 1..];
        }
      }
    }
  }

  lemma {:induction false} NoManualSegments(s: string, m: Mode)
    requires NoMarkers(s, m)
    ensures forall i :: 0 <= i < |Lex(s, m).segs| ==> !Lex(s, m).segs[i].manual
    decreases |s|
  {
    hide Lex, Step, NoMarkers;
    NoMarkersMode(s, m);
    if s == "" {
      EmptyLex(m);
    } else {
      StepNoMarkers(s, m);
      LexHead(s, m);
      NoManualSegments(s[Step(s, m).len..], Step(s, m).mode);
    }
  }

  /**
   For a script without block markers, joining its statements with line feeds and splitting again gives the same
   list if and only if each statement stays whole.
   */
  lemma ResplitExactly(script: string)
    requires HasNoBeginLine(script) && LinesFit(script)
    ensures Statements(script).Success?
    ensures Statements(JoinLines(Statements(script).value)) == Statements(script)
            <==> AllStayWhole(Lex(script, START).segs)
  {
    hide AllStayWhole, Kept, Lex, LinesFit, AllCameOut;
    NoMarkersAtStart(script);
    LexPieces(script, START);
    var ts := Kept(Lex(script, START).segs);
    if Statements(JoinLines(ts)) == Statements(script) {
      SegmentsCameOut(script, START);
      StatementsFit(script);
      ListBack(ts);
      NoManualSegments(script, START);
      ChainStaysWhole(Lex(script, START).segs);
    }
    if AllStayWhole(Lex(script, START).segs) {
      ResplitIsIdentity(script);
    }
  }
}
