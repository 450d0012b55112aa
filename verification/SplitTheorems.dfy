/** What splitting guarantees, stated about the statements of a script as a whole. */
module SplitTheorems {
  import opened Text
  import opened Directives
  import opened Lexer

  // ---------------------------------------------------------------------------------------------
  // Boundaries: the script is cut after exactly the semicolons that the lexer reads as ordinary text

  /** The mode in which the lexer reads the character at index k, if a token starts there. */
  function ModeAt(s: string, m: Mode, k: nat): Option<Mode>
    requires k <= |s|
    decreases |s|
  {
    if k == 0 then Some(m)
    else
      var t := Step(s, m);
      if k < t.len then None else ModeAt(s[t.len..], t.mode, k - t.len)
  }

  predicate IsBoundary(s: string, m: Mode, k: nat)
    requires k < |s|
  {
    s[k] == ';' && ModeAt(s, m, k).Some? && ModeAt(s, m, k).value.Normal?
  }

  function Boundaries(s: string, m: Mode): (b: seq<bool>)
    ensures |b| == |s|
  {
    seq(|s|, k requires 0 <= k < |s| => IsBoundary(s, m, k))
  }

  /** s cut after every index that `after` marks. */
  function Pieces(s: string, after: seq<bool>): (r: seq<string>)
    requires |after| == |s|
    ensures r != []
  {
    if s == "" then [""]
    else
      var rest := Pieces(s[1..], after[1..]);
      if after[0] then [s[..1]] + rest else [s[..1] + rest[0]] + rest[1..]
  }

  function Texts(segs: seq<Segment>): (r: seq<string>)
    ensures |r| == |segs|
  {
    seq(|segs|, i requires 0 <= i < |segs| => segs[i].text)
  }

  lemma GlueTexts(x: string, segs: seq<Segment>)
    requires segs != []
    ensures Texts(Glue(x, segs)) == [x + Texts(segs)[0]] + Texts(segs)[1..]
  {
  }

  lemma ConsTexts(seg: Segment, segs: seq<Segment>)
    ensures Texts([seg] + segs) == [seg.text] + Texts(segs)
  {
  }

  /** The segments' texts, one token at a time. */
  lemma LexTexts(s: string, m: Mode)
    requires s != ""
    ensures var t := Step(s, m);
            var x, rest := s[..t.len], Texts(Lex(s[t.len..], t.mode).segs);
            && Lex(s, m).final == Lex(s[t.len..], t.mode).final
            && Texts(Lex(s, m).segs)
               == match t.event
                  case Keep => [x + rest[0]] + rest[1..]
                  case Cut => [x] + rest
                  case _ => [""] + rest
  {
    hide Step, Texts, Glue;
    var t := Step(s, m);
    var rest := Lex(s[t.len..], t.mode).segs;
    GlueTexts(s[..t.len], rest);
    ConsTexts(Segment(s[..t.len], false), rest);
    ConsTexts(Segment("", t.event == Close), rest);
  }

  lemma LexNothing(m: Mode)
    ensures Texts(Lex("", m).segs) == [""] && Lex("", m).final == m
  {
  }

  /** No line that the lexer will start reading as ordinary text from here on opens a manual block. */
  ghost predicate NoMarkers(s: string, m: Mode) {
    && !m.Manual?
    && (m == START ==> !IsBeginMarker(FirstLine(s)))
    && forall i :: 0 < i <= |s| && s[i - 1] == '\n' ==> !IsBeginMarker(FirstLine(s[i..]))
  }

  /** Where the lexer takes a line feed as the start of a fresh line, one was read. */
  lemma StepNoMarkers(s: string, m: Mode)
    requires s != "" && NoMarkers(s, m)
    ensures var t := Step(s, m);
            && t.event in {Keep, Cut} && NoMarkers(s[t.len..], t.mode)
            && (t.event == Cut <==> m.Normal? && s[0] == ';') && (t.event == Cut ==> t.len == 1)
  {
    hide IsBeginMarker, MatchTag;
    var t := Step(s, m);
    var r := s[t.len..];
    forall i | 0 < i <= |r| && r[i - 1] == '\n'
      ensures !IsBeginMarker(FirstLine(r[i..]))
    {
      assert r[i..] == s[t.len + i..] && s[t.len + i - 1] == '\n';
    }
    if t.mode == START {
      assert t.len == 1 && s[0] == '\n';
    }
  }

  lemma {:induction false} PiecesUncut(x: string, r: string, after: seq<bool>, rest: seq<bool>)
    requires |after| == |x| + |r| && |rest| == |r| && after[|x|..] == rest
    requires forall k :: 0 <= k < |x| ==> !after[k]
    ensures var p, q := Pieces(x + r, after), Pieces(r, rest);
            p == [x + q[0]] + q[1..]
  {
    if x == "" {
      assert x + r == r && after == rest;
      assert "" + Pieces(r, rest)[0] == Pieces(r, rest)[0];
    } else {
      assert (x + r)[1..] == x[1..] + r && (x + r)[..1] == x[..1];
      PiecesUncut(x[1..], r, after[1..], rest);
      assert x[..1] + (x[1..] + Pieces(r, rest)[0]) == x + Pieces(r, rest)[0];
    }
  }

  /** The boundaries of a script are those of its first token, then those of the rest. */
  lemma BoundariesStep(s: string, m: Mode)
    requires s != "" && NoMarkers(s, m)
    ensures var t := Step(s, m);
            && (Boundaries(s, m)[0] <==> t.event == Cut)
            && (forall k :: 0 < k < t.len ==> !Boundaries(s, m)[k])
            && Boundaries(s, m)[t.len..] == Boundaries(s[t.len..], t.mode)
  {
    hide Step, NoMarkers;
    StepNoMarkers(s, m);
    var t := Step(s, m);
    var r := s[t.len..];
    forall k | 0 <= k < |r|
      ensures Boundaries(s, m)[t.len + k] == Boundaries(r, t.mode)[k]
    {
      assert ModeAt(s, m, t.len + k) == ModeAt(r, t.mode, k) && s[t.len + k] == r[k];
    }
  }

  lemma NoMarkersMode(s: string, m: Mode)
    requires NoMarkers(s, m)
    ensures !m.Manual?
  {
  }

  lemma {:induction false} LexPieces(s: string, m: Mode)
    requires NoMarkers(s, m)
    ensures Texts(Lex(s, m).segs) == Pieces(s, Boundaries(s, m))
    ensures !Lex(s, m).final.Manual?
    decreases |s|
  {
    hide Step, NoMarkers, Boundaries, Lex, Texts;
    if s == "" {
      LexNothing(m);
      NoMarkersMode(s, m);
    } else {
      StepNoMarkers(s, m);
      BoundariesStep(s, m);
      LexTexts(s, m);
      var t := Step(s, m);
      var r := s[t.len..];
      LexPieces(r, t.mode);
      if t.event == Cut {
        assert s[1..] == r;
      } else {
        assert s == s[..t.len] + r;
        PiecesUncut(s[..t.len], r, Boundaries(s, m), Boundaries(r, t.mode));
      }
    }
  }

  ghost predicate HasNoBeginLine(script: string) {
    forall l :: l in Lines(script) ==> !IsBeginMarker(l)
  }

  lemma {:induction false} LineAt(s: string, i: nat)
    requires i <= |s| && (i == 0 || s[i - 1] == '\n')
    ensures FirstLine(s[i..]) in Lines(s)
    decreases |s|
  {
    hide FirstLine;
    var l := FirstLine(s);
    if i == 0 {
      assert s[0..] == s;
      assert Lines(s)[0] == l;
    } else {
      assert |l| < i;
      var rest := s[|l| + 1..];
      assert s[i..] == rest[i - |l| - 1..];
      assert i > |l| + 1 ==> rest[i - |l| - 2] == s[i - 1];
      LineAt(rest, i - |l| - 1);
      assert Lines(s) == [l] + Lines(rest);
    }
  }

  lemma NoMarkersAtStart(script: string)
    requires HasNoBeginLine(script)
    ensures NoMarkers(script, START)
  {
    hide IsBeginMarker;
    forall i: nat | i <= |script| && (i == 0 || script[i - 1] == '\n')
      ensures !IsBeginMarker(FirstLine(script[i..]))
    {
      LineAt(script, i);
    }
    assert script[0..] == script;
  }

  /** Without StatementBegin lines, the script is cut at its boundaries, and nowhere else. */
  lemma CutsExactlyAtBoundaries(script: string)
    requires HasNoBeginLine(script)
    ensures Texts(Lex(script, START).segs) == Pieces(script, Boundaries(script, START))
    ensures Statements(script) == Success(Kept(Lex(script, START).segs))
  {
    NoMarkersAtStart(script);
    LexPieces(script, START);
  }

  lemma LooseOneLine(a: string, b: string, name: string)
    requires '\n' !in a && '\n' !in b && name in {STATEMENT_BEGIN, STATEMENT_END}
    ensures '\n' !in LooseMarker(a, b, name)
  {
    var head := COMMENT_TOKEN + a;
    assert '\n' !in head;
    assert '\n' !in head + MIGRATE_TOKEN;
    assert '\n' !in head + MIGRATE_TOKEN + b;
  }

  lemma DashDash(s: string)
    requires |s| >= 2 && s[0] == '-' && s[1] == '-' && !IsBeginMarker(FirstLine(s))
    ensures Step(s, START) == Token(2, LineComment, Keep)
  {
    hide MatchTag, FirstLine, IsBeginMarker;
  }

  /** To the lexer, a block marker with irregular spacing is an ordinary comment. */
  lemma IrregularMarkerIsComment(a: string, b: string, name: string, rest: string)
    requires a != "" && AllSpace(a) && b != "" && AllSpace(b) && name in {STATEMENT_BEGIN, STATEMENT_END}
    requires '\n' !in a && '\n' !in b && !(a == " " && b == " ") && (rest == "" || rest[0] == '\n')
    ensures Step(LooseMarker(a, b, name) + rest, START) == Token(2, LineComment, Keep)
  {
    hide IsBeginMarker, IsEndMarker, IsStatementMarkerLine, DirectiveNames, LooksLikeDirective, FirstLine, Step;
    var l := LooseMarker(a, b, name);
    IrregularMarkerPasses(a, b, name);
    LooseOneLine(a, b, name);
    FirstLineUnique(l, l + rest);
    DashDash(l + rest);
  }

  // ---------------------------------------------------------------------------------------------
  // Conservation

  function Concat(xs: seq<string>): string {
    if xs == [] then "" else xs[0] + Concat(xs[1..])
  }

  /** kept[0], dropped[0], kept[1], dropped[1], ..., kept[n]. */
  function Weave(kept: seq<string>, dropped: seq<string>): string
    requires |kept| == |dropped| + 1
  {
    if dropped == [] then kept[0] else kept[0] + dropped[0] + Weave(kept[1..], dropped[1..])
  }

  /** A whole line, with its line feed unless it is the last one, that is a block marker. */
  predicate IsMarkerLine(x: string) {
    var l := FirstLine(x);
    (x == l || x == l + "\n") && (IsBeginMarker(l) || IsEndMarker(l))
  }

  lemma NormalStepKeeps(s: string, look: Look)
    requires s != ""
    ensures NormalStep(s, look).event in {Keep, Cut}
  {
  }

  lemma DroppedLine(s: string, m: Mode)
    requires s != "" && Step(s, m).event in {Open, Close}
    ensures IsMarkerLine(s[..Step(s, m).len])
  {
    hide IsBeginMarker, IsEndMarker, NormalStep;
    var t := Step(s, m);
    var l := FirstLine(s);
    assert !m.LineComment? && !m.Single? && !m.Double? && !m.Dollar? && !m.Comment?;
    assert t.len == LineLength(s) by {
      NormalStepKeeps(s, if m.Normal? then m.look else Plain);
    }
    FirstLineUnique(l, s[..t.len]);
    assert s[..t.len] == if |l| == |s| then l else l + "\n";
    NormalStepKeeps(s, if m.Normal? then m.look else Plain);
  }

  lemma WeaveOne(x: string)
    ensures Weave([x], []) == x
  {
  }

  lemma WeaveLine(x: string, kept: seq<string>, dropped: seq<string>)
    requires |kept| == |dropped| + 1
    ensures Weave([""] + kept, [x] + dropped) == x + Weave(kept, dropped)
  {
    assert ([""] + kept)[1..] == kept && ([x] + dropped)[1..] == dropped;
    assert "" + x == x;
  }

  lemma WeaveKept(x: string, kept: seq<string>, dropped: seq<string>)
    requires |kept| == |dropped| + 1
    ensures Weave([x + kept[0]] + kept[1..], dropped) == x + Weave(kept, dropped)
  {
    assert ([x + kept[0]] + kept[1..])[1..] == kept[1..];
  }

  lemma ConcatKept(x: string, texts: seq<string>)
    requires texts != []
    ensures Concat([x + texts[0]] + texts[1..]) == x + Concat(texts)
    ensures Concat([x] + texts) == x + Concat(texts)
  {
    assert ([x + texts[0]] + texts[1..])[1..] == texts[1..];
    assert ([x] + texts)[1..] == texts;
  }

  /**
   The script is its kept stretches with the consumed marker lines between them, and the segments, in
   order, spell exactly the kept stretches: nothing is lost, repeated, moved or made up.
   */
  lemma {:induction false} Conservation(s: string, m: Mode) returns (kept: seq<string>, dropped: seq<string>)
    ensures |kept| == |dropped| + 1 && s == Weave(kept, dropped)
    ensures Concat(Texts(Lex(s, m).segs)) == Concat(kept)
    ensures forall i :: 0 <= i < |dropped| ==> IsMarkerLine(dropped[i])
    decreases |s|
  {
    hide IsMarkerLine, Step, Lex, Texts, Concat, Weave;
    if s == "" {
      LexNothing(m);
      kept, dropped := [""], [];
      WeaveOne("");
    } else {
      var t := Step(s, m);
      kept, dropped := Conservation(s[t.len..], t.mode);
      LexTexts(s, m);
      assert s == s[..t.len] + s[t.len..];
      if t.event in {Open, Close} {
        DroppedLine(s, m);
        WeaveLine(s[..t.len], kept, dropped);
        ConcatKept("", Texts(Lex(s[t.len..], t.mode).segs));
        ConcatKept("", kept);
        kept, dropped := [""] + kept, [s[..t.len]] + dropped;
      } else {
        WeaveKept(s[..t.len], kept, dropped);
        ConcatKept(s[..t.len], Texts(Lex(s[t.len..], t.mode).segs));
        ConcatKept(s[..t.len], kept);
        kept := [s[..t.len] + kept[0]] + kept[1..];
      }
    }
  }
}
