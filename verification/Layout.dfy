/** Comments, indentation, padding and blank lines make no difference: a text assembles to what its
    bare lines assemble to. */
module Layout {
  import opened Words
  import opened Encoding
  import opened Syntax
  import opened Lowering
  import opened Rendering

  /** The tokens in front of the first comment. */
  function Bare(line: seq<Token>): seq<Token>
    decreases |line|
  {
    if line == [] || line[0].sym == Comment then [] else [line[0]] + Bare(line[1..])
  }

  // ---------- statements ----------

  lemma BareParts(ts: seq<Token>)
    ensures Bare(ts) == [] <==> ts == [] || ts[0].sym == Comment
    ensures Bare(ts) != [] ==> Bare(ts)[0] == ts[0] && Bare(ts)[1..] == Bare(ts[1..])
  {
  }

  /** The bare line is the line up to its first comment. */
  lemma {:induction false} BarePrefix(ts: seq<Token>)
    ensures var k := |Bare(ts)|;
            && k <= |ts| && Bare(ts) == ts[..k] && (k < |ts| ==> ts[k].sym == Comment)
            && forall i :: 0 <= i < k ==> ts[i].sym != Comment
    decreases |ts|
  {
    if ts != [] && ts[0].sym != Comment {
      BarePrefix(ts[1..]);
    }
  }

  /** A comment is neither an operand nor a sign. */
  lemma CommentTerm(e: MemExpr, minus: bool, t: Token)
    requires t.sym == Comment
    ensures ApplyTerm(e, minus, t) == None && !IsSign(t.sym)
  {
  }

  lemma TermsUnfold(ts: seq<Token>, minus: bool, e: MemExpr, end: Sym)
    ensures ParseTerms(ts, minus, e, end) ==
      if |ts| < 2 || ApplyTerm(e, minus, ts[0]).None? then None
      else if IsSign(ts[1].sym) then
        ParseTerms(ts[2..], ts[1].sym == Minus, ApplyTerm(e, minus, ts[0]).value, end)
      else if ts[1].sym == end then ApplyTerm(e, minus, ts[0])
      else None
  {
    hide ApplyTerm, IsSign;
  }

  lemma {:induction false} BareTerms(ts: seq<Token>, minus: bool, e: MemExpr, end: Sym)
    requires end != Comment
    ensures ParseTerms(Bare(ts), minus, e, end) == ParseTerms(ts, minus, e, end)
    decreases |ts|
  {
    hide Bare, ApplyTerm, IsSign, ParseTerms;
    BareParts(ts);
    TermsUnfold(ts, minus, e, end);
    TermsUnfold(Bare(ts), minus, e, end);
    if ts != [] && ts[0].sym != Comment {
      BareParts(ts[1..]);
      if |ts| > 1 && ts[1].sym != Comment {
        assert Bare(ts)[2..] == Bare(ts)[1..][1..] && ts[2..] == ts[1..][1..];
        assert Bare(ts)[1] == Bare(ts)[1..][0];
        if ApplyTerm(e, minus, ts[0]).Some? {
          BareTerms(ts[2..], ts[1].sym == Minus, ApplyTerm(e, minus, ts[0]).value, end);
        }
      } else if |ts| > 1 {
        CommentTerm(e, minus, ts[1]);
      }
    } else if ts != [] {
      CommentTerm(e, minus, ts[0]);
    }
  }

  lemma BareExpr(ts: seq<Token>, end: Sym)
    requires end != Comment
    ensures ParseExpr(Bare(ts), end) == ParseExpr(ts, end)
  {
    hide Bare, ParseTerms;
    BareParts(ts);
    BareTerms(ts, false, MemExpr(Absolute, 0), end);
    if ts != [] && ts[0].sym != Comment {
      BareTerms(ts[1..], ts[0].sym == Minus, MemExpr(Absolute, 0), end);
    }
  }

  lemma BareOperand(ts: seq<Token>)
    ensures ParseOperand(Bare(ts)) == ParseOperand(ts)
  {
    hide Bare, ParseExpr;
    BareParts(ts);
    if ts != [] && ts[0].sym != Comment {
      BareParts(ts[1..]);
      BareExpr(ts[1..], RParen);
      BareExpr(ts[1..], RCurly);
      if |ts| > 1 && ts[1].sym != Comment {
        assert Bare(ts)[2..] == Bare(ts)[1..][1..] && ts[2..] == ts[1..][1..];
        assert Bare(ts)[1] == Bare(ts)[1..][0];
        BareExpr(ts[2..], RSquare);
      }
    }
  }

  lemma {:induction false} BareNumbers(ts: seq<Token>)
    ensures NumberBytes(Bare(ts)) == NumberBytes(ts)
    decreases |ts|
  {
    hide Bare, ToByte;
    BareParts(ts);
    if ts != [] && ts[0].sym.Number? {
      BareNumbers(ts[1..]);
    }
  }

  /** A statement ends where a comment starts: what follows makes no difference to any line. */
  lemma BareParses(line: seq<Token>)
    ensures ParseLine(Bare(line)) == ParseLine(line)
  {
    hide Bare, ParseOperand, NumberBytes, Legal, ParseTarget, QuotedText, RefName, DefName;
    BareParts(line);
    BarePrefix(line);
    if line != [] && line[0].sym != Comment {
      var ts := line[1..];
      BareOperand(ts);
      BareNumbers(line);
      CommentTargets(line);
    }
  }

  lemma CommentTargets(line: seq<Token>)
    ensures forall i :: 0 <= i < |line| && line[i].sym == Comment ==> ParseTarget(line[i]) == None
  {
  }

  // ---------- programs ----------

  /** The bare lines that are not empty. */
  function BareLines(lines: seq<seq<Token>>): seq<seq<Token>>
    decreases |lines|
  {
    if lines == [] then []
    else
      var n := |lines| - 1;
      BareLines(lines[..n]) + (if Bare(lines[n]) == [] then [] else [Bare(lines[n])])
  }

  /** What comes later makes no difference to the layout of the lines before. */
  lemma {:induction false} EarlierLines(a: seq<seq<Token>>, b: seq<seq<Token>>, n: nat)
    requires n <= |a| <= |b| && a == b[..|a|]
    ensures ItemsTo(a, n) == ItemsTo(b, n) && LabelsTo(a, n) == LabelsTo(b, n)
    decreases n
  {
    hide LineItems, Bind, SizeOf;
    if n > 0 {
      EarlierLines(a, b, n - 1);
    }
  }

  /** One more line. */
  lemma LastLine(lines: seq<seq<Token>>, line: seq<Token>)
    ensures var all := lines + [line];
            && ProgramItems(all) == ProgramItems(lines) + LineItems(line)
            && Labels(all) == Bind(Labels(lines), line, 256 + SizeOf(ProgramItems(lines)))
  {
    hide LineItems, Bind, SizeOf;
    EarlierLines(lines, lines + [line], |lines|);
  }

  lemma BareLine(env: Env, line: seq<Token>, here: nat)
    ensures LineItems(Bare(line)) == LineItems(line) && Bind(env, Bare(line), here) == Bind(env, line, here)
    ensures Bare(line) == [] ==> LineItems(line) == [] && Bind(env, line, here) == env
  {
    hide Bare, Lower;
    BareParses(line);
    if Bare(line) == [] {
      EmptyLine(env, here);
    }
    hide ParseLine;
  }

  lemma EmptyLine(env: Env, here: nat)
    ensures LineItems([]) == [] && Bind(env, [], here) == env
  {
  }

  lemma {:induction false} BareProgram(lines: seq<seq<Token>>)
    ensures ProgramItems(BareLines(lines)) == ProgramItems(lines) && Labels(BareLines(lines)) == Labels(lines)
    decreases |lines|
  {
    hide Bare, ProgramItems, Labels, LineItems, Bind, SizeOf;
    if lines != [] {
      var n := |lines| - 1;
      var init, last := lines[..n], lines[n];
      assert lines == init + [last];
      BareProgram(init);
      BareLine(Labels(init), last, 256 + SizeOf(ProgramItems(init)));
      LastLine(init, last);
      if Bare(last) == [] {
        assert BareLines(lines) == BareLines(init);
      } else {
        LastLine(BareLines(init), Bare(last));
      }
    }
  }

  /** Comments, and lines without anything else, make no difference to the executable. */
  lemma CommentsIgnored(lines: seq<seq<Token>>)
    ensures OneShot(BareLines(lines)) == OneShot(lines)
  {
    hide BareLines, ProgramItems, Labels, Encode;
    BareProgram(lines);
  }

  /** However a program is laid out in its text, it assembles to what its bare lines assemble to. */
  lemma LayoutIgnored(ls: seq<Laid>)
    requires forall i :: 0 <= i < |ls| ==> WellLaid(ls[i])
    ensures OneShot(TokensOf(RenderAll(ls))) == OneShot(BareLines(Kept(ls)))
  {
    hide *;
    RenderingRoundTrip(ls);
    CommentsIgnored(Kept(ls));
  }

  // ---------- annotated programs ----------

  /** What surrounds a line: blank and comment lines above it, its indentation, the spaces behind its
      tokens, and a comment at its end. */
  datatype Annotation = Annotation(above: seq<Laid>, indent: nat, gaps: seq<nat>, remark: Option<Token>)

  predicate IsNote(l: Laid) { l.tokens == [] || l.tokens[0].sym == Comment }

  ghost predicate AllNotes(ls: seq<Laid>) { forall i :: 0 <= i < |ls| ==> WellLaid(ls[i]) && IsNote(ls[i]) }

  function Remarked(line: seq<Token>, a: Annotation): seq<Token> {
    line + (if a.remark.Some? then [a.remark.value] else [])
  }

  ghost predicate Proper(line: seq<Token>, a: Annotation) {
    && AllNotes(a.above) && Gapped(Remarked(line, a), a.gaps)
    && (a.remark.Some? ==> a.remark.value.sym == Comment && Rendering.WellFormed(a.remark.value))
  }

  /** One annotation for each line. */
  predicate Fitting(lines: seq<seq<Token>>, notes: seq<Annotation>) {
    |notes| == |lines| && forall i :: 0 <= i < |lines| ==> |notes[i].gaps| == |Remarked(lines[i], notes[i])|
  }

  function Annotated(line: seq<Token>, a: Annotation): seq<Laid>
    requires |a.gaps| == |Remarked(line, a)|
  {
    a.above + [RawLaid.Laid(a.indent, Remarked(line, a), a.gaps)]
  }

  /** The annotated lines of a program, and what is written below the last. */
  function AnnotateAll(lines: seq<seq<Token>>, notes: seq<Annotation>, below: seq<Laid>): seq<Laid>
    requires Fitting(lines, notes)
    decreases |lines|
  {
    if lines == [] then below else Annotated(lines[0], notes[0]) + AnnotateAll(lines[1..], notes[1..], below)
  }

  /** A line of well-formed tokens without a comment. */
  ghost predicate CodeLine(line: seq<Token>) {
    line != [] && WellFormedLine(line) && forall i :: 0 <= i < |line| ==> line[i].sym != Comment
  }

  lemma {:induction false} KeptConcat(a: seq<Laid>, b: seq<Laid>)
    ensures Kept(a + b) == Kept(a) + Kept(b)
    decreases |a|
  {
    if a == [] {
      assert a + b == b;
    } else {
      KeptConcat(a[1..], b);
      assert (a + b)[1..] == a[1..] + b;
    }
  }

  lemma {:induction false} BareConcat(a: seq<seq<Token>>, b: seq<seq<Token>>)
    ensures BareLines(a + b) == BareLines(a) + BareLines(b)
    decreases |b|
  {
    hide Bare;
    if b == [] {
      assert a + b == a;
    } else {
      var n := |b| - 1;
      BareConcat(a, b[..n]);
      assert (a + b)[..|a| + n] == a + b[..n];
    }
  }

  lemma {:induction false} NotesVanish(ls: seq<Laid>)
    requires forall i :: 0 <= i < |ls| ==> IsNote(ls[i])
    ensures BareLines(Kept(ls)) == []
    decreases |ls|
  {
    hide Bare, BareLines;
    if ls == [] {
      NoBareLines();
    } else {
      var first := if ls[0].tokens == [] then [] else [ls[0].tokens];
      NotesVanish(ls[1..]);
      BareConcat(first, Kept(ls[1..]));
      if first == [] {
        NoBareLines();
      } else {
        OneBareLine(ls[0].tokens);
        BareParts(ls[0].tokens);
      }
    }
  }

  lemma NoBareLines()
    ensures BareLines([]) == []
  {
  }

  lemma OneBareLine(line: seq<Token>)
    ensures BareLines([line]) == if Bare(line) == [] then [] else [Bare(line)]
  {
    hide Bare;
    assert [line][..0] == [];
  }

  lemma {:induction false} RemarkDropped(line: seq<Token>, rest: seq<Token>)
    requires forall i :: 0 <= i < |line| ==> line[i].sym != Comment
    requires rest == [] || rest[0].sym == Comment
    ensures Bare(line + rest) == line
    decreases |line|
  {
    if line == [] {
      assert line + rest == rest;
    } else {
      RemarkDropped(line[1..], rest);
      assert (line + rest)[1..] == line[1..] + rest;
    }
  }

  /** A line and its annotation are laid out well. */
  lemma AnnotatedLaid(line: seq<Token>, a: Annotation)
    requires CodeLine(line) && Proper(line, a)
    ensures |a.gaps| == |Remarked(line, a)|
    ensures forall i :: 0 <= i < |Annotated(line, a)| ==> WellLaid(Annotated(line, a)[i])
    ensures BareLines(Kept(Annotated(line, a))) == [line]
  {
    hide Bare, BareLines, WellLaid, Rendering.WellFormed, WellFormedLine, Kept, GapAt;
    var ts := Remarked(line, a);
    var l: Laid := RawLaid.Laid(a.indent, ts, a.gaps);
    RemarkedLaid(line, a);
    RemarkDropped(line, ts[|line|..]);
    assert ts == line + ts[|line|..];
    KeptConcat(a.above, [l]);
    KeptOne(l);
    BareConcat(Kept(a.above), [ts]);
    NotesVanish(a.above);
    OneBareLine(ts);
  }

  lemma KeptOne(l: Laid)
    requires l.tokens != []
    ensures Kept([l]) == [l.tokens]
  {
    assert Kept([l][1..]) == [];
  }

  lemma RemarkedLaid(line: seq<Token>, a: Annotation)
    requires CodeLine(line) && Proper(line, a)
    ensures WellLaid(RawLaid.Laid(a.indent, Remarked(line, a), a.gaps))
  {
    hide Rendering.WellFormed, GapAt;
    var ts := Remarked(line, a);
    forall i | 0 <= i < |ts|
      ensures FitsAt(ts, i)
    {
      assert i < |line| ==> FitsAt(line, i);
    }
  }

  lemma ProperFits(line: seq<Token>, a: Annotation)
    requires Proper(line, a)
    ensures |a.gaps| == |Remarked(line, a)|
  {
    hide GapAt;
  }

  lemma NotesParts(ls: seq<Laid>)
    requires AllNotes(ls)
    ensures forall i :: 0 <= i < |ls| ==> WellLaid(ls[i])
    ensures BareLines(Kept(ls)) == []
  {
    hide WellLaid, BareLines, Kept, IsNote;
    NotesVanish(ls);
  }

  /** Stripping an annotated program gives the program back. */
  lemma {:induction false} AnnotationsVanish(lines: seq<seq<Token>>, notes: seq<Annotation>, below: seq<Laid>)
    requires |notes| == |lines| && AllNotes(below)
    requires forall i :: 0 <= i < |lines| ==> CodeLine(lines[i]) && Proper(lines[i], notes[i])
    ensures Fitting(lines, notes)
    ensures var ls := AnnotateAll(lines, notes, below);
            (forall i :: 0 <= i < |ls| ==> WellLaid(ls[i])) && BareLines(Kept(ls)) == lines
    decreases |lines|
  {
    hide Bare, BareLines, WellLaid, Kept, CodeLine, Proper, Annotated, AllNotes, Remarked;
    forall i | 0 <= i < |lines|
      ensures |notes[i].gaps| == |Remarked(lines[i], notes[i])|
    {
      ProperFits(lines[i], notes[i]);
    }
    if lines == [] {
      NotesParts(below);
    } else {
      var a, rest := Annotated(lines[0], notes[0]), AnnotateAll(lines[1..], notes[1..], below);
      AnnotatedLaid(lines[0], notes[0]);
      AnnotationsVanish(lines[1..], notes[1..], below);
      KeptConcat(a, rest);
      BareConcat(Kept(a), Kept(rest));
      assert [lines[0]] + lines[1..] == lines;
    }
  }

  /** Annotations make no difference to the executable. */
  lemma AnnotationsIgnored(lines: seq<seq<Token>>, notes: seq<Annotation>, below: seq<Laid>)
    requires |notes| == |lines| && AllNotes(below)
    requires forall i :: 0 <= i < |lines| ==> CodeLine(lines[i]) && Proper(lines[i], notes[i])
    ensures Fitting(lines, notes)
    ensures OneShot(TokensOf(RenderAll(AnnotateAll(lines, notes, below)))) == OneShot(lines)
  {
    hide *;
    AnnotationsVanish(lines, notes, below);
    LayoutIgnored(AnnotateAll(lines, notes, below));
  }
}
