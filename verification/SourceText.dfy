/** Source texts: statements written out as lines of text are tokenized and parsed back, and the
    whole path from a text to an executable. */
module SourceText {
  import opened Words
  import opened Isa
  import opened Encoding
  import opened Syntax
  import opened Lowering
  import opened Keywords
  import opened Tokenizer
  import Rendering
  import opened Spelling
  import opened AssemblerModel

  // ---------- every symbol is spelled as the table says ----------

  lemma KeywordAt(s: Sym, c: char, i: nat)
    requires TextOf(s)[0] == c && i < |KeywordsOf(c)|
    requires KeywordsOf(c)[i].spelling == TextOf(s) && KeywordsOf(c)[i].sym == s
    ensures Rendering.IsKeyword(s, TextOf(s))
  {
  }

  lemma AluKeyword(fn: AluFn)
    ensures Rendering.IsKeyword(AluSym(fn), TextOf(AluSym(fn)))
  {
    match fn
    case ADD => KeywordAt(AluSym(fn), 'A', 3);
    case ADC => KeywordAt(AluSym(fn), 'A', 2);
    case SUB => KeywordAt(AluSym(fn), 'S', 5);
    case SBC => KeywordAt(AluSym(fn), 'S', 0);
    case AND => KeywordAt(AluSym(fn), 'A', 1);
    case OR => KeywordAt(AluSym(fn), 'O', 0);
    case XOR => KeywordAt(AluSym(fn), 'X', 1);
    case SHL => KeywordAt(AluSym(fn), 'S', 3);
    case SHR => KeywordAt(AluSym(fn), 'S', 4);
    case ROL => KeywordAt(AluSym(fn), 'R', 4);
    case ROR => KeywordAt(AluSym(fn), 'R', 5);
    case CMP => KeywordAt(AluSym(fn), 'C', 1);
    case MIN => KeywordAt(AluSym(fn), 'M', 1);
    case MAX => KeywordAt(AluSym(fn), 'M', 0);
  }

  lemma PlainKeyword(op: PlainOp)
    ensures Rendering.IsKeyword(PlainSym(op), TextOf(PlainSym(op)))
  {
    if op == Noop { KeywordAt(PlainSym(op), 'N', 1); }
    if op == Halt { KeywordAt(PlainSym(op), 'H', 0); }
    if op == Ei { KeywordAt(PlainSym(op), 'E', 0); }
    if op == Di { KeywordAt(PlainSym(op), 'D', 2); }
    if op == Et { KeywordAt(PlainSym(op), 'E', 2); }
    if op == Dt { KeywordAt(PlainSym(op), 'D', 1); }
    if op == Reset { KeywordAt(PlainSym(op), 'R', 2); }
    if op == Leave { KeywordAt(PlainSym(op), 'L', 0); }
  }

  lemma JumpKeyword(c: Cond)
    ensures Rendering.IsKeyword(JumpSym(c), TextOf(JumpSym(c)))
  {
    match c
    case Always => KeywordAt(JumpSym(c), 'J', 4);
    case IfSign => KeywordAt(JumpSym(c), 'J', 1);
    case IfNotSign => KeywordAt(JumpSym(c), 'J', 6);
    case IfZero => KeywordAt(JumpSym(c), 'J', 2);
    case IfNotZero => KeywordAt(JumpSym(c), 'J', 7);
    case IfCarry => KeywordAt(JumpSym(c), 'J', 0);
    case IfNotCarry => KeywordAt(JumpSym(c), 'J', 5);
  }

  lemma UnaryKeyword(fn: UnaryFn)
    ensures Rendering.IsKeyword(UnarySym(fn), TextOf(UnarySym(fn)))
  {
    match fn
    case INC => KeywordAt(UnarySym(fn), 'I', 0);
    case DEC => KeywordAt(UnarySym(fn), 'D', 0);
    case NEG => KeywordAt(UnarySym(fn), 'N', 0);
    case NOT => KeywordAt(UnarySym(fn), 'N', 2);
  }

  lemma WideKeyword(fn: WideFn)
    ensures Rendering.IsKeyword(WideSym(fn), TextOf(WideSym(fn)))
  {
    match fn
    case ADDW => KeywordAt(WideSym(fn), 'A', 4);
    case SUBW => KeywordAt(WideSym(fn), 'S', 6);
    case MULW => KeywordAt(WideSym(fn), 'M', 2);
    case DIVW => KeywordAt(WideSym(fn), 'D', 3);
  }

  lemma RegisterKeyword(m: Mode)
    requires m in {Acc, R0, R1, L, H, HL, BP, FLAGS}
    ensures Rendering.IsKeyword(Register(m), TextOf(Register(m)))
  {
    if m == Acc { KeywordAt(Register(m), 'A', 0); }
    if m == R0 { KeywordAt(Register(m), 'R', 0); }
    if m == R1 { KeywordAt(Register(m), 'R', 1); }
    if m == L { KeywordAt(Register(m), 'L', 2); }
    if m == H { KeywordAt(Register(m), 'H', 2); }
    if m == HL { KeywordAt(Register(m), 'H', 1); }
    if m == BP { KeywordAt(Register(m), 'B', 0); }
    if m == FLAGS { KeywordAt(Register(m), 'F', 0); }
  }

  lemma OtherKeyword(s: Sym)
    requires s in {LOAD, STORE, XCH, JEXT, PUSH, POP, CALL, RET, ENTER}
    ensures Rendering.IsKeyword(s, TextOf(s))
  {
    match s
    case LOAD => KeywordAt(s, 'L', 1);
    case STORE => KeywordAt(s, 'S', 2);
    case XCH => KeywordAt(s, 'X', 0);
    case JEXT => KeywordAt(s, 'J', 3);
    case PUSH => KeywordAt(s, 'P', 2);
    case POP => KeywordAt(s, 'P', 1);
    case CALL => KeywordAt(s, 'C', 0);
    case RET => KeywordAt(s, 'R', 3);
    case ENTER => KeywordAt(s, 'E', 1);
    case _ =>
  }

  /** The symbols statements are written with, other than labels and numbers. */
  predicate IsMark(s: Sym) {
    match s
    case Register(m) => m in {Acc, R0, R1, L, H, HL, BP, FLAGS}
    case SP | PC | QuotedBytes | LabelRef | LabelDef | LabelIdx | Comment | Unknown | Number(_) => false
    case _ => true
  }

  lemma MarkWellFormed(s: Sym)
    requires IsMark(s)
    ensures Rendering.WellFormed(Mark(s))
  {
    hide Rendering.IsKeyword, KeywordsOf;
    match s
    case PlainSym(op) => PlainKeyword(op);
    case AluSym(fn) => AluKeyword(fn);
    case UnarySym(fn) => UnaryKeyword(fn);
    case WideSym(fn) => WideKeyword(fn);
    case JumpSym(c) => JumpKeyword(c);
    case Register(m) => RegisterKeyword(m);
    case LOAD | STORE | XCH | JEXT | PUSH | POP | CALL | RET | ENTER => OtherKeyword(s);
    case _ =>
  }

  lemma LiteralWellFormed(v: nat)
    requires v < Literals.LONG_LIMIT
    ensures Rendering.WellFormed(Literal(v))
  {
    hide Literals.LiteralText;
  }

  // ---------- statements as text ----------

  predicate LabelText(name: string) { Rendering.AllNameChars(name) }

  predicate NameText(name: string) { name != "" && Rendering.NameStart(name[0]) && LabelText(name) }

  predicate OperandText(o: Operand) {
    match o
    case Immediate(v) => v < Literals.LONG_LIMIT
    case Labelled(name, _) => NameText(name)
    case _ => true
  }

  predicate TargetText(t: Target) { t.Lab? ==> LabelText(t.name) }

  /** Statements whose names and numbers can stand in a text. */
  predicate Textual(st: Stmt) {
    Spellable(st) &&
    match st
    case Use(_, o) => OperandText(o)
    case UseWide(_, o) => OperandText(o)
    case PushOperand(o) => OperandText(o)
    case PopOperand(o) => OperandText(o)
    case JumpTo(_, t) => TargetText(t)
    case JumpExtTo(_, t) => TargetText(t)
    case CallTo(name) => LabelText(name)
    case Define(name) => NameText(name)
    case Constant(name, v) => LabelText(name) && v < Literals.LONG_LIMIT
    case Blank => false
    case _ => true
  }

  // ---------- what is written is a well-formed line ----------

  ghost predicate Clean(t: Token) { Rendering.WellFormed(t) && t.sym != Comment && t.sym != LabelIdx }

  ghost predicate AllClean(ts: seq<Token>) { forall i :: 0 <= i < |ts| ==> Clean(ts[i]) }

  lemma CleanLine(ts: seq<Token>)
    requires AllClean(ts)
    ensures Rendering.WellFormedLine(ts)
  {
    hide Rendering.WellFormed;
    forall i | 0 <= i < |ts|
      ensures Rendering.FitsAt(ts, i)
    {
      assert Clean(ts[i]);
    }
  }

  lemma IndexedLine(first: Token, named: Token, rest: seq<Token>)
    requires Clean(first) && Rendering.WellFormed(named) && named.sym == LabelIdx
    requires AllClean(rest) && rest != [] && rest[0].sym == LSquare
    ensures Rendering.WellFormedLine([first, named] + rest)
  {
    hide Rendering.WellFormed;
    var ts := [first, named] + rest;
    assert ts[2] == rest[0];
    forall i | 0 <= i < |ts|
      ensures Rendering.FitsAt(ts, i)
    {
      assert i >= 2 ==> ts[i] == rest[i - 2] && Clean(rest[i - 2]);
    }
  }

  lemma MarkClean(s: Sym)
    requires IsMark(s)
    ensures Clean(Mark(s))
  {
    hide Rendering.WellFormed, TextOf;
    MarkWellFormed(s);
  }

  lemma LiteralClean(v: nat)
    requires v < Literals.LONG_LIMIT
    ensures Clean(Literal(v))
  {
    hide Rendering.WellFormed, Literals.LiteralText;
    LiteralWellFormed(v);
  }

  lemma ReferenceClean(name: string)
    requires LabelText(name)
    ensures Clean(Reference(name))
  {
    hide Rendering.AllNameChars;
    assert ("." + name)[1..] == name;
  }

  lemma DefinitionClean(name: string)
    requires NameText(name)
    ensures Clean(RawToken.Token(LabelDef, name + ":", 0))
  {
    var text := name + ":";
    var inner := text[1..|text| - 1];
    assert forall i :: 0 <= i < |inner| ==> inner[i] == name[i + 1];
  }

  lemma IndexWellFormed(name: string)
    requires NameText(name)
    ensures Rendering.WellFormed(RawToken.Token(LabelIdx, name, 0))
  {
    assert forall i :: 0 <= i < |name[1..]| ==> name[1..][i] == name[i + 1];
  }

  lemma ExprClean(e: MemExpr)
    ensures AllClean(WriteExpr(e))
  {
    hide Clean, TextOf, Literals.LiteralText;
    LiteralClean(e.disp);
    MarkClean(Register(HL));
    MarkClean(Register(L));
    MarkClean(Register(BP));
    MarkClean(Plus);
  }

  lemma CleanJoin(a: seq<Token>, b: seq<Token>)
    requires AllClean(a) && AllClean(b)
    ensures AllClean(a + b)
  {
    hide Clean;
  }

  lemma Bracketed(open: Sym, e: MemExpr, close: Sym)
    requires IsMark(open) && IsMark(close)
    ensures AllClean([Mark(open)] + WriteExpr(e) + [Mark(close)])
  {
    hide Clean, WriteExpr, IsMark, TextOf;
    MarkClean(open);
    MarkClean(close);
    ExprClean(e);
    CleanJoin([Mark(open)], WriteExpr(e));
    CleanJoin([Mark(open)] + WriteExpr(e), [Mark(close)]);
  }

  predicate RegisterOperand(o: Operand) { o.Reg? ==> o.mode in {Acc, R0, R1, L, H, HL, BP, FLAGS} }

  lemma OperandLine(s: Sym, o: Operand)
    requires IsMark(s) && Writable(o) && OperandText(o) && RegisterOperand(o)
    ensures Rendering.WellFormedLine([Mark(s)] + WriteOperand(o))
  {
    hide Clean, WriteOperand, TextOf, Rendering.WellFormed, Rendering.WellFormedLine;
    MarkClean(s);
    if o.Labelled? {
      IndexedOperand(s, o);
    } else {
      OperandClean(o);
      CleanJoin([Mark(s)], WriteOperand(o));
      CleanLine([Mark(s)] + WriteOperand(o));
    }
  }

  lemma OperandClean(o: Operand)
    requires Writable(o) && OperandText(o) && RegisterOperand(o) && !o.Labelled?
    ensures AllClean(WriteOperand(o))
  {
    hide Clean, WriteExpr, Mark, Literal;
    match o
    case Reg(m) => MarkClean(Register(m));
    case Immediate(v) => LiteralClean(v);
    case Memory(e) => Bracketed(LParen, e, RParen);
    case Local(d) => Bracketed(LCurly, MemExpr(ByBP, d), RCurly);
  }

  lemma IndexedOperand(s: Sym, o: Operand)
    requires IsMark(s) && o.Labelled? && Writable(o) && OperandText(o)
    ensures Rendering.WellFormedLine([Mark(s)] + WriteOperand(o))
  {
    hide Clean, WriteExpr, TextOf, Rendering.WellFormed, Rendering.WellFormedLine;
    MarkClean(s);
    IndexWellFormed(o.name);
    Bracketed(LSquare, o.index, RSquare);
    var named, rest := RawToken.Token(LabelIdx, o.name, 0), [Mark(LSquare)] + WriteExpr(o.index) + [Mark(RSquare)];
    IndexedLine(Mark(s), named, rest);
    assert [Mark(s)] + WriteOperand(o) == [Mark(s), named] + rest;
  }

  lemma AcceptedRegister(st: Stmt)
    requires Legal(st) && (st.Use? || st.UseWide? || st.PushOperand? || st.PopOperand?)
    ensures RegisterOperand(st.operand)
  {
  }

  function FirstSym(st: Stmt): Sym
    requires st.Use? || st.UseWide? || st.PushOperand? || st.PopOperand?
  {
    match st
    case Use(kind, _) => KindSym(kind)
    case UseWide(fn, _) => WideSym(fn)
    case PushOperand(_) => PUSH
    case _ => POP
  }

  lemma OperandStatement(st: Stmt)
    requires Textual(st) && (st.Use? || st.UseWide? || st.PushOperand? || st.PopOperand?)
    ensures Rendering.WellFormedLine(Write(st))
  {
    hide Rendering.WellFormedLine, WriteOperand, Mark, Legal;
    AcceptedRegister(st);
    OperandLine(FirstSym(st), st.operand);
  }

  lemma DataStatement(bs: seq<Byte>)
    requires bs != []
    ensures Rendering.WellFormedLine(Write(Bytes(bs)))
  {
    hide Rendering.WellFormedLine, Clean, Literal;
    forall i | 0 <= i < |bs|
      ensures Clean(Write(Bytes(bs))[i])
    {
      LiteralClean(bs[i]);
    }
    CleanLine(Write(Bytes(bs)));
  }

  lemma TargetClean(t: Target)
    requires TargetText(t)
    ensures Clean(WriteTarget(t))
  {
    hide Clean, Literal, Reference;
    match t
    case Abs(w) => LiteralClean(w);
    case Lab(name, _) => ReferenceClean(name);
  }

  lemma OtherStatement(st: Stmt)
    requires Textual(st) && !st.Use? && !st.UseWide? && !st.PushOperand? && !st.PopOperand? && !st.Bytes?
    ensures Rendering.WellFormedLine(Write(st))
  {
    hide Rendering.WellFormedLine, Clean, Literal, Reference, Mark, WriteTarget, TextOf, LabelText, NameText;
    match st {
      case Plain(op) => MarkClean(PlainSym(op));
      case JumpTo(c, t) => MarkClean(JumpSym(c)); TargetClean(t);
      case JumpExtTo(m, t) => MarkClean(JEXT); LiteralClean(m); MarkClean(Comma); TargetClean(t);
      case CallTo(name) => MarkClean(CALL); ReferenceClean(name);
      case Return => MarkClean(RET);
      case ReturnPop(n) => MarkClean(RET); LiteralClean(n);
      case EnterFrame(n) => MarkClean(ENTER); LiteralClean(n);
      case Define(name) => DefinitionClean(name);
      case Constant(name, v) => ReferenceClean(name); MarkClean(Equals); LiteralClean(v);
    }
    CleanLine(Write(st));
  }

  lemma WrittenLine(st: Stmt)
    requires Textual(st)
    ensures Write(st) != [] && Rendering.WellFormedLine(Write(st))
  {
    hide Rendering.WellFormedLine;
    match st
    case Use(_, _) | UseWide(_, _) | PushOperand(_) | PopOperand(_) => OperandStatement(st);
    case Bytes(bs) => DataStatement(bs);
    case _ => OtherStatement(st);
  }

  // ---------- from text to executable ----------

  predicate AllTextual(stmts: seq<Stmt>) { forall i :: 0 <= i < |stmts| ==> Textual(stmts[i]) }

  function WrittenLines(stmts: seq<Stmt>): (lines: seq<seq<Token>>)
    requires AllTextual(stmts)
    ensures |lines| == |stmts|
  {
    seq(|stmts|, i requires 0 <= i < |stmts| => Write(stmts[i]))
  }

  /** One space behind each token but the last and an indexed label. */
  function SingleGaps(ts: seq<Token>): (gaps: seq<nat>)
    ensures |gaps| == |ts|
  {
    seq<nat>(|ts|, i requires 0 <= i < |ts| => if i + 1 == |ts| || ts[i].sym == LabelIdx then 0 else 1)
  }

  /** Lines without indentation, single-spaced. */
  function PlainLayout(lines: seq<seq<Token>>): (ls: seq<Rendering.Laid>)
    ensures |ls| == |lines|
  {
    seq<Rendering.Laid>(|lines|, i requires 0 <= i < |lines| =>
      Rendering.RawLaid.Laid(0, lines[i], SingleGaps(lines[i])))
  }

  lemma {:induction false} PlainKept(lines: seq<seq<Token>>)
    requires forall i :: 0 <= i < |lines| ==> lines[i] != []
    ensures Rendering.Kept(PlainLayout(lines)) == lines
    decreases |lines|
  {
    if lines != [] {
      assert PlainLayout(lines)[1..] == PlainLayout(lines[1..]);
      PlainKept(lines[1..]);
    }
  }

  /** Statements as a source text, one line each. */
  function SourceOf(stmts: seq<Stmt>): string
    requires AllTextual(stmts)
  {
    Rendering.RenderAll(PlainLayout(WrittenLines(stmts)))
  }

  lemma TextualSpellable(st: Stmt)
    requires Textual(st)
    ensures Spellable(st)
  {
    hide Spellable;
  }

  /** Writing statements as text, tokenizing the text and parsing its lines gives them back. */
  lemma SourceRoundTrip(stmts: seq<Stmt>)
    requires AllTextual(stmts)
    ensures var lines := Rendering.TokensOf(SourceOf(stmts));
            lines == WrittenLines(stmts) && forall i :: 0 <= i < |stmts| ==> ParseLine(lines[i]) == Some(stmts[i])
  {
    hide Textual, Spellable, Write, Rendering.WellLaid, Rendering.RenderAll, Rendering.TokensOf, ParseLine;
    var lines := WrittenLines(stmts);
    forall i | 0 <= i < |lines|
      ensures lines[i] != [] && Rendering.WellLaid(PlainLayout(lines)[i])
      ensures ParseLine(lines[i]) == Some(stmts[i])
    {
      assert Textual(stmts[i]);
      WrittenLine(stmts[i]);
      TextualSpellable(stmts[i]);
      PlainLaid(lines[i]);
      StatementRoundTrip(stmts[i]);
    }
    PlainKept(lines);
    Rendering.RenderingRoundTrip(PlainLayout(lines));
  }

  lemma PlainLaid(ts: seq<Token>)
    requires Rendering.WellFormedLine(ts)
    ensures Rendering.WellLaid(Rendering.RawLaid.Laid(0, ts, SingleGaps(ts)))
  {
    hide Rendering.WellFormed, Rendering.KeywordBefore;
    var gaps := SingleGaps(ts);
    forall i | 0 <= i < |ts|
      ensures Rendering.GapAt(ts, gaps, i)
    {
      assert Rendering.FitsAt(ts, i);
      if i + 1 < |ts| && ts[i].sym == LabelIdx {
        assert Rendering.FitsAt(ts, i + 1);
        Rendering.FirstCharacter(ts[i + 1]);
      }
    }
  }

  ghost predicate Uncommented(ts: seq<Token>) { forall i :: 0 <= i < |ts| ==> ts[i].sym != Comment }

  lemma StatementUncommented(st: Stmt)
    requires Spellable(st)
    ensures Uncommented(Write(st))
  {
    hide Legal, TextOf, Literals.LiteralText, WriteOperand;
    match st
    case Use(_, o) => OperandUncommented(o);
    case UseWide(_, o) => OperandUncommented(o);
    case PushOperand(o) => OperandUncommented(o);
    case PopOperand(o) => OperandUncommented(o);
    case _ =>
  }

  lemma OperandUncommented(o: Operand)
    requires Writable(o)
    ensures Uncommented(WriteOperand(o))
  {
    hide TextOf, Literals.LiteralText;
  }

  /** A statement whose operand is not a label has no indexed label. */
  lemma StatementUnindexed(st: Stmt)
    requires Spellable(st)
    requires match st
             case Use(_, o) => !o.Labelled?
             case UseWide(_, o) => !o.Labelled?
             case PushOperand(o) => !o.Labelled?
             case PopOperand(o) => !o.Labelled?
             case _ => true
    ensures forall i :: 0 <= i < |Write(st)| ==> Write(st)[i].sym != LabelIdx
  {
    hide Legal, TextOf, Literals.LiteralText, WriteOperand;
    match st
    case Use(_, o) => OperandUnindexed(o);
    case UseWide(_, o) => OperandUnindexed(o);
    case PushOperand(o) => OperandUnindexed(o);
    case PopOperand(o) => OperandUnindexed(o);
    case _ =>
  }

  lemma OperandUnindexed(o: Operand)
    requires !o.Labelled?
    ensures forall i :: 0 <= i < |WriteOperand(o)| ==> WriteOperand(o)[i].sym != LabelIdx
  {
    hide TextOf, Literals.LiteralText;
  }

  /** Both passes over a source text. */
  method AssembleText(text: string, hash: string -> nat) returns (executable: seq<Byte>)
    ensures executable == OneShot(Rendering.TokensOf(text))
  {
    hide *;
    var lines := TokenizeProgram(text);
    TokensAre(text);
    var tokens := Rendering.LinesTokens(text, lines);
    executable := Assemble(tokens, hash);
  }

  lemma TokensAre(text: string)
    ensures var lines := LexProgram(text, 0, 1);
            && (forall i :: 0 <= i < |lines| ==> Within(text, lines[i].lexemes))
            && Rendering.TokensOf(text) == Rendering.LinesTokens(text, lines)
  {
    hide LexProgram, Within, Rendering.LinesTokens;
  }
}
