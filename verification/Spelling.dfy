/** Statements written as tokens. Parsing what is written gives the statement back. */
module Spelling {
  import opened Words
  import opened Isa
  import opened Encoding
  import opened Syntax
  import opened Lowering
  import opened Keywords
  import Literals

  function Mark(s: Sym): Token { RawToken.Token(s, TextOf(s), 0) }

  function Literal(v: nat): Token { RawToken.Token(Number(10), Literals.LiteralText(v, 10), v) }

  function Reference(name: string): Token { RawToken.Token(LabelRef, "." + name, 0) }

  function WriteExpr(e: MemExpr): seq<Token> {
    match e.base
    case Absolute => [Literal(e.disp)]
    case ByHL => [Mark(Register(HL)), Mark(Plus), Literal(e.disp)]
    case ByL => [Mark(Register(L)), Mark(Plus), Literal(e.disp)]
    case ByBP => [Mark(Register(BP)), Mark(Plus), Literal(e.disp)]
  }

  /** A written memory expression is read back, whatever follows its bracket. */
  lemma ExprRoundTrip(e: MemExpr, end: Sym, close: Token, rest: seq<Token>)
    requires !IsSign(end) && close.sym == end
    ensures ParseExpr(WriteExpr(e) + [close] + rest, end) == Some(e)
  {
    hide ParseTerms, ParseExpr;
    var ts := WriteExpr(e) + [close] + rest;
    if e.base == Absolute {
      LastTerm(ts, MemExpr(Absolute, 0), e.disp, end);
      NoRegister(ts, end);
    } else {
      assert ts[0] == WriteExpr(e)[0] && ts[1] == Mark(Plus);
      assert ts[2] == Literal(e.disp) && ts[3] == close;
      FirstRegister(ts, e.base, end);
      LastTerm(ts[2..], MemExpr(e.base, 0), e.disp, end);
    }
  }

  lemma NoRegister(ts: seq<Token>, end: Sym)
    requires ts != [] && ts[0].sym.Number?
    ensures ParseExpr(ts, end) == ParseTerms(ts, false, MemExpr(Absolute, 0), end)
  {
    hide ParseTerms;
  }

  lemma FirstRegister(ts: seq<Token>, b: Base, end: Sym)
    requires |ts| >= 2 && b != Absolute && ts[0] == WriteExpr(MemExpr(b, 0))[0] && ts[1] == Mark(Plus)
    ensures ParseExpr(ts, end) == ParseTerms(ts[2..], false, MemExpr(b, 0), end)
  {
    hide ParseTerms, ApplyTerm;
    assert !IsSign(ts[0].sym);
    RegisterApplied(b);
    TermThenSign(ts, MemExpr(Absolute, 0), MemExpr(b, 0), end);
  }

  lemma RegisterApplied(b: Base)
    requires b != Absolute
    ensures ApplyTerm(MemExpr(Absolute, 0), false, WriteExpr(MemExpr(b, 0))[0]) == Some(MemExpr(b, 0))
  {
  }

  lemma TermThenSign(ts: seq<Token>, e: MemExpr, e': MemExpr, end: Sym)
    requires |ts| >= 2 && ApplyTerm(e, false, ts[0]) == Some(e') && ts[1].sym == Plus
    ensures ParseTerms(ts, false, e, end) == ParseTerms(ts[2..], false, e', end)
  {
    hide ApplyTerm;
  }

  lemma LastTerm(ts: seq<Token>, e: MemExpr, d: Word, end: Sym)
    requires |ts| >= 2 && ts[0] == Literal(d) && ts[1].sym == end && !IsSign(end) && e.disp == 0
    ensures ParseTerms(ts, false, e, end) == Some(e.(disp := d))
  {
  }

  function WriteOperand(o: Operand): seq<Token>
    requires Writable(o)
  {
    match o
    case Reg(m) => [Mark(Register(m))]
    case Immediate(v) => [Literal(v)]
    case Memory(e) => [Mark(LParen)] + WriteExpr(e) + [Mark(RParen)]
    case Labelled(name, e) =>
      [RawToken.Token(LabelIdx, name, 0), Mark(LSquare)] + WriteExpr(e) + [Mark(RSquare)]
    case Local(d) => [Mark(LCurly)] + WriteExpr(MemExpr(ByBP, d)) + [Mark(RCurly)]
  }

  predicate Writable(o: Operand) { o.Labelled? ==> o.name != "" }

  lemma OperandRoundTrip(o: Operand)
    requires Writable(o)
    ensures ParseOperand(WriteOperand(o)) == Some(o)
  {
    hide ParseOperand, WriteOperand;
    match o
    case Labelled(name, e) => IndexedRoundTrip(name, e);
    case Memory(e) => MemoryRoundTrip(e);
    case Local(d) => LocalRoundTrip(d);
    case _ => WordRoundTrip(o);
  }

  lemma WordRoundTrip(o: Operand)
    requires o.Reg? || o.Immediate?
    ensures ParseOperand(WriteOperand(o)) == Some(o)
  {
    hide TextOf, Literals.LiteralText;
  }

  lemma MemoryRoundTrip(e: MemExpr)
    ensures ParseOperand(WriteOperand(Memory(e))) == Some(Memory(e))
  {
    hide ParseExpr, WriteExpr, TextOf;
    ExprRoundTrip(e, RParen, Mark(RParen), []);
    assert WriteOperand(Memory(e))[1..] == WriteExpr(e) + [Mark(RParen)] + [];
  }

  lemma LocalRoundTrip(d: Word)
    ensures ParseOperand(WriteOperand(Local(d))) == Some(Local(d))
  {
    hide ParseExpr, WriteExpr, TextOf;
    var e := MemExpr(ByBP, d);
    ExprRoundTrip(e, RCurly, Mark(RCurly), []);
    assert WriteOperand(Local(d))[1..] == WriteExpr(e) + [Mark(RCurly)] + [];
  }

  lemma IndexedRoundTrip(name: string, e: MemExpr)
    requires name != ""
    ensures ParseOperand(WriteOperand(Labelled(name, e))) == Some(Labelled(name, e))
  {
    hide ParseExpr, WriteExpr, TextOf;
    var ts := WriteOperand(Labelled(name, e));
    ExprRoundTrip(e, RSquare, Mark(RSquare), []);
    assert ts[2..] == WriteExpr(e) + [Mark(RSquare)] + [];
  }

  /** Statements that can be written: accepted ones whose targets are numbers or plain labels, and
      data lines that are not empty. */
  predicate Spellable(st: Stmt) {
    Legal(st) &&
    match st
    case Use(_, o) => Writable(o)
    case UseWide(_, o) => Writable(o)
    case PushOperand(o) => Writable(o)
    case PopOperand(o) => Writable(o)
    case JumpTo(_, t) => t.Lab? ==> t.offset == 0
    case JumpExtTo(_, t) => t.Lab? ==> t.offset == 0
    case Bytes(bs) => bs != []
    case _ => true
  }

  function KindSym(kind: Kind): Sym {
    match kind
    case Load => LOAD
    case Store => STORE
    case Xch => XCH
    case Alu(fn) => AluSym(fn)
    case Unary(fn) => UnarySym(fn)
  }

  function WriteTarget(t: Target): Token {
    match t
    case Abs(w) => Literal(w)
    case Lab(name, _) => Reference(name)
  }

  function Write(st: Stmt): seq<Token>
    requires Spellable(st)
  {
    match st
    case Plain(op) => [Mark(PlainSym(op))]
    case Use(kind, o) => [Mark(KindSym(kind))] + WriteOperand(o)
    case UseWide(fn, o) => [Mark(WideSym(fn))] + WriteOperand(o)
    case JumpTo(c, t) => [Mark(JumpSym(c)), WriteTarget(t)]
    case JumpExtTo(m, t) => [Mark(JEXT), Literal(m), Mark(Comma), WriteTarget(t)]
    case PushOperand(o) => [Mark(PUSH)] + WriteOperand(o)
    case PopOperand(o) => [Mark(POP)] + WriteOperand(o)
    case CallTo(name) => [Mark(CALL), Reference(name)]
    case Return => [Mark(RET)]
    case ReturnPop(n) => [Mark(RET), Literal(n)]
    case EnterFrame(n) => [Mark(ENTER), Literal(n)]
    case Bytes(bs) => seq(|bs|, i requires 0 <= i < |bs| => Literal(bs[i]))
    case Define(name) => [RawToken.Token(LabelDef, name + ":", 0)]
    case Constant(name, v) => [Reference(name), Mark(Equals), Literal(v)]
    case Blank => []
  }

  /** Every statement that can be written is read back from what is written. */
  lemma StatementRoundTrip(st: Stmt)
    requires Spellable(st)
    ensures ParseLine(Write(st)) == Some(st)
  {
    match st
    case Use(_, _) | UseWide(_, _) | PushOperand(_) | PopOperand(_) => WithOperand(st);
    case Bytes(bs) => DataRoundTrip(bs);
    case _ => WithoutOperand(st);
  }

  lemma WithOperand(st: Stmt)
    requires Spellable(st) && (st.Use? || st.UseWide? || st.PushOperand? || st.PopOperand?)
    ensures ParseLine(Write(st)) == Some(st)
  {
    hide ParseOperand, WriteOperand, Legal, Writable;
    var o := st.operand;
    assert Write(st)[1..] == WriteOperand(o);
    OperandRoundTrip(o);
  }

  lemma WithoutOperand(st: Stmt)
    requires Spellable(st) && !st.Use? && !st.UseWide? && !st.PushOperand? && !st.PopOperand? && !st.Bytes?
    ensures ParseLine(Write(st)) == Some(st)
  {
    hide ParseLine, Write, Spellable;
    if st.JumpTo? || st.JumpExtTo? {
      TargetRoundTrip(st);
    } else if st.Define? || st.CallTo? || st.Constant? {
      NameRoundTrip(st);
    } else {
      SimpleRoundTrip(st);
    }
  }

  lemma TargetRoundTrip(st: Stmt)
    requires Spellable(st) && (st.JumpTo? || st.JumpExtTo?)
    ensures ParseLine(Write(st)) == Some(st)
  {
    hide ParseOperand, NumberBytes, QuotedText, TextOf, Literals.LiteralText, MapOperand;
    if st.target.Lab? {
      assert ("." + st.target.name)[1..] == st.target.name;
    }
  }

  lemma NameRoundTrip(st: Stmt)
    requires Spellable(st) && (st.Define? || st.CallTo? || st.Constant?)
    ensures ParseLine(Write(st)) == Some(st)
  {
    hide ParseOperand, NumberBytes, QuotedText, TextOf, Literals.LiteralText, MapOperand;
    assert (st.name + ":")[..|st.name|] == st.name;
    assert ("." + st.name)[1..] == st.name;
  }

  lemma SimpleRoundTrip(st: Stmt)
    requires Spellable(st) && (st.Plain? || st.Return? || st.ReturnPop? || st.EnterFrame? || st.Blank?)
    ensures ParseLine(Write(st)) == Some(st)
  {
    hide ParseOperand, NumberBytes, QuotedText, TextOf, Literals.LiteralText, MapOperand;
  }

  lemma DataRoundTrip(bs: seq<Byte>)
    requires bs != []
    ensures ParseLine(Write(Bytes(bs))) == Some(Bytes(bs))
  {
    hide NumberBytes;
    NumbersRoundTrip(bs);
  }

  lemma {:induction false} NumbersRoundTrip(bs: seq<Byte>)
    ensures NumberBytes(seq(|bs|, i requires 0 <= i < |bs| => Literal(bs[i]))) == bs
    decreases |bs|
  {
    if bs != [] {
      NumbersRoundTrip(bs[1..]);
      var ts := seq(|bs|, i requires 0 <= i < |bs| => Literal(bs[i]));
      assert ts[1..] == seq(|bs[1..]|, i requires 0 <= i < |bs[1..]| => Literal(bs[1..][i]));
    }
  }

  /** A written statement emits what it is lowered to. */
  lemma WrittenItems(st: Stmt)
    requires Spellable(st)
    ensures LineItems(Write(st)) == Lower(st)
  {
    hide Write, Lower, ParseLine;
    StatementRoundTrip(st);
  }
}
