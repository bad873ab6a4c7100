/** Which lines the assembler accepts: exactly those whose instruction exists. */
module Acceptance {
  import opened Isa
  import opened Encoding
  import opened Syntax
  import opened Spelling

  /** The registers a token can name. */
  predicate IsRegister(m: Mode) { m in {Acc, R0, R1, L, H, HL, BP, FLAGS} }

  /** A line of a mnemonic and an operand, read as the statement given, or refused. */
  ghost predicate Reads(sym: Sym, o: Operand, accepted: bool, st: Stmt)
    requires Writable(o)
  {
    forall t: Token :: t.sym == sym ==> ParseLine([t] + WriteOperand(o)) == if accepted then Some(st) else None
  }

  lemma OperandLine(t: Token, o: Operand)
    requires Writable(o)
    ensures var line := [t] + WriteOperand(o);
            line[0] == t && ParseOperand(line[1..]) == Some(o)
  {
    hide WriteOperand, ParseOperand;
    OperandRoundTrip(o);
    assert ([t] + WriteOperand(o))[1..] == WriteOperand(o);
  }

  // ---------- instructions with a byte operand ----------

  /** The variant of an instruction that an operand asks for exists. XCH with a number is a LOAD; a
      label is indexed by a number or by HL; a frame is addressed through BP. */
  predicate VariantExists(kind: Kind, o: Operand) {
    match o
    case Reg(m) => if m == HL then kind.Unary? else Exists(Do(kind, m))
    case Immediate(_) => Exists(Do(kind, Imm)) || kind.Xch?
    case Memory(e) => e.base != ByBP
    case Labelled(_, e) => e.base != ByBP && e.base != ByL
    case Local(_) => true
  }

  lemma UseAccepted(kind: Kind, o: Operand)
    requires Writable(o) && (o.Reg? ==> IsRegister(o.mode))
    ensures Reads(KindSym(kind), o, VariantExists(kind, o), Use(kind, o))
  {
    hide WriteOperand, ParseOperand, Writable;
    forall t: Token | t.sym == KindSym(kind)
      ensures ParseLine([t] + WriteOperand(o)) == if VariantExists(kind, o) then Some(Use(kind, o)) else None
    {
      OperandLine(t, o);
      UseParsed(kind, [t] + WriteOperand(o), o);
    }
  }

  lemma UseParsed(kind: Kind, line: seq<Token>, o: Operand)
    requires line != [] && line[0].sym == KindSym(kind) && ParseOperand(line[1..]) == Some(o)
    requires o.Reg? ==> IsRegister(o.mode)
    ensures ParseLine(line) == if VariantExists(kind, o) then Some(Use(kind, o)) else None
  {
    hide ParseOperand;
    UseLine(kind, line, o);
    UseLegal(kind, o);
  }

  lemma UseLine(kind: Kind, line: seq<Token>, o: Operand)
    requires line != [] && line[0].sym == KindSym(kind) && ParseOperand(line[1..]) == Some(o)
    ensures ParseLine(line) == Checked(Use(kind, o))
  {
    hide ParseOperand, Legal;
  }

  lemma UseLegal(kind: Kind, o: Operand)
    requires o.Reg? ==> IsRegister(o.mode)
    ensures Legal(Use(kind, o)) == VariantExists(kind, o)
  {
  }

  // ---------- the others ----------

  /** 16-bit arithmetic, PUSH and POP take the numbers and registers for which the instruction exists,
      and nothing else. */
  predicate HasVariant(st: Stmt) {
    match st
    case UseWide(fn, Reg(m)) => Exists(Wide(fn, m))
    case UseWide(fn, Immediate(_)) => Exists(Wide(fn, Imm))
    case PushOperand(Reg(m)) => Exists(Push(m))
    case PushOperand(Immediate(_)) => Exists(Push(Imm))
    case PopOperand(Reg(m)) => Exists(Pop(m))
    case PopOperand(Immediate(_)) => Exists(Pop(Imm))
    case _ => false
  }

  lemma WideAccepted(fn: WideFn, o: Operand)
    requires Writable(o) && (o.Reg? ==> IsRegister(o.mode))
    ensures Reads(WideSym(fn), o, HasVariant(UseWide(fn, o)), UseWide(fn, o))
  {
    hide WriteOperand, ParseOperand, Writable, HasVariant, Legal;
    OtherLegal(UseWide(fn, o), o);
    forall t: Token | t.sym == WideSym(fn)
      ensures ParseLine([t] + WriteOperand(o)) == if HasVariant(UseWide(fn, o)) then Some(UseWide(fn, o)) else None
    {
      OperandLine(t, o);
    }
  }

  lemma PushAccepted(o: Operand)
    requires Writable(o) && (o.Reg? ==> IsRegister(o.mode))
    ensures Reads(PUSH, o, HasVariant(PushOperand(o)), PushOperand(o))
  {
    hide WriteOperand, ParseOperand, Writable, HasVariant, Legal;
    OtherLegal(PushOperand(o), o);
    forall t: Token | t.sym == PUSH
      ensures ParseLine([t] + WriteOperand(o)) == if HasVariant(PushOperand(o)) then Some(PushOperand(o)) else None
    {
      OperandLine(t, o);
    }
  }

  lemma PopAccepted(o: Operand)
    requires Writable(o) && (o.Reg? ==> IsRegister(o.mode))
    ensures Reads(POP, o, HasVariant(PopOperand(o)), PopOperand(o))
  {
    hide WriteOperand, ParseOperand, Writable, HasVariant, Legal;
    OtherLegal(PopOperand(o), o);
    forall t: Token | t.sym == POP
      ensures ParseLine([t] + WriteOperand(o)) == if HasVariant(PopOperand(o)) then Some(PopOperand(o)) else None
    {
      OperandLine(t, o);
    }
  }

  lemma OtherLegal(st: Stmt, o: Operand)
    requires st == PushOperand(o) || st == PopOperand(o) || (st.UseWide? && st.operand == o)
    requires o.Reg? ==> IsRegister(o.mode)
    ensures Legal(st) == HasVariant(st)
  {
  }

  /** No instruction takes any other token for an operand. */
  lemma OperandRefused(first: Token, t: Token, rest: seq<Token>)
    requires !t.sym.Register? && !t.sym.Number? && t.sym !in {LabelIdx, LParen, LCurly}
    requires || first.sym.AluSym? || first.sym.UnarySym? || first.sym.WideSym?
             || first.sym in {LOAD, STORE, XCH, PUSH, POP}
    ensures ParseLine([first, t] + rest) == None
  {
    var line := [first, t] + rest;
    assert line[0] == first && line[1..] == [t] + rest && line[1..][0] == t;
    NoOperandRead([t] + rest);
    hide ParseOperand, NumberBytes, QuotedText;
  }

  lemma NoOperandRead(ts: seq<Token>)
    requires ts != [] && !ts[0].sym.Register? && !ts[0].sym.Number? && ts[0].sym !in {LabelIdx, LParen, LCurly}
    ensures ParseOperand(ts) == None
  {
  }

  // ---------- control ----------

  /** Jumps take a number or a label, CALL a label only, RET nothing or a number, ENTER a number;
      what follows is ignored. Numbers are truncated to the width of their operand. */
  lemma ControlAccepted(first: Token, t: Token, rest: seq<Token>)
    ensures first.sym.JumpSym? ==>
              ParseLine([first, t] + rest) == (
                if t.sym.Number? then Some(JumpTo(first.sym.cond, Abs(t.value % 65536)))
                else if t.sym == LabelRef then Some(JumpTo(first.sym.cond, Lab(t.text[1..], 0)))
                else None)
    ensures first.sym == CALL ==>
              ParseLine([first, t] + rest) == (
                if t.sym == LabelRef then Some(CallTo(t.text[1..])) else None)
    ensures first.sym == RET ==>
              ParseLine([first, t] + rest) == (
                if t.sym == Comment then Some(Return)
                else if t.sym.Number? then Some(ReturnPop(t.value % 256))
                else None)
    ensures first.sym == ENTER ==>
              ParseLine([first, t] + rest) == (
                if t.sym.Number? then Some(EnterFrame(t.value % 256)) else None)
    ensures first.sym.PlainSym? ==>
              ParseLine([first, t] + rest) == (
                if t.sym == Comment then Some(Plain(first.sym.op)) else None)
  {
    hide ParseOperand, NumberBytes, QuotedText;
    var line := [first, t] + rest;
    assert line[0] == first && line[1..] == [t] + rest && line[1..][0] == t;
  }

  /** Alone on their lines, RET and the instructions without operands are complete and the others
      are not. */
  lemma AloneAccepted(first: Token)
    ensures first.sym == RET ==> ParseLine([first]) == Some(Return)
    ensures first.sym.PlainSym? ==> ParseLine([first]) == Some(Plain(first.sym.op))
    ensures first.sym.JumpSym? || first.sym in {CALL, ENTER, JEXT, PUSH, POP, LOAD, STORE, XCH} ==>
              ParseLine([first]) == None
    ensures first.sym.AluSym? || first.sym.UnarySym? || first.sym.WideSym? ==> ParseLine([first]) == None
  {
    hide NumberBytes, QuotedText;
  }

  /** JEXT takes a number, a comma, and a number or a label. */
  lemma ExtAccepted(first: Token, n: Token, comma: Token, t: Token, rest: seq<Token>)
    requires first.sym == JEXT
    ensures ParseLine([first, n, comma, t] + rest) ==
              if !n.sym.Number? || comma.sym != Comma then None
              else if t.sym.Number? then Some(JumpExtTo(n.value % 256, Abs(t.value % 65536)))
              else if t.sym == LabelRef then Some(JumpExtTo(n.value % 256, Lab(t.text[1..], 0)))
              else None
  {
    hide ParseOperand, NumberBytes, QuotedText;
    var line := [first, n, comma, t] + rest;
    assert line[0] == first && line[1..] == [n, comma, t] + rest;
  }

  // ---------- data and definitions ----------

  /** The emitted bytes of the first k numbers are their values modulo 256. */
  lemma {:induction false} NumbersEmitted(ts: seq<Token>, k: nat)
    requires k <= |ts| && (forall i :: 0 <= i < k ==> ts[i].sym.Number?) && (k < |ts| ==> !ts[k].sym.Number?)
    ensures |NumberBytes(ts)| == k && forall i :: 0 <= i < k ==> NumberBytes(ts)[i] == ts[i].value % 256
    decreases k
  {
    if k > 0 {
      NumbersEmitted(ts[1..], k - 1);
    }
  }

  /** A line that starts with a number is data: the numbers up to the first other token. */
  lemma NumbersAccepted(line: seq<Token>, k: nat)
    requires 0 < k <= |line| && (forall i :: 0 <= i < k ==> line[i].sym.Number?)
    requires k < |line| ==> !line[k].sym.Number?
    ensures ParseLine(line).Some? && ParseLine(line).value.Bytes?
    ensures var bs := ParseLine(line).value.bs; |bs| == k && forall i :: 0 <= i < k ==> bs[i] == line[i].value % 256
  {
    hide NumberBytes, ParseOperand;
    NumbersEmitted(line, k);
  }

  /** A quotation is the codes of its characters, without the quotes. */
  lemma QuotationAccepted(t: Token, w: string, rest: seq<Token>)
    requires t.sym == QuotedBytes && t.text == "\"" + w + "\""
    ensures ParseLine([t] + rest).Some? && ParseLine([t] + rest).value.Bytes?
    ensures var bs := ParseLine([t] + rest).value.bs;
            |bs| == |w| && forall i :: 0 <= i < |w| ==> bs[i] == (w[i] as int) % 256
  {
    hide ParseOperand, NumberBytes;
    var line := [t] + rest;
    assert line[0] == t && t.text[1..|t.text| - 1] == w;
  }

  /** A label in front of a colon is defined, whatever follows; a label, an equals sign and a number
      define a constant. */
  lemma DefinitionAccepted(t: Token, w: string, rest: seq<Token>)
    ensures t.sym == LabelDef && t.text == w + ":" ==> ParseLine([t] + rest) == Some(Define(w))
    ensures t.sym == LabelRef && t.text == "." + w ==>
              ParseLine([t] + rest) == (
                if |rest| >= 2 && rest[0].sym == Equals && rest[1].sym.Number? then Some(Constant(w, rest[1].value))
                else None)
  {
    hide ParseOperand, NumberBytes, QuotedText;
    var line := [t] + rest;
    assert line[0] == t && line[1..] == rest;
    assert t.text == w + ":" ==> t.text[..|t.text| - 1] == w;
    assert t.text == "." + w ==> t.text[1..] == w;
  }
}
