/** Tokens, the statements they spell, and which statements the assembler accepts. */
module Syntax {
  import opened Words
  import opened Isa
  import opened Encoding

  datatype Option<+T> = None | Some(value: T)

  /** The operations written without operands. */
  type PlainOp = op: Op | op in {Noop, Halt, Ei, Di, Et, Dt, Reset, Leave} witness Noop

  /** The token kinds, those the assembler treats alike grouped by the data that tells them apart. */
  datatype Sym =
    | PlainSym(op: PlainOp)
    | LOAD | STORE | XCH
    | AluSym(alu: AluFn) | UnarySym(unary: UnaryFn) | WideSym(wide: WideFn)
    | JumpSym(cond: Cond) | JEXT
    | PUSH | POP | CALL | RET | ENTER
    | Register(mode: Mode) | SP | PC
    | Comma | QuotedBytes | LabelRef | LabelDef | LabelIdx | Comment | Unknown
    | Number(radix: nat)
    | Plus | Minus | Equals | LSquare | RSquare | LParen | RParen | LCurly | RCurly

  /** A token: its kind, its text, which is never empty, and for a number the value
      `parse_immediate` gives it. */
  datatype RawToken = Token(sym: Sym, text: string, value: nat)

  type Token = t: RawToken | t.text != "" witness RawToken.Token(Unknown, "?", 0)

  // ---------- statements ----------

  datatype Base = Absolute | ByHL | ByL | ByBP

  /** A memory expression: at most one register plus a displacement. */
  datatype MemExpr = MemExpr(base: Base, disp: Word)

  datatype Operand =
    | Reg(mode: Mode)
    | Immediate(v: nat)
    | Memory(expr: MemExpr)
    | Labelled(name: string, index: MemExpr)
    | Local(disp: Word)

  datatype Stmt =
    | Plain(op: PlainOp)
    | Use(kind: Kind, operand: Operand)
    | UseWide(wide: WideFn, operand: Operand)
    | JumpTo(cond: Cond, target: Target)
    | JumpExtTo(mask: Byte, target: Target)
    | PushOperand(operand: Operand)
    | PopOperand(operand: Operand)
    | CallTo(name: string)
    | Return
    | ReturnPop(n: Byte)
    | EnterFrame(n: Byte)
    | Bytes(bs: seq<Byte>)
    | Define(name: string)
    | Constant(name: string, v: nat)
    | Blank

  /** The operands each mnemonic takes. */
  predicate Accepts(kind: Kind, o: Operand) {
    match o
    case Reg(m) =>
      || m in {R0, R1, H, L}
      || (m == Acc && Exists(Do(kind, Acc)))
      || (m == HL && kind.Unary?)
    case Immediate(_) => !kind.Store? && !kind.Unary?
    case Memory(e) => e.base != ByBP
    case Labelled(_, e) => e.base == Absolute || e.base == ByHL
    case Local(_) => true
  }

  predicate AcceptsWide(o: Operand) {
    match o
    case Reg(m) => m in {Acc, R0, R1}
    case Immediate(_) => true
    case _ => false
  }

  predicate AcceptsPop(o: Operand) {
    o.Reg? && o.mode in {Acc, R0, R1, H, L, BP, FLAGS}
  }

  predicate AcceptsPush(o: Operand) { o.Immediate? || AcceptsPop(o) }

  predicate Legal(st: Stmt) {
    match st
    case Use(kind, o) => Accepts(kind, o)
    case UseWide(_, o) => AcceptsWide(o)
    case PushOperand(o) => AcceptsPush(o)
    case PopOperand(o) => AcceptsPop(o)
    case _ => true
  }

  // ---------- memory expressions ----------

  function Signed(minus: bool, v: int): int { if minus then -v else v }

  /** One operand of an expression, applied with the sign in front of it. A sign in front of a
      register is ignored, and a second register is an error. */
  function ApplyTerm(e: MemExpr, minus: bool, t: Token): Option<MemExpr> {
    match t.sym
    case Number(_) => Some(e.(disp := ToWord(e.disp + Signed(minus, t.value))))
    case Register(L) => if e.base == Absolute then Some(e.(base := ByL)) else None
    case Register(HL) => if e.base == Absolute then Some(e.(base := ByHL)) else None
    case Register(BP) => if e.base == Absolute then Some(e.(base := ByBP)) else None
    case _ => None
  }

  predicate IsSign(s: Sym) { s == Plus || s == Minus }

  /** Operands and the tokens after them, up to the closing bracket. */
  function ParseTerms(ts: seq<Token>, minus: bool, e: MemExpr, end: Sym): Option<MemExpr>
    decreases |ts|
  {
    if |ts| < 2 then None
    else
      match ApplyTerm(e, minus, ts[0])
      case None => None
      case Some(e') =>
        if IsSign(ts[1].sym) then ParseTerms(ts[2..], ts[1].sym == Minus, e', end)
        else if ts[1].sym == end then Some(e')
        else None
  }

  /** `parse_mem_expr`: the tokens after the opening bracket. */
  function ParseExpr(ts: seq<Token>, end: Sym): Option<MemExpr> {
    if ts != [] && IsSign(ts[0].sym) then ParseTerms(ts[1..], ts[0].sym == Minus, MemExpr(Absolute, 0), end)
    else ParseTerms(ts, false, MemExpr(Absolute, 0), end)
  }

  // ---------- lines ----------

  /** The operand a mnemonic is followed by, whether or not it accepts it. */
  function ParseOperand(ts: seq<Token>): Option<Operand> {
    if ts == [] then None
    else
      match ts[0].sym
      case Register(m) => Some(Reg(m))
      case Number(_) => Some(Immediate(ts[0].value))
      case LabelIdx =>
        if |ts| < 2 || ts[1].sym != LSquare then None
        else (match ParseExpr(ts[2..], RSquare)
              case None => None
              case Some(e) => Some(Labelled(ts[0].text, e)))
      case LParen =>
        (match ParseExpr(ts[1..], RParen)
         case None => None
         case Some(e) => Some(Memory(e)))
      case LCurly =>
        (match ParseExpr(ts[1..], RCurly)
         case None => None
         case Some(e) => if e.base == ByBP then Some(Local(e.disp)) else None)
      case _ => None
  }

  /** A label reference's text starts with a dot. */
  function RefName(t: Token): string { t.text[1..] }

  /** A label definition's text ends with a colon. */
  function DefName(t: Token): string { t.text[..|t.text| - 1] }

  function ParseTarget(t: Token): Option<Target> {
    match t.sym
    case Number(_) => Some(Abs(ToWord(t.value)))
    case LabelRef => Some(Lab(RefName(t), 0))
    case _ => None
  }

  /** The leading run of numbers of a data line, truncated to bytes. */
  function NumberBytes(ts: seq<Token>): seq<Byte> {
    if ts == [] || !ts[0].sym.Number? then [] else [ToByte(ts[0].value)] + NumberBytes(ts[1..])
  }

  function TextBytes(s: string): (bs: seq<Byte>)
    ensures |bs| == |s|
  {
    seq(|s|, i requires 0 <= i < |s| => ToByte(s[i] as int))
  }

  /** The bytes between the quotes: the first and last character of the text are dropped. */
  function QuotedText(t: Token): seq<Byte> {
    if |t.text| < 2 then [] else TextBytes(t.text[1..|t.text| - 1])
  }

  predicate LineEnds(ts: seq<Token>) { ts == [] || ts[0].sym == Comment }

  function Checked(st: Stmt): Option<Stmt> { if Legal(st) then Some(st) else None }

  function MapOperand(o: Option<Operand>, f: Operand -> Stmt): Option<Stmt> {
    if o.None? then None else Checked(f(o.value))
  }

  /** The statement a line spells, or none where the assembler reports an error. Tokens after a
      complete statement are ignored, except after operations without operands. */
  function ParseLine(line: seq<Token>): (r: Option<Stmt>)
    ensures r.Some? ==> Legal(r.value)
  {
    if line == [] then Some(Blank)
    else
      var ts := line[1..];
      match line[0].sym
      case PlainSym(op) => if LineEnds(ts) then Some(Plain(op)) else None
      case LOAD => MapOperand(ParseOperand(ts), o => Use(Load, o))
      case STORE => MapOperand(ParseOperand(ts), o => Use(Store, o))
      case XCH => MapOperand(ParseOperand(ts), o => Use(Xch, o))
      case AluSym(fn) => MapOperand(ParseOperand(ts), o => Use(Alu(fn), o))
      case UnarySym(fn) => MapOperand(ParseOperand(ts), o => Use(Unary(fn), o))
      case WideSym(fn) => MapOperand(ParseOperand(ts), o => UseWide(fn, o))
      case PUSH => MapOperand(ParseOperand(ts), o => PushOperand(o))
      case POP => MapOperand(ParseOperand(ts), o => PopOperand(o))
      case JumpSym(c) =>
        if ts == [] then None
        else (match ParseTarget(ts[0]) case None => None case Some(t) => Some(JumpTo(c, t)))
      case JEXT =>
        if |ts| < 3 || !ts[0].sym.Number? || ts[1].sym != Comma then None
        else (match ParseTarget(ts[2])
              case None => None
              case Some(t) => Some(JumpExtTo(ToByte(ts[0].value), t)))
      case CALL => if ts != [] && ts[0].sym == LabelRef then Some(CallTo(RefName(ts[0]))) else None
      case RET =>
        if LineEnds(ts) then Some(Return)
        else if ts[0].sym.Number? then Some(ReturnPop(ToByte(ts[0].value)))
        else None
      case ENTER => if ts != [] && ts[0].sym.Number? then Some(EnterFrame(ToByte(ts[0].value))) else None
      case Number(_) => Some(Bytes(NumberBytes(line)))
      case QuotedBytes => Some(Bytes(QuotedText(line[0])))
      case LabelDef => Some(Define(DefName(line[0])))
      case LabelRef =>
        if |ts| >= 2 && ts[0].sym == Equals && ts[1].sym.Number?
        then Some(Constant(RefName(line[0]), ts[1].value)) else None
      case Comment => Some(Blank)
      case _ => None
  }
}
