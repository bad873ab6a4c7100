/** The instruction set: operations, addressing modes, and the two tables that must agree,
    the `Opcode` enumeration the assembler emits from and `OP_TABLE`, which the CPU dispatches on. */
module Isa {
  import opened Words

  /** The operand of an instruction variant. `Imm` is the byte after the opcode, `MemImm` the
      memory byte addressed by the word after the opcode, `MemL` and `MemHL` memory addressed by
      L and by the HL pair, `Frame` the stack byte at BP minus the byte after the opcode. */
  datatype Mode = Imm | Acc | MemL | MemHL | R0 | R1 | L | H | HL | BP | FLAGS | Frame | MemImm

  datatype AluFn = ADD | ADC | SUB | SBC | AND | OR | XOR | SHL | SHR | ROL | ROR | CMP | MIN | MAX

  datatype UnaryFn = INC | DEC | NEG | NOT

  datatype WideFn = ADDW | SUBW | MULW | DIVW

  datatype Cond = Always | IfSign | IfNotSign | IfZero | IfNotZero | IfCarry | IfNotCarry

  /** What an instruction with one byte operand does with it. */
  datatype Kind = Load | Store | Xch | Alu(alu: AluFn) | Unary(unary: UnaryFn)

  datatype Op =
    | Noop | Halt | Ei | Di | Et | Dt | Clra | Reset | Leave
    | Do(kind: Kind, mode: Mode)
    | UnaryHL(unary: UnaryFn)
    | Wide(wide: WideFn, wideMode: Mode)
    | Jump(cond: Cond)
    | JumpExt
    | Push(pushed: Mode)
    | Pop(popped: Mode)
    | Call | Ret | RetI | Enter
    | LoadLI | LoadHLI | AddLI | AddHLI

  predicate IsShift(f: AluFn) { f in {SHL, SHR, ROL, ROR} }

  /** The variants that exist: the members of the `Opcode` enumeration. */
  predicate Exists(op: Op) {
    match op
    case Do(Load, m) => m in {Imm, MemImm, MemL, MemHL, R0, R1, L, H, Frame}
    case Do(Store, m) => m in {MemImm, MemL, MemHL, R0, R1, L, H, Frame}
    case Do(Xch, m) => m in {MemImm, MemL, MemHL, R0, R1, L, H, Frame}
    case Do(Alu(f), m) =>
      m in {Imm, MemL, MemHL, R0, R1, L, H, Frame} || (m == Acc && !IsShift(f) && f != MIN && f != MAX)
    case Do(Unary(_), m) => m in {Acc, MemL, MemHL, R0, R1, L, H, Frame}
    case Wide(_, m) => m in {Imm, Acc, R0, R1}
    case Push(m) => m in {Imm, Acc, R0, R1, L, H, BP, FLAGS}
    case Pop(m) => m in {MemImm, Acc, R0, R1, L, H, BP, FLAGS}
    case _ => true
  }

  // ---------- the Opcode enumeration ----------

  /** The column of a variant in the rows of eight the tables are laid out in. */
  function Column(m: Mode): nat {
    match m
    case Imm | HL | MemImm | Frame | BP | FLAGS => 0
    case Acc => 1
    case MemL => 2
    case MemHL => 3
    case R0 => 4
    case R1 => 5
    case L => 6
    case H => 7
  }

  function AluBase(f: AluFn): Byte {
    match f
    case ADD => 32 case ADC => 40 case SUB => 48 case SBC => 56
    case AND => 96 case OR => 104 case XOR => 112
    case SHL => 120 case SHR => 128 case ROL => 136 case ROR => 144
    case CMP => 176 case MIN => 208 case MAX => 216
  }

  function AluFrame(f: AluFn): Byte {
    match f
    case ADD => 225 case ADC => 226 case SUB => 227 case SBC => 228
    case AND => 233 case OR => 234 case XOR => 235
    case SHL => 236 case SHR => 237 case ROL => 238 case ROR => 239
    case CMP => 217 case MIN => 121 case MAX => 129
  }

  function UnaryBase(f: UnaryFn): Byte {
    match f case INC => 64 case DEC => 72 case NEG => 80 case NOT => 88
  }

  function UnaryFrame(f: UnaryFn): Byte {
    match f case INC => 229 case DEC => 230 case NEG => 231 case NOT => 232
  }

  function WideBase(f: WideFn): Byte {
    match f case ADDW => 152 case SUBW => 156 case MULW => 160 case DIVW => 164
  }

  function WideColumn(m: Mode): nat {
    match m case Acc => 1 case R0 => 2 case R1 => 3 case _ => 0
  }

  function JumpColumn(c: Cond): nat {
    match c
    case Always => 0 case IfSign => 1 case IfNotSign => 2 case IfZero => 3
    case IfNotZero => 4 case IfCarry => 5 case IfNotCarry => 6
  }

  function PushColumn(m: Mode): nat {
    match m
    case Acc => 1 case R0 => 2 case R1 => 3 case L => 4 case H => 5 case BP => 6 case FLAGS => 7
    case _ => 0
  }

  /** The number the enumeration gives each variant. */
  function Opcode(op: Op): Byte
    requires Exists(op)
  {
    match op
    case Noop => 0 case Halt => 1 case Ei => 2 case Di => 3
    case Et => 4 case Dt => 5 case Clra => 6 case Reset => 7
    case Do(Load, m) =>
      if m == Imm then 8 else if m == MemImm then 9 else if m == Frame then 204 else 8 + Column(m)
    case Do(Store, m) =>
      if m == MemImm then 17 else if m == Frame then 205 else 16 + Column(m)
    case Do(Xch, m) =>
      if m == MemImm then 25 else if m == Frame then 224 else 24 + Column(m)
    case Do(Alu(f), m) => if m == Frame then AluFrame(f) else AluBase(f) + Column(m)
    case Do(Unary(f), m) => if m == Frame then UnaryFrame(f) else UnaryBase(f) + Column(m)
    case UnaryHL(f) => UnaryBase(f)
    case Wide(f, m) => WideBase(f) + WideColumn(m)
    case Jump(c) => 168 + JumpColumn(c)
    case JumpExt => 175
    case Push(m) => 184 + PushColumn(m)
    case Pop(m) => 192 + PushColumn(m)
    case Call => 200 case Ret => 201 case Enter => 202 case Leave => 203
    case AddLI => 206 case AddHLI => 207 case RetI => 209
    case LoadLI => 16 case LoadHLI => 24
  }

  /** The opcode of HALT. */
  const HALT: Byte := 1

  // ---------- the dispatch table ----------

  /** The six common columns of a row whose first two entries vary. */
  function Row(kind: Kind, c: nat, first: Op, second: Op): Op {
    match c
    case 0 => first
    case 1 => second
    case 2 => Do(kind, MemL)
    case 3 => Do(kind, MemHL)
    case 4 => Do(kind, R0)
    case 5 => Do(kind, R1)
    case 6 => Do(kind, L)
    case _ => Do(kind, H)
  }

  function AluRow(f: AluFn, c: nat): Op {
    Row(Alu(f), c, Do(Alu(f), Imm), Do(Alu(f), Acc))
  }

  function UnaryRow(f: UnaryFn, c: nat): Op {
    Row(Unary(f), c, UnaryHL(f), Do(Unary(f), Acc))
  }

  function WideRow(low: WideFn, high: WideFn, c: nat): Op {
    var f := if c < 4 then low else high;
    match c % 4
    case 0 => Wide(f, Imm)
    case 1 => Wide(f, Acc)
    case 2 => Wide(f, R0)
    case _ => Wide(f, R1)
  }

  /** The table the CPU dispatches on, in the thirty-two rows of eight it is written in.
      Numbers without an operation of their own execute as NOOP. */
  function Decode(b: Byte): Op { Table(b / 8, b % 8) }

  function Table(r: nat, c: nat): Op {
    match r
    case 0 => (match c
               case 0 => Noop case 1 => Halt case 2 => Ei case 3 => Di
               case 4 => Et case 5 => Dt case 6 => Clra case _ => Reset)
    case 1 => Row(Load, c, Do(Load, Imm), Do(Load, MemImm))
    case 2 => Row(Store, c, LoadLI, Do(Store, MemImm))
    case 3 => Row(Xch, c, LoadHLI, Do(Xch, MemImm))
    case 4 => AluRow(ADD, c)
    case 5 => AluRow(ADC, c)
    case 6 => AluRow(SUB, c)
    case 7 => AluRow(SBC, c)
    case 8 => UnaryRow(INC, c)
    case 9 => UnaryRow(DEC, c)
    case 10 => UnaryRow(NEG, c)
    case 11 => UnaryRow(NOT, c)
    case 12 => AluRow(AND, c)
    case 13 => AluRow(OR, c)
    case 14 => AluRow(XOR, c)
    case 15 => Row(Alu(SHL), c, Do(Alu(SHL), Imm), Do(Alu(MIN), Frame))
    case 16 => Row(Alu(SHR), c, Do(Alu(SHR), Imm), Do(Alu(MAX), Frame))
    case 17 => Row(Alu(ROL), c, Do(Alu(ROL), Imm), Noop)
    case 18 => Row(Alu(ROR), c, Do(Alu(ROR), Imm), Noop)
    case 19 => WideRow(ADDW, SUBW, c)
    case 20 => WideRow(MULW, DIVW, c)
    case 21 => (match c
                case 0 => Jump(Always) case 1 => Jump(IfSign) case 2 => Jump(IfNotSign)
                case 3 => Jump(IfZero) case 4 => Jump(IfNotZero) case 5 => Jump(IfCarry)
                case 6 => Jump(IfNotCarry) case _ => JumpExt)
    case 22 => AluRow(CMP, c)
    case 23 => (match c
                case 0 => Push(Imm) case 1 => Push(Acc) case 2 => Push(R0) case 3 => Push(R1)
                case 4 => Push(L) case 5 => Push(H) case 6 => Push(BP) case _ => Push(FLAGS))
    case 24 => (match c
                case 0 => Pop(MemImm) case 1 => Pop(Acc) case 2 => Pop(R0) case 3 => Pop(R1)
                case 4 => Pop(L) case 5 => Pop(H) case 6 => Pop(BP) case _ => Pop(FLAGS))
    case 25 => (match c
                case 0 => Call case 1 => Ret case 2 => Enter case 3 => Leave
                case 4 => Do(Load, Frame) case 5 => Do(Store, Frame) case 6 => AddLI case _ => AddHLI)
    case 26 => Row(Alu(MIN), c, Do(Alu(MIN), Imm), RetI)
    case 27 => Row(Alu(MAX), c, Do(Alu(MAX), Imm), Do(Alu(CMP), Frame))
    case 28 => (match c
                case 0 => Do(Xch, Frame) case 1 => Do(Alu(ADD), Frame) case 2 => Do(Alu(ADC), Frame)
                case 3 => Do(Alu(SUB), Frame) case 4 => Do(Alu(SBC), Frame)
                case 5 => Do(Unary(INC), Frame) case 6 => Do(Unary(DEC), Frame) case _ => Do(Unary(NEG), Frame))
    case 29 => (match c
                case 0 => Do(Unary(NOT), Frame) case 1 => Do(Alu(AND), Frame) case 2 => Do(Alu(OR), Frame)
                case 3 => Do(Alu(XOR), Frame) case 4 => Do(Alu(SHL), Frame) case 5 => Do(Alu(SHR), Frame)
                case 6 => Do(Alu(ROL), Frame) case _ => Do(Alu(ROR), Frame))
    case _ => Noop
  }

  lemma HaltOpcode()
    ensures Opcode(Halt) == HALT
  {
  }

  /** Every variant's number dispatches to that variant. */
  lemma DecodeOpcode(op: Op)
    requires Exists(op)
    ensures Decode(Opcode(op)) == op
  {
    match op
    case Do(Alu(f), m) => DecodeAlu(f, m);
    case Do(kind, m) => DecodeDo(kind, m);
    case Wide(f, m) => DecodeWide(f, m);
    case Push(_) | Pop(_) => DecodeStack(op);
    case _ => DecodePlain(op);
  }

  lemma DecodeAlu(f: AluFn, m: Mode)
    requires Exists(Do(Alu(f), m))
    ensures Decode(Opcode(Do(Alu(f), m))) == Do(Alu(f), m)
  {
  }

  lemma DecodeDo(kind: Kind, m: Mode)
    requires Exists(Do(kind, m)) && !kind.Alu?
    ensures Decode(Opcode(Do(kind, m))) == Do(kind, m)
  {
  }

  lemma DecodeWide(f: WideFn, m: Mode)
    requires Exists(Wide(f, m))
    ensures Decode(Opcode(Wide(f, m))) == Wide(f, m)
  {
  }

  lemma DecodeStack(op: Op)
    requires Exists(op) && (op.Push? || op.Pop?)
    ensures Decode(Opcode(op)) == op
  {
  }

  lemma DecodePlain(op: Op)
    requires !op.Do? && !op.Wide? && !op.Push? && !op.Pop?
    ensures Decode(Opcode(op)) == op
  {
  }

  /** The numbers the enumeration leaves unused. */
  predicate Unused(b: Byte) { b == 137 || b == 145 || b >= 240 }

  /** Conversely, every used number is the number of the variant it dispatches to, so the two
      tables are mutually inverse. */
  lemma OpcodeDecode(b: Byte)
    ensures Exists(Decode(b))
    ensures if Unused(b) then Decode(b) == Noop else Opcode(Decode(b)) == b
  {
    var r, c := b / 8, b % 8;
    assert b == 8 * r + c;
    TableAgrees(r, c);
  }

  ghost predicate Agrees(op: Op, b: Byte) {
    Exists(op) && if Unused(b) then op == Noop else Opcode(op) == b
  }

  lemma TableAgrees(r: nat, c: nat)
    requires r < 32 && c < 8
    ensures Agrees(Table(r, c), 8 * r + c)
  {
    hide Agrees;
    if 4 <= r < 8 || 12 <= r < 15 || r == 22 {
      var f := match r
        case 4 => ADD case 5 => ADC case 6 => SUB case 7 => SBC
        case 12 => AND case 13 => OR case 14 => XOR case _ => CMP;
      AluRowAgrees(f, c);
    } else if 8 <= r < 12 {
      UnaryRowAgrees([INC, DEC, NEG, NOT][r - 8], c);
    } else if r < 4 {
      MoveRowAgrees(r, c);
    } else if 15 <= r < 19 {
      ShiftRowAgrees(r, c);
    } else if 26 <= r < 28 {
      MinMaxRowAgrees(r, c);
    } else if 19 <= r < 21 || 28 <= r {
      WideRowAgrees(r, c);
    } else {
      StackRowAgrees(r, c);
    }
  }

  lemma AluRowAgrees(f: AluFn, c: nat)
    requires !IsShift(f) && f != MIN && f != MAX && c < 8
    ensures Agrees(AluRow(f, c), AluBase(f) + c)
  {
  }

  lemma UnaryRowAgrees(f: UnaryFn, c: nat)
    requires c < 8
    ensures Agrees(UnaryRow(f, c), UnaryBase(f) + c)
  {
  }

  lemma MoveRowAgrees(r: nat, c: nat)
    requires r < 4 && c < 8
    ensures Agrees(Table(r, c), 8 * r + c)
  {
  }

  lemma ShiftRowAgrees(r: nat, c: nat)
    requires 15 <= r < 19 && c < 8
    ensures Agrees(Table(r, c), 8 * r + c)
  {
  }

  lemma MinMaxRowAgrees(r: nat, c: nat)
    requires 26 <= r < 28 && c < 8
    ensures Agrees(Table(r, c), 8 * r + c)
  {
  }

  lemma WideRowAgrees(r: nat, c: nat)
    requires (19 <= r < 21 || 28 <= r < 32) && c < 8
    ensures Agrees(Table(r, c), 8 * r + c)
  {
  }

  lemma StackRowAgrees(r: nat, c: nat)
    requires (r == 21 || 23 <= r < 26) && c < 8
    ensures Agrees(Table(r, c), 8 * r + c)
  {
  }

  /** The bytes an instruction with a one-byte operand occupies. */
  function Size(m: Mode): nat {
    if m == Imm || m == Frame then 2 else if m == MemImm then 3 else 1
  }

  /** The number of bytes the assembler emits for an instruction. */
  function Length(op: Op): nat {
    match op
    case Do(_, m) => Size(m)
    case Wide(_, m) => if m == Imm then 3 else 1
    case Jump(_) | Call | LoadHLI | AddHLI => 3
    case JumpExt => 4
    case Push(m) => if m == Imm then 2 else 1
    case Pop(m) => if m == MemImm then 3 else 1
    case RetI | Enter | LoadLI | AddLI => 2
    case _ => 1
  }
}
