/** The behaviour of the CPU as a function on machine states. The C program leaves some
    executions undefined (operand fetches that wrap past address 65535, division by zero,
    oversized shifts, signed overflow); `Defined` says exactly which ones it defines. */
module Machine {
  import opened Words
  import opened Isa

  const PROGRAM_START: Word := 256

  type Memory = s: seq<Byte> | |s| == 65536 witness Zeros(65536)
  type Stack = s: seq<Byte> | |s| == 256 witness Zeros(256)

  // ---------- flags ----------

  /** The flags register, lowest bit first: carry, auxiliary, zero, sign, trap, overflow,
      interrupt, and the unnamed top bit. */
  datatype Flags = Flags(cf: bool, af: bool, zf: bool, sf: bool, tf: bool, of: bool, itf: bool, top: bool)

  const NO_FLAGS := Flags(false, false, false, false, false, false, false, false)

  function FlagBits(f: Flags): seq<bool> { [f.cf, f.af, f.zf, f.sf, f.tf, f.of, f.itf, f.top] }

  /** The byte PUSH FLAGS stores. */
  function FlagsByte(f: Flags): Byte {
    BitsRoundTrip(FlagBits(f));
    assert Pow2(8) == 256;
    FromBits(FlagBits(f))
  }

  /** The flags POP FLAGS restores from a byte. */
  function ByteFlags(b: Byte): Flags {
    var bits := ToBits(b, 8);
    Flags(bits[0], bits[1], bits[2], bits[3], bits[4], bits[5], bits[6], bits[7])
  }

  lemma FlagsOfByte(f: Flags)
    ensures ByteFlags(FlagsByte(f)) == f
  {
    hide ToBits, FromBits;
    BitsRoundTrip(FlagBits(f));
    assert ToBits(FlagsByte(f), 8) == FlagBits(f);
  }

  lemma ByteOfFlags(b: Byte)
    ensures FlagsByte(ByteFlags(b)) == b
  {
    hide ToBits, FromBits;
    assert b < Pow2(8) by { assert Pow2(8) == 256; }
    NumberRoundTrip(b, 8);
    assert FlagBits(ByteFlags(b)) == ToBits(b, 8);
  }

  lemma NoFlagsByte()
    ensures FlagsByte(NO_FLAGS) == 0
  {
    assert FlagBits(NO_FLAGS) == NoBitsSet(8);
    NothingSet(8);
  }

  function NoBitsSet(n: nat): (bits: seq<bool>)
    ensures |bits| == n
  {
    seq(n, _ => false)
  }

  lemma {:induction false} NothingSet(n: nat)
    ensures FromBits(NoBitsSet(n)) == 0
    decreases n
  {
    if n > 0 {
      NothingSet(n - 1);
      assert NoBitsSet(n)[1..] == NoBitsSet(n - 1);
    }
  }

  /** `UPDATE_ZF(v); UPDATE_SF(v)` for a byte. */
  function ZeroSign(f: Flags, v: Byte): Flags { f.(zf := v == 0, sf := v >= 128) }

  // ---------- states ----------

  datatype State = State(pc: Word, acc: Byte, r0: Byte, r1: Byte, h: Byte, l: Byte,
                         f: Flags, sp: Byte, bp: Byte, stack: Stack, mem: Memory)

  /** The state `initCpu` sets up. */
  function Initial(): State {
    State(PROGRAM_START, 0, 0, 0, 0, 0, NO_FLAGS, 0, 0, Zeros(256), Zeros(65536))
  }

  function HLof(s: State): Word { Join(s.h, s.l) }

  function SetHL(s: State, w: Word): State { s.(h := High(w), l := Low(w)) }

  // ---------- places ----------

  /** Where an instruction's operand lives. */
  datatype Place =
    | Value(v: Byte) | AccReg | R0Reg | R1Reg | LReg | HReg
    | Cell(addr: Word) | Slot(idx: Byte)

  function Get(p: Place, s: State): Byte {
    match p
    case Value(v) => v
    case AccReg => s.acc
    case R0Reg => s.r0
    case R1Reg => s.r1
    case LReg => s.l
    case HReg => s.h
    case Cell(a) => s.mem[a]
    case Slot(i) => s.stack[i]
  }

  function Put(p: Place, v: Byte, s: State): State {
    match p
    case Value(_) => s
    case AccReg => s.(acc := v)
    case R0Reg => s.(r0 := v)
    case R1Reg => s.(r1 := v)
    case LReg => s.(l := v)
    case HReg => s.(h := v)
    case Cell(a) => s.(mem := s.mem[a := v])
    case Slot(i) => s.(stack := s.stack[i := v])
  }

  /** Writing a place leaves every other part of the state alone. */
  lemma PutKeeps(p: Place, v: Byte, s: State, g: Flags)
    ensures Put(p, v, s).(f := g) == Put(p, v, s.(f := g))
    ensures Put(p, v, s).f == s.f && Put(p, v, s).pc == s.pc
    ensures Put(p, v, s).sp == s.sp && Put(p, v, s).bp == s.bp
    ensures Put(p, v, s).acc == if p == AccReg then v else s.acc
  {
  }

  // ---------- arithmetic ----------

  /** Shift counts and products the C expressions give a value to: a left shift must be by less
      than 32 and stay below 2^31, a right shift must be by less than 32. */
  predicate AluDefined(fn: AluFn, a: Byte, v: Byte) {
    match fn
    case SHL | ROL => v < 32 && a * Pow2(v) < 0x8000_0000
    case SHR | ROR => v < 32
    case _ => true
  }

  function AluResult(fn: AluFn, a: Byte, v: Byte, f: Flags): (r: (Byte, Flags))
    requires AluDefined(fn, a, v)
  {
    match fn
    case ADD => var r := ToByte(a + v); (r, ZeroSign(f, r).(cf := r < v))
    case ADC =>
      var total := a + v + Bit(f.cf);
      (ToByte(total), ZeroSign(f, ToByte(total)).(cf := total >= 256))
    case SUB => var r := ToByte(a - v); (r, ZeroSign(f, r).(cf := r > v))
    case SBC =>
      var val := ToWord(v - (1 - Bit(f.cf)));
      var r := ToByte(a - val);
      (r, ZeroSign(f, r).(cf := a >= val))
    case AND => var r := AndByte(a, v); (r, ZeroSign(f, r))
    case OR => var r := OrByte(a, v); (r, ZeroSign(f, r))
    case XOR => var r := XorByte(a, v); (r, ZeroSign(f, r))
    case SHL => var r := ToByte(a * Pow2(v)); (r, ZeroSign(f, r))
    case SHR => var r := ToByte(a / Pow2(v)); (r, ZeroSign(f, r))
    case ROL => var r := OrByte(ToByte(a * Pow2(v)), ToByte(a / Pow2(-(v as int) % 8))); (r, ZeroSign(f, r))
    case ROR => var r := OrByte(ToByte(a / Pow2(v)), ToByte(a * Pow2(-(v as int) % 8))); (r, ZeroSign(f, r))
    case CMP => (a, ZeroSign(f, ToByte(a - v)))
    case MIN => var r := if v < a then v else a; (r, ZeroSign(f, r))
    case MAX => var r := if v > a then v else a; (r, ZeroSign(f, r))
  }

  function UnaryValue(fn: UnaryFn, v: Byte): Byte {
    match fn
    case INC => ToByte(v + 1)
    case DEC => ToByte(v - 1)
    case NEG => ToByte(0 - v)
    case NOT => 255 - v
  }

  function UnaryFlags(fn: UnaryFn, r: Byte, f: Flags): Flags {
    match fn
    case INC => ZeroSign(f, r).(cf := r == 0)
    case DEC => ZeroSign(f, r).(cf := r == 255)
    case NEG | NOT => ZeroSign(f, r)
  }

  function UnaryWord(fn: UnaryFn, w: Word): Word {
    match fn
    case INC => ToWord(w + 1)
    case DEC => ToWord(w - 1)
    case NEG => ToWord(0 - w)
    case NOT => 65535 - w
  }

  /** The HL forms take the sign from bit 7 of the result, not bit 15. */
  function UnaryWordFlags(fn: UnaryFn, r: Word, f: Flags): Flags {
    var g := f.(zf := r == 0, sf := Low(r) >= 128);
    match fn
    case INC => g.(cf := r == 0)
    case DEC => g.(cf := r == 65535)
    case NEG | NOT => g
  }

  predicate WideDefined(fn: WideFn, hl: Word, v: Word) {
    match fn
    case DIVW => v != 0
    case MULW => hl * v < 0x8000_0000
    case _ => true
  }

  function WideValue(fn: WideFn, hl: Word, v: Word): Word
    requires WideDefined(fn, hl, v)
  {
    match fn
    case ADDW => ToWord(hl + v)
    case SUBW => ToWord(hl - v)
    case MULW => ToWord(hl * v)
    case DIVW => ToWord(hl / v)
  }

  // ---------- what an instruction does with a place ----------

  predicate Performs(kind: Kind, p: Place, s: State) {
    kind.Alu? ==> AluDefined(kind.alu, s.acc, Get(p, s))
  }

  function Perform(kind: Kind, p: Place, s: State): State
    requires Performs(kind, p, s)
  {
    match kind
    case Load => var v := Get(p, s); s.(acc := v, f := ZeroSign(s.f, v))
    case Store => Put(p, s.acc, s).(f := ZeroSign(s.f, s.acc))
    case Xch => var v := Get(p, s); Put(p, s.acc, s.(acc := v, f := ZeroSign(s.f, v)))
    case Alu(fn) => var (a, g) := AluResult(fn, s.acc, Get(p, s), s.f); s.(acc := a, f := g)
    case Unary(fn) =>
      var v := UnaryValue(fn, Get(p, s));
      Put(p, v, s.(f := UnaryFlags(fn, v, s.f)))
  }

  function PerformUnaryHL(fn: UnaryFn, s: State): State {
    var w := UnaryWord(fn, HLof(s));
    SetHL(s, w).(f := UnaryWordFlags(fn, w, s.f))
  }

  function PerformWide(fn: WideFn, v: Word, s: State): State
    requires WideDefined(fn, HLof(s), v)
  {
    var w := WideValue(fn, HLof(s), v);
    SetHL(s, w).(f := s.f.(zf := w == 0, sf := High(w) >= 128))
  }

  function Holds(c: Cond, f: Flags): bool {
    match c
    case Always => true
    case IfSign => f.sf
    case IfNotSign => !f.sf
    case IfZero => f.zf
    case IfNotZero => !f.zf
    case IfCarry => f.cf
    case IfNotCarry => !f.cf
  }

  /** The four conditions of JEXT: any or all of the masked flags are 1 or 0. */
  function HoldsExt(mask: Byte, f: Flags): bool {
    var chosen := mask % 64;
    var on := And(FlagsByte(f) % 64, chosen);
    match mask / 64
    case 0 => on != 0
    case 1 => on == chosen
    case 2 => on == 0
    case _ => on != chosen
  }

  // ---------- the stack ----------

  function PushByte(v: Byte, s: State): State {
    s.(stack := s.stack[s.sp := v], sp := ToByte(s.sp + 1))
  }

  /** The byte POP takes. */
  function Top(s: State): Byte { s.stack[ToByte(s.sp - 1)] }

  function DropByte(s: State): State { s.(sp := ToByte(s.sp - 1)) }

  function PushWord(w: Word, s: State): State { PushByte(Low(w), PushByte(High(w), s)) }

  function TopWord(s: State): Word { Join(s.stack[ToByte(s.sp - 2)], s.stack[ToByte(s.sp - 1)]) }

  function PerformPush(v: Byte, s: State): State { PushByte(v, s).(f := ZeroSign(s.f, v)) }

  function PerformPop(p: Place, s: State): State {
    var v := Top(s);
    Put(p, v, DropByte(s)).(f := ZeroSign(s.f, v))
  }

  // ---------- instructions ----------

  /** Operand byte i of the instruction at PC. */
  function OperandByte(s: State, i: nat): Byte { s.mem[ToWord(s.pc + 1 + i)] }

  function OperandWord(s: State): Word { Join(OperandByte(s, 0), OperandByte(s, 1)) }

  /** Operands are read at negative offsets from the advanced PC, as `int`: the advanced PC must
      not have wrapped into the middle of the instruction. */
  predicate Fetches(s: State, len: nat) { ToWord(s.pc + len) >= len - 1 }

  function PlaceOf(m: Mode, s: State): Place {
    match m
    case Imm => Value(OperandByte(s, 0))
    case MemImm => Cell(OperandWord(s))
    case MemL => Cell(s.l)
    case MemHL => Cell(HLof(s))
    case Acc => AccReg
    case R0 => R0Reg
    case R1 => R1Reg
    case L => LReg
    case H => HReg
    case Frame => Slot(ToByte(s.bp - OperandByte(s, 0)))
    case _ => Value(0)
  }

  /** The operand as the C macros read it: at negative offsets from a PC already advanced. */
  function PlaceBefore(m: Mode, t: State): Place
    requires Reads(m, t)
  {
    match m
    case Imm => Value(t.mem[t.pc - 1])
    case MemImm => Cell(Join(t.mem[t.pc - 2], t.mem[t.pc - 1]))
    case Frame => Slot(ToByte(t.bp - t.mem[t.pc - 1]))
    case _ => PlaceOf(m, t)
  }

  predicate Reads(m: Mode, t: State) { t.pc >= Size(m) - 1 }

  lemma PlaceAfterAdvance(m: Mode, s: State)
    requires Fetches(s, Size(m))
    ensures Reads(m, Advance(s, Size(m)))
    ensures PlaceBefore(m, Advance(s, Size(m))) == PlaceOf(m, s)
  {
    var t := Advance(s, Size(m));
    if m == MemImm {
      assert t.pc - 2 == ToWord(s.pc + 1) && t.pc - 1 == ToWord(s.pc + 2);
    } else if m == Imm || m == Frame {
      assert t.pc - 1 == ToWord(s.pc + 1);
    }
  }

  /** `MIN_I` compares with the byte at PC - 2, which is its own opcode. */
  function AluPlace(fn: AluFn, m: Mode, s: State): Place {
    if fn == MIN && m == Imm then Value(s.mem[s.pc]) else PlaceOf(m, s)
  }

  /** The fetch of such an operand is defined; PC - 2 takes one more byte of room than PC - 1. */
  predicate DoFetches(kind: Kind, m: Mode, s: State) {
    if kind == Alu(MIN) && m == Imm then s.pc + 2 < 65536 else Fetches(s, Size(m))
  }

  function DoPlace(kind: Kind, m: Mode, s: State): Place {
    if kind.Alu? then AluPlace(kind.alu, m, s) else PlaceOf(m, s)
  }

  function WideOperand(m: Mode, s: State): Word {
    if m == Imm then OperandWord(s) else Get(PlaceOf(m, s), s)
  }

  function PushedByte(m: Mode, s: State): Byte {
    match m
    case BP => s.bp
    case FLAGS => FlagsByte(s.f)
    case _ => Get(PlaceOf(m, s), s)
  }

  function Advance(s: State, n: nat): State { s.(pc := ToWord(s.pc + n)) }

  predicate JumpDefined(c: Cond, s: State) {
    if c == Always then s.pc + 2 < 65536 else Holds(c, s.f) ==> Fetches(s, 3)
  }

  predicate JumpExtDefined(s: State) {
    HoldsExt(OperandByte(s, 0), s.f) ==> ToWord(s.pc + 1) + 2 < 65536
  }

  /** The C program defines the execution of this operation at PC. */
  predicate Defined(op: Op, s: State) {
    match op
    case Do(kind, m) => DoFetches(kind, m, s) && Performs(kind, DoPlace(kind, m, s), s)
    case Wide(fn, m) => Fetches(s, Length(op)) && WideDefined(fn, HLof(s), WideOperand(m, s))
    case Jump(c) => JumpDefined(c, s)
    case JumpExt => JumpExtDefined(s)
    case Pop(m) => Fetches(s, Length(op))
    case RetI => s.pc + 1 < 65536
    case Call | Enter | LoadLI | LoadHLI | AddLI | AddHLI => Fetches(s, Length(op))
    case _ => true
  }

  function ExecJump(c: Cond, s: State): State {
    if Holds(c, s.f) then s.(pc := OperandWord(s)) else Advance(s, 3)
  }

  /** A JEXT that is not taken advances PC past its opcode only, into its own operands. */
  function ExecJumpExt(s: State): State {
    if HoldsExt(OperandByte(s, 0), s.f) then s.(pc := Join(OperandByte(s, 1), OperandByte(s, 2)))
    else Advance(s, 1)
  }

  function ExecPop(m: Mode, s: State): State {
    var t := Advance(s, Length(Pop(m)));
    match m
    case FLAGS => DropByte(t).(f := ByteFlags(Top(s)))
    case BP => DropByte(t).(bp := Top(s), f := ZeroSign(s.f, Top(s)))
    case _ => PerformPop(PlaceOf(m, s), t)
  }

  function ExecCall(s: State): State {
    PushWord(ToWord(s.pc + 3), s).(pc := OperandWord(s))
  }

  /** RET, and RET n with n further bytes popped. */
  function ExecRet(s: State, n: nat): State {
    s.(pc := TopWord(s), sp := ToByte(s.sp - 2 - n))
  }

  function ExecEnter(s: State): State {
    var u := PushByte(s.bp, Advance(s, 2));
    u.(bp := u.sp, sp := ToByte(u.sp + OperandByte(s, 0)))
  }

  function ExecLeave(s: State): State {
    Advance(s, 1).(sp := ToByte(s.bp - 1), bp := s.stack[ToByte(s.bp - 1)])
  }

  function Exec(op: Op, s: State): State
    requires Exists(op) && Defined(op, s)
  {
    var t := Advance(s, Length(op));
    match op
    case Noop => t
    case Halt => s
    case Ei => t.(f := s.f.(of := true))
    case Di => t.(f := s.f.(of := false))
    case Et => t.(f := s.f.(tf := true))
    case Dt => t.(f := s.f.(tf := false))
    case Clra => t.(acc := 0, f := s.f.(zf := true))
    case Reset => Initial()
    case Do(kind, m) => Perform(kind, DoPlace(kind, m, s), t)
    case UnaryHL(fn) => PerformUnaryHL(fn, t)
    case Wide(fn, m) => PerformWide(fn, WideOperand(m, s), t)
    case Jump(c) => ExecJump(c, s)
    case JumpExt => ExecJumpExt(s)
    case Push(m) => PerformPush(PushedByte(m, s), t)
    case Pop(m) => ExecPop(m, s)
    case Call => ExecCall(s)
    case Ret => ExecRet(s, 0)
    case RetI => ExecRet(s, OperandByte(s, 0))
    case Enter => ExecEnter(s)
    case Leave => ExecLeave(s)
    case LoadLI => t.(l := OperandByte(s, 0))
    case LoadHLI => SetHL(t, OperandWord(s))
    case AddLI => t.(l := ToByte(s.l + OperandByte(s, 0)))
    case AddHLI => SetHL(t, ToWord(HLof(s) + OperandWord(s)))
  }

  lemma ExecCallIs(s: State)
    requires Fetches(s, 3) && s.pc + 3 < 65536
    ensures Defined(Call, s)
    ensures Exec(Call, s) == PushWord(s.pc + 3, s).(pc := OperandWord(s))
  {
    hide PushWord, OperandWord;
  }

  // ---------- steps and runs ----------

  function Current(s: State): Op { Decode(s.mem[s.pc]) }

  predicate CanStep(s: State) { Defined(Current(s), s) }

  function Step(s: State): State
    requires CanStep(s)
  {
    OpcodeDecode(s.mem[s.pc]);
    Exec(Current(s), s)
  }

  lemma StepIs(s: State)
    requires CanStep(s)
    ensures Exists(Current(s)) && Defined(Current(s), s) && Step(s) == Exec(Current(s), s)
  {
    hide Exec, Defined, Exists, Decode;
    OpcodeDecode(s.mem[s.pc]);
  }

  /** POP FLAGS right after PUSH FLAGS gives back the flags and everything else but PC and the byte
      that was pushed. */
  lemma FlagsRoundTrip(s: State)
    requires CanStep(s) && Current(s) == Push(FLAGS)
    requires CanStep(Step(s)) && Current(Step(s)) == Pop(FLAGS)
    ensures Step(Step(s)) == s.(pc := ToWord(s.pc + 2), stack := s.stack[s.sp := FlagsByte(s.f)])
  {
    hide Step, CanStep, Current, FlagsByte, ByteFlags, ToByte, ToWord, ZeroSign;
    var t := Step(s);
    PushFlagsStep(s);
    PopFlagsStep(t);
    FlagsOfByte(s.f);
    WrapSum(s.pc + 1, 1);
    WrapSum(s.sp + 1, -1);
    BytesThemselves(s.sp);
  }

  /** PUSH FLAGS right after POP FLAGS gives back the stack. */
  lemma FlagsPushedBack(s: State)
    requires CanStep(s) && Current(s) == Pop(FLAGS)
    requires CanStep(Step(s)) && Current(Step(s)) == Push(FLAGS)
    ensures var t := Step(Step(s)); t.stack == s.stack && t.sp == s.sp
  {
    hide Step, CanStep, Current, FlagsByte, ByteFlags, ToByte, ToWord, ZeroSign;
    var t := Step(s);
    PopFlagsStep(s);
    PushFlagsStep(t);
    ByteOfFlags(Top(s));
    WrapSum(s.sp - 1, 1);
    BytesThemselves(s.sp);
  }

  lemma PushFlagsStep(s: State)
    requires CanStep(s) && Current(s) == Push(FLAGS)
    ensures Step(s) == s.(pc := ToWord(s.pc + 1), sp := ToByte(s.sp + 1), f := ZeroSign(s.f, FlagsByte(s.f)),
                          stack := s.stack[s.sp := FlagsByte(s.f)])
  {
    hide ToByte, ToWord, FlagsByte, Decode;
    StepIs(s);
  }

  lemma PopFlagsStep(s: State)
    requires CanStep(s) && Current(s) == Pop(FLAGS)
    ensures Step(s) == s.(pc := ToWord(s.pc + 1), sp := ToByte(s.sp - 1), f := ByteFlags(Top(s)))
  {
    hide ToByte, ToWord, ByteFlags, Top, Decode;
    StepIs(s);
  }

  /** n steps, all of them defined, lead from s to t. */
  ghost predicate Run(s: State, n: nat, t: State)
    decreases n
  {
    if n == 0 then s == t else CanStep(s) && Run(Step(s), n - 1, t)
  }

  lemma {:induction false} RunsCompose(s: State, m: nat, t: State, n: nat, u: State)
    requires Run(s, m, t) && Run(t, n, u)
    ensures Run(s, m + n, u)
    decreases m
  {
    hide CanStep, Step;
    if m > 0 {
      RunsCompose(Step(s), m - 1, t, n, u);
    }
  }

  lemma RunExtends(s: State, n: nat, t: State)
    requires Run(s, n, t) && CanStep(t)
    ensures Run(s, n + 1, Step(t))
  {
    hide CanStep, Step;
    assert Run(Step(t), 0, Step(t));
    RunsCompose(s, n, t, 1, Step(t));
  }

  /** A run of a given length has only one outcome. */
  lemma {:induction false} RunsAgree(s: State, n: nat, t: State, u: State)
    requires Run(s, n, t) && Run(s, n, u)
    ensures t == u
    decreases n
  {
    hide CanStep, Step;
    if n > 0 {
      RunsAgree(Step(s), n - 1, t, u);
    }
  }

  /** The state executes a given existing operation when its opcode is at PC. */
  lemma StepExec(s: State, op: Op)
    requires Exists(op) && s.mem[s.pc] == Opcode(op) && Defined(op, s)
    ensures CanStep(s) && Step(s) == Exec(op, s)
  {
    DecodeOpcode(op);
  }

  /** PC points at a HALT opcode. */
  predicate Halted(s: State) { s.mem[s.pc] == HALT }

  /** The CPU's loop, which tests for HALT after each step and not before the first, stops
      after exactly n steps. */
  ghost predicate HaltsIn(s: State, n: nat)
    decreases n
  {
    && n > 0
    && CanStep(s)
    && if Halted(Step(s)) then n == 1 else HaltsIn(Step(s), n - 1)
  }

  // ---------- runs that do not meet a HALT on the way ----------

  /** Like Run, but no step is taken from a HALT. */
  ghost predicate Busy(s: State, n: nat, t: State)
    decreases n
  {
    if n == 0 then s == t else CanStep(s) && !Halted(s) && Busy(Step(s), n - 1, t)
  }

  lemma {:induction false} BusyCompose(s: State, m: nat, t: State, n: nat, u: State)
    requires Busy(s, m, t) && Busy(t, n, u)
    ensures Busy(s, m + n, u)
    decreases m
  {
    hide CanStep, Step, Halted;
    if m > 0 {
      BusyCompose(Step(s), m - 1, t, n, u);
    }
  }

  lemma {:induction false} BusyIsRun(s: State, n: nat, t: State)
    requires Busy(s, n, t)
    ensures Run(s, n, t)
    decreases n
  {
    hide CanStep, Step, Halted;
    if n > 0 {
      BusyIsRun(Step(s), n - 1, t);
    }
  }

  /** Such a run that ends at a HALT is a run of the CPU's loop. */
  lemma {:induction false} BusyHalts(s: State, n: nat, t: State)
    requires Busy(s, n, t) && n > 0 && Halted(t)
    ensures HaltsIn(s, n)
    decreases n
  {
    hide CanStep, Step, Halted;
    if n == 1 {
      assert Busy(Step(s), 0, t);
    } else {
      BusyHalts(Step(s), n - 1, t);
    }
  }

  lemma BusyStep(s: State, op: Op)
    requires Exists(op) && s.mem[s.pc] == Opcode(op) && Defined(op, s) && op != Halt
    ensures Busy(s, 1, Exec(op, s))
  {
    hide CanStep, Step, Exec, Defined, Exists, Opcode, Decode;
    StepExec(s, op);
    if Halted(s) {
      HaltOpcode();
      DecodeOpcode(op);
      DecodeOpcode(Halt);
    }
    assert Busy(Step(s), 0, Step(s));
  }
}
