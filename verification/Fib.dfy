/** Total correctness of the recursive Fibonacci routine of programs/fib_recursive.casm on the
    CPU model: called with n <= 64 in HL it returns with the n-th Fibonacci number modulo 65536
    in HL, having used at most 4(n - 1) bytes of the 256-byte stack, wherever the stack pointer
    stands. */
module Fib {
  import opened Words
  import opened Isa
  import opened Machine

  function FibNumber(n: nat): nat {
    if n < 2 then n else FibNumber(n - 1) + FibNumber(n - 2)
  }

  // ---------- the routine ----------

  /** Byte k of the routine assembled at address f: three blocks at f, f + 13 and f + 19. */
  function FibByte(f: Word, k: nat): Byte
    requires f + 19 < 65536
  {
    var one, rest: Word := f + 13, f + 19;
    match k
    // nth_fib
    case 0 => Opcode(Do(Load, H))
    case 1 => Opcode(Do(Alu(CMP), Imm)) case 2 => 0
    case 3 => Opcode(Jump(IfNotZero)) case 4 => High(rest) case 5 => Low(rest)
    case 6 => Opcode(Do(Load, L))
    case 7 => Opcode(Do(Alu(CMP), Imm)) case 8 => 0
    case 9 => Opcode(Jump(IfNotZero)) case 10 => High(one) case 11 => Low(one)
    case 12 => Opcode(Ret)
    // one_case
    case 13 => Opcode(Do(Alu(CMP), Imm)) case 14 => 1
    case 15 => Opcode(Jump(IfNotZero)) case 16 => High(rest) case 17 => Low(rest)
    case 18 => Opcode(Ret)
    // n_case
    case 19 => Opcode(Push(H))
    case 20 => Opcode(Push(L))
    case 21 => Opcode(UnaryHL(DEC))
    case 22 => Opcode(Call) case 23 => High(f) case 24 => Low(f)
    case 25 => Opcode(Pop(Acc))
    case 26 => Opcode(Pop(R0))
    case 27 => Opcode(Push(H))
    case 28 => Opcode(Push(L))
    case 29 => Opcode(Do(Store, L))
    case 30 => Opcode(Do(Load, R0))
    case 31 => Opcode(Do(Store, H))
    case 32 => Opcode(Wide(SUBW, Imm)) case 33 => 0 case 34 => 2
    case 35 => Opcode(Call) case 36 => High(f) case 37 => Low(f)
    case 38 => Opcode(Pop(Acc))
    case 39 => Opcode(Do(Alu(ADD), L))
    case 40 => Opcode(Do(Store, L))
    case 41 => Opcode(Pop(Acc))
    case 42 => Opcode(Do(Alu(ADC), H))
    case 43 => Opcode(Do(Store, H))
    case _ => Opcode(Ret)
  }

  const FIB_SIZE := 45

  ghost predicate FibCode(mem: Memory, f: Word) {
    f + FIB_SIZE < 65536 && forall k :: 0 <= k < FIB_SIZE ==> mem[f + k] == FibByte(f, k)
  }

  /** Control is at byte k of the routine. */
  ghost predicate At(f: Word, s: State, k: nat) {
    k < FIB_SIZE && FibCode(s.mem, f) && s.pc == f + k
  }

  /** Everything but PC, the accumulator, R0 and the flags. */
  ghost predicate SameFrame(s: State, t: State) {
    && t.h == s.h && t.l == s.l && t.r1 == s.r1 && t.sp == s.sp && t.bp == s.bp
    && t.stack == s.stack && t.mem == s.mem
  }

  // ---------- single instructions ----------

  lemma AtByte(f: Word, s: State, k: nat)
    requires At(f, s, k)
    ensures s.mem[s.pc] == FibByte(f, k)
    ensures k + 1 < FIB_SIZE ==> OperandByte(s, 0) == FibByte(f, k + 1)
    ensures k + 2 < FIB_SIZE ==> OperandByte(s, 1) == FibByte(f, k + 2)
    ensures f + FIB_SIZE < 65536
  {
    hide FibByte;
  }

  lemma LoadReg(f: Word, s: State, k: nat, m: Mode) returns (t: State)
    requires At(f, s, k) && m in {H, L, R0} && FibByte(f, k) == Opcode(Do(Load, m))
    ensures Busy(s, 1, t) && SameFrame(s, t) && t.pc == f + k + 1
    ensures t.acc == (if m == H then s.h else if m == L then s.l else s.r0) && t.f.cf == s.f.cf
  {
    hide Busy, FibByte, Opcode, FibCode;
    AtByte(f, s, k);
    t := Exec(Do(Load, m), s);
    BusyStep(s, Do(Load, m));
  }

  lemma CompareImm(f: Word, s: State, k: nat) returns (t: State)
    requires At(f, s, k) && k + 1 < FIB_SIZE && FibByte(f, k) == Opcode(Do(Alu(CMP), Imm))
    ensures Busy(s, 1, t) && SameFrame(s, t) && t.pc == f + k + 2
    ensures t.acc == s.acc && t.f.zf == (s.acc == FibByte(f, k + 1))
  {
    hide Busy, FibByte, Opcode, FibCode;
    AtByte(f, s, k);
    t := Exec(Do(Alu(CMP), Imm), s);
    BusyStep(s, Do(Alu(CMP), Imm));
  }

  /** A conditional jump to byte target of the routine. */
  lemma JumpNonZero(f: Word, s: State, k: nat, target: nat) returns (t: State)
    requires At(f, s, k) && k + 2 < FIB_SIZE && FibByte(f, k) == Opcode(Jump(IfNotZero))
    requires target < FIB_SIZE && f + FIB_SIZE < 65536
    requires FibByte(f, k + 1) == High(f + target) && FibByte(f, k + 2) == Low(f + target)
    ensures Busy(s, 1, t) && t == s.(pc := if s.f.zf then f + k + 3 else f + target)
  {
    hide Busy, FibByte, Opcode, FibCode, Exec, Defined, OperandWord;
    AtByte(f, s, k);
    TargetOperand(s, f + target);
    ExecJumpIs(s, f + k + 3);
    t := Exec(Jump(IfNotZero), s);
    BusyStep(s, Jump(IfNotZero));
  }

  lemma TargetOperand(s: State, w: Word)
    requires OperandByte(s, 0) == High(w) && OperandByte(s, 1) == Low(w)
    ensures OperandWord(s) == w
  {
  }

  lemma ExecJumpIs(s: State, next: Word)
    requires s.pc + 3 == next
    ensures Defined(Jump(IfNotZero), s)
    ensures Exec(Jump(IfNotZero), s) == s.(pc := if s.f.zf then next else OperandWord(s))
  {
    hide OperandWord;
  }

  lemma ReturnFrom(f: Word, s: State, k: nat) returns (t: State)
    requires At(f, s, k) && FibByte(f, k) == Opcode(Ret)
    ensures Busy(s, 1, t) && t == s.(pc := TopWord(s), sp := ToByte(s.sp - 2))
  {
    hide Busy, FibByte, Opcode, FibCode, TopWord;
    AtByte(f, s, k);
    t := Exec(Ret, s);
    BusyStep(s, Ret);
  }

  /** Everything but PC and the flags, with one more byte on the stack. */
  ghost predicate Pushed(s: State, v: Byte, t: State) {
    && t.h == s.h && t.l == s.l && t.r0 == s.r0 && t.r1 == s.r1 && t.acc == s.acc && t.bp == s.bp && t.mem == s.mem
    && t.stack == s.stack[s.sp := v] && t.sp == ToByte(s.sp + 1)
  }

  lemma PushReg(f: Word, s: State, k: nat, m: Mode) returns (t: State)
    requires At(f, s, k) && m in {H, L} && FibByte(f, k) == Opcode(Push(m))
    ensures Busy(s, 1, t) && t.pc == f + k + 1 && Pushed(s, if m == H then s.h else s.l, t)
  {
    hide Busy, FibByte, Opcode, FibCode;
    AtByte(f, s, k);
    t := Exec(Push(m), s);
    BusyStep(s, Push(m));
  }

  lemma PopReg(f: Word, s: State, k: nat, m: Mode) returns (t: State)
    requires At(f, s, k) && m in {Acc, R0} && FibByte(f, k) == Opcode(Pop(m))
    ensures Busy(s, 1, t) && t.pc == f + k + 1
    ensures t.h == s.h && t.l == s.l && t.r1 == s.r1 && t.bp == s.bp && t.mem == s.mem && t.stack == s.stack
    ensures t.sp == ToByte(s.sp - 1) && t.f.cf == s.f.cf
    ensures if m == Acc then t.acc == Top(s) && t.r0 == s.r0 else t.r0 == Top(s) && t.acc == s.acc
  {
    hide Busy, FibByte, Opcode, FibCode;
    AtByte(f, s, k);
    t := Exec(Pop(m), s);
    BusyStep(s, Pop(m));
  }

  lemma StoreReg(f: Word, s: State, k: nat, m: Mode) returns (t: State)
    requires At(f, s, k) && m in {H, L} && FibByte(f, k) == Opcode(Do(Store, m))
    ensures Busy(s, 1, t) && t.pc == f + k + 1 && t.acc == s.acc && t.f.cf == s.f.cf && t.r0 == s.r0
    ensures SameFrame(s.(h := if m == H then s.acc else s.h, l := if m == L then s.acc else s.l), t)
  {
    hide Busy, FibByte, Opcode, FibCode;
    AtByte(f, s, k);
    t := Exec(Do(Store, m), s);
    BusyStep(s, Do(Store, m));
  }

  lemma Decrement(f: Word, s: State, k: nat) returns (t: State)
    requires At(f, s, k) && FibByte(f, k) == Opcode(UnaryHL(DEC))
    ensures Busy(s, 1, t) && t.pc == f + k + 1 && SameFrame(SetHL(s, ToWord(HLof(s) - 1)), t)
  {
    hide Busy, FibByte, Opcode, FibCode, HLof, UnaryWordFlags;
    AtByte(f, s, k);
    t := Exec(UnaryHL(DEC), s);
    HLAdvance(s, 1);
    BusyStep(s, UnaryHL(DEC));
  }

  lemma HLAdvance(s: State, n: nat)
    ensures HLof(Advance(s, n)) == HLof(s)
  {
  }

  lemma SubtractTwo(f: Word, s: State, k: nat) returns (t: State)
    requires At(f, s, k) && FibByte(f, k) == Opcode(Wide(SUBW, Imm)) && k + 2 < FIB_SIZE
    requires FibByte(f, k + 1) == 0 && FibByte(f, k + 2) == 2
    ensures Busy(s, 1, t) && t.pc == f + k + 3 && SameFrame(SetHL(s, ToWord(HLof(s) - 2)), t)
  {
    hide Busy, FibByte, Opcode, FibCode, HLof;
    AtByte(f, s, k);
    assert OperandWord(s) == 2;
    HLAdvance(s, 3);
    t := Exec(Wide(SUBW, Imm), s);
    BusyStep(s, Wide(SUBW, Imm));
  }

  /** The recursive call. */
  lemma CallSelf(f: Word, s: State, k: nat) returns (t: State)
    requires At(f, s, k) && FibByte(f, k) == Opcode(Call) && k + 2 < FIB_SIZE
    requires FibByte(f, k + 1) == High(f) && FibByte(f, k + 2) == Low(f)
    ensures Busy(s, 1, t) && f + k + 3 < 65536 && t == PushWord(f + k + 3, s).(pc := f)
  {
    hide Busy, FibByte, Opcode, FibCode, PushWord, Exec, Defined, OperandWord;
    AtByte(f, s, k);
    CallOperand(f, s, k);
    ExecCallIs(s);
    t := Exec(Call, s);
    BusyStep(s, Call);
  }

  lemma CallOperand(f: Word, s: State, k: nat)
    requires At(f, s, k) && k + 2 < FIB_SIZE && FibByte(f, k + 1) == High(f) && FibByte(f, k + 2) == Low(f)
    ensures OperandWord(s) == f
  {
    hide FibByte, FibCode;
    AtByte(f, s, k);
  }

  lemma AddLow(f: Word, s: State, k: nat) returns (t: State)
    requires At(f, s, k) && FibByte(f, k) == Opcode(Do(Alu(ADD), L))
    ensures Busy(s, 1, t) && SameFrame(s, t) && t.pc == f + k + 1
    ensures t.acc == ToByte(s.acc + s.l) && t.f.cf == (s.acc + s.l >= 256)
  {
    hide Busy, FibByte, Opcode, FibCode;
    AtByte(f, s, k);
    t := Exec(Do(Alu(ADD), L), s);
    BusyStep(s, Do(Alu(ADD), L));
  }

  lemma AddHigh(f: Word, s: State, k: nat) returns (t: State)
    requires At(f, s, k) && FibByte(f, k) == Opcode(Do(Alu(ADC), H))
    ensures Busy(s, 1, t) && SameFrame(s, t) && t.pc == f + k + 1
    ensures t.acc == ToByte(s.acc + s.h + Bit(s.f.cf))
  {
    hide Busy, FibByte, Opcode, FibCode;
    AtByte(f, s, k);
    t := Exec(Do(Alu(ADC), H), s);
    BusyStep(s, Do(Alu(ADC), H));
  }

  // ---------- straight-line stretches ----------

  lemma HeadBytes(f: Word)
    requires f + FIB_SIZE < 65536
    ensures FibByte(f, 0) == Opcode(Do(Load, H))
    ensures FibByte(f, 1) == Opcode(Do(Alu(CMP), Imm))
    ensures FibByte(f, 3) == Opcode(Jump(IfNotZero))
    ensures FibByte(f, 6) == Opcode(Do(Load, L))
    ensures FibByte(f, 7) == Opcode(Do(Alu(CMP), Imm))
    ensures FibByte(f, 9) == Opcode(Jump(IfNotZero))
    ensures FibByte(f, 12) == Opcode(Ret)
    ensures FibByte(f, 13) == Opcode(Do(Alu(CMP), Imm))
    ensures FibByte(f, 15) == Opcode(Jump(IfNotZero))
    ensures FibByte(f, 18) == Opcode(Ret)
    ensures FibByte(f, 2) == 0 && FibByte(f, 8) == 0 && FibByte(f, 14) == 1
    ensures FibByte(f, 4) == High(f + 19) && FibByte(f, 5) == Low(f + 19)
    ensures FibByte(f, 10) == High(f + 13) && FibByte(f, 11) == Low(f + 13)
    ensures FibByte(f, 16) == High(f + 19) && FibByte(f, 17) == Low(f + 19)
  {
    hide Opcode, High, Low;
  }

  lemma FirstBytes(f: Word)
    requires f + FIB_SIZE < 65536
    ensures FibByte(f, 19) == Opcode(Push(H))
    ensures FibByte(f, 20) == Opcode(Push(L))
    ensures FibByte(f, 21) == Opcode(UnaryHL(DEC))
    ensures FibByte(f, 22) == Opcode(Call)
    ensures FibByte(f, 23) == High(f) && FibByte(f, 24) == Low(f)
  {
    hide Opcode, High, Low;
  }

  lemma MoveBytes(f: Word)
    requires f + FIB_SIZE < 65536
    ensures FibByte(f, 25) == Opcode(Pop(Acc))
    ensures FibByte(f, 26) == Opcode(Pop(R0))
    ensures FibByte(f, 27) == Opcode(Push(H))
    ensures FibByte(f, 28) == Opcode(Push(L))
    ensures FibByte(f, 29) == Opcode(Do(Store, L))
    ensures FibByte(f, 30) == Opcode(Do(Load, R0))
    ensures FibByte(f, 31) == Opcode(Do(Store, H))
  {
    hide Opcode, High, Low;
  }

  lemma SecondBytes(f: Word)
    requires f + FIB_SIZE < 65536
    ensures FibByte(f, 32) == Opcode(Wide(SUBW, Imm))
    ensures FibByte(f, 35) == Opcode(Call)
    ensures FibByte(f, 33) == 0 && FibByte(f, 34) == 2 && FibByte(f, 36) == High(f) && FibByte(f, 37) == Low(f)
  {
    hide Opcode, High, Low;
  }

  lemma LastBytes(f: Word)
    requires f + FIB_SIZE < 65536
    ensures FibByte(f, 38) == Opcode(Pop(Acc))
    ensures FibByte(f, 39) == Opcode(Do(Alu(ADD), L))
    ensures FibByte(f, 40) == Opcode(Do(Store, L))
    ensures FibByte(f, 41) == Opcode(Pop(Acc))
  {
    hide Opcode, High, Low;
  }

  lemma ReturnBytes(f: Word)
    requires f + FIB_SIZE < 65536
    ensures FibByte(f, 42) == Opcode(Do(Alu(ADC), H))
    ensures FibByte(f, 43) == Opcode(Do(Store, H))
    ensures FibByte(f, 44) == Opcode(Ret)
  {
    hide Opcode, High, Low;
  }

  /** nth_fib up to the base cases' returns or to n_case, for n < 256. */
  lemma Head(f: Word, s: State) returns (t: State, n: nat)
    requires At(f, s, 0) && s.h == 0
    ensures Busy(s, n, t) && SameFrame(s, t) && FibCode(t.mem, f)
    ensures t.pc == f + (if s.l == 0 then 12 else if s.l == 1 then 18 else 19)
  {
    hide FibCode, FibByte, Opcode, Busy, High, Low;
    AtByte(f, s, 0);
    HeadBytes(f);
    var a := LoadReg(f, s, 0, H);
    var b := CompareImm(f, a, 1);
    var c := JumpNonZero(f, b, 3, 19);
    var d := LoadReg(f, c, 6, L);
    var e := CompareImm(f, d, 7);
    t := JumpNonZero(f, e, 9, 13);
    n := 6;
    BusyCompose(s, 1, a, 1, b);
    BusyCompose(s, 2, b, 1, c);
    BusyCompose(s, 3, c, 1, d);
    BusyCompose(s, 4, d, 1, e);
    BusyCompose(s, 5, e, 1, t);
    if s.l != 0 {
      var g := CompareImm(f, t, 13);
      var u := JumpNonZero(f, g, 15, 19);
      BusyCompose(s, 6, t, 1, g);
      BusyCompose(s, 7, g, 1, u);
      t, n := u, 8;
    }
  }

  /** Four bytes pushed from stack pointer sp on. */
  function Framed(stack: Stack, sp: int, a: Byte, b: Byte, c: Byte, d: Byte): Stack {
    stack[ToByte(sp) := a][ToByte(sp + 1) := b][ToByte(sp + 2) := c][ToByte(sp + 3) := d]
  }

  lemma PointerSums(sp: int)
    ensures ToByte(ToByte(sp) + 1) == ToByte(sp + 1) && ToByte(ToByte(sp + 1) + 1) == ToByte(sp + 2)
    ensures ToByte(ToByte(sp + 2) + 1) == ToByte(sp + 3) && ToByte(ToByte(sp + 3) + 1) == ToByte(sp + 4)
  {
    hide ToByte;
    WrapSum(sp, 1);
    WrapSum(sp + 1, 1);
    WrapSum(sp + 2, 1);
    WrapSum(sp + 3, 1);
  }

  lemma PointerDrops(sp: int)
    ensures ToByte(ToByte(sp) - 1) == ToByte(sp - 1) && ToByte(ToByte(sp - 1) - 1) == ToByte(sp - 2)
    ensures ToByte(ToByte(sp) - 2) == ToByte(sp - 2)
    ensures ToByte(ToByte(sp - 2) - 1) == ToByte(sp - 3) && ToByte(ToByte(sp - 2) - 2) == ToByte(sp - 4)
  {
    hide ToByte;
    WrapSum(sp, -1);
    WrapSum(sp, -2);
    WrapSum(sp - 1, -1);
    WrapSum(sp - 2, -1);
    WrapSum(sp - 2, -2);
  }

  /** Everything a call leaves to its caller besides the stack. */
  ghost predicate Kept(s: State, t: State) { t.r1 == s.r1 && t.bp == s.bp && t.mem == s.mem }

  lemma PairParts(s: State, w: Word)
    ensures HLof(SetHL(s, w)) == w
  {
  }

  lemma PairKeeps(s: State, w: Word)
    ensures var t := SetHL(s, w); t.stack == s.stack && t.sp == s.sp && Kept(s, t)
  {
  }

  lemma SamePairs(s: State, t: State)
    requires t.h == s.h && t.l == s.l
    ensures HLof(t) == HLof(s)
  {
  }

  /** A call pushes its return address above two saved bytes. */
  lemma PushesFrame(f: Word, s: State, a: State, b: State, c: State, t: State, x: Byte, y: Byte, w: Word)
    requires Pushed(s, x, a) && Pushed(a, y, b)
    requires c.stack == b.stack && c.sp == b.sp && t == PushWord(w, c).(pc := f)
    ensures t.stack == Framed(s.stack, s.sp, x, y, High(w), Low(w)) && t.sp == ToByte(s.sp + 4)
    ensures t.h == c.h && t.l == c.l && Kept(c, t)
  {
    hide ToByte, High, Low;
    PointerSums(s.sp);
    BytesThemselves(s.sp);
  }

  /** The routine is entered from stack pointer sp with two bytes and a return address pushed. */
  ghost predicate Calling(e: State, stack: Stack, sp: int, x: Byte, y: Byte, r: Word) {
    e.stack == Framed(stack, sp, x, y, High(r), Low(r)) && e.sp == ToByte(sp + 4)
  }

  /** n_case up to the first recursive call. */
  lemma ToFirstCall(f: Word, s: State) returns (t: State)
    requires At(f, s, 19)
    ensures Busy(s, 4, t) && At(f, t, 0) && Kept(s, t) && HLof(t) == ToWord(HLof(s) - 1)
    ensures f + 25 < 65536 && Calling(t, s.stack, s.sp, s.h, s.l, f + 25)
  {
    hide FibCode, FibByte, Opcode, Busy, High, Low, ToByte, Framed, SetHL, HLof, PushWord;
    AtByte(f, s, 19);
    FirstBytes(f);
    var a := PushReg(f, s, 19, H);
    var b := PushReg(f, a, 20, L);
    SamePairs(s, b);
    var c := Decrement(f, b, 21);
    PairKeeps(b, ToWord(HLof(b) - 1));
    t := CallSelf(f, c, 22);
    PushesFrame(f, s, a, b, c, t, s.h, s.l, f + 25);
    PairParts(b, ToWord(HLof(b) - 1));
    SamePairs(SetHL(b, ToWord(HLof(b) - 1)), c);
    SamePairs(c, t);
    BusyCompose(s, 1, a, 1, b);
    BusyCompose(s, 2, b, 1, c);
    BusyCompose(s, 3, c, 1, t);
  }

  /** Moves the saved HL to the accumulator and R0, and saves the first result in its place. */
  lemma SwapSaved(f: Word, s: State) returns (t: State)
    requires At(f, s, 25)
    ensures Busy(s, 4, t) && At(f, t, 29) && Kept(s, t) && t.h == s.h && t.l == s.l
    ensures t.acc == s.stack[ToByte(s.sp - 1)] && t.r0 == s.stack[ToByte(s.sp - 2)]
    ensures t.stack == s.stack[ToByte(s.sp - 2) := s.h][ToByte(s.sp - 1) := s.l] && t.sp == s.sp
  {
    hide FibCode, FibByte, Opcode, Busy, ToByte;
    AtByte(f, s, 25);
    MoveBytes(f);
    PointerDrops(s.sp);
    PointerSums(s.sp - 2);
    BytesThemselves(s.sp);
    var a := PopReg(f, s, 25, Acc);
    var b := PopReg(f, a, 26, R0);
    var c := PushReg(f, b, 27, H);
    t := PushReg(f, c, 28, L);
    BusyCompose(s, 1, a, 1, b);
    BusyCompose(s, 2, b, 1, c);
    BusyCompose(s, 3, c, 1, t);
  }

  /** Puts n - 2 in HL and calls again. */
  lemma CallAgain(f: Word, s: State) returns (t: State)
    requires At(f, s, 29)
    ensures Busy(s, 5, t) && At(f, t, 0) && Kept(s, t) && HLof(t) == ToWord(Join(s.r0, s.acc) - 2)
    ensures t.stack == s.stack[s.sp := High(f + 38)][ToByte(s.sp + 1) := Low(f + 38)] && t.sp == ToByte(s.sp + 2)
  {
    hide FibCode, FibByte, Opcode, Busy, High, Low, ToByte, SetHL, HLof, PushWord;
    AtByte(f, s, 29);
    MoveBytes(f);
    SecondBytes(f);
    var a := StoreReg(f, s, 29, L);
    var b := LoadReg(f, a, 30, R0);
    var c := StoreReg(f, b, 31, H);
    var d := SubtractTwo(f, c, 32);
    PairKeeps(c, ToWord(HLof(c) - 2));
    t := CallSelf(f, d, 35);
    PushesReturn(f, d, t, f + 38);
    PairOf(c, s.r0, s.acc);
    PairParts(c, ToWord(HLof(c) - 2));
    SamePairs(SetHL(c, ToWord(HLof(c) - 2)), d);
    SamePairs(d, t);
    BusyCompose(s, 1, a, 1, b);
    BusyCompose(s, 2, b, 1, c);
    BusyCompose(s, 3, c, 1, d);
    BusyCompose(s, 4, d, 1, t);
  }

  /** From the first call's return to the second call; sp is where the saved argument starts. */
  lemma ToSecondCall(f: Word, s: State, sp: int) returns (t: State)
    requires At(f, s, 25) && s.sp == ToByte(sp + 2)
    ensures Busy(s, 9, t) && At(f, t, 0) && Kept(s, t)
    ensures HLof(t) == ToWord(Join(s.stack[ToByte(sp)], s.stack[ToByte(sp + 1)]) - 2)
    ensures f + 38 < 65536 && Calling(t, s.stack, sp, s.h, s.l, f + 38)
  {
    hide FibCode, Busy, High, Low, ToByte, HLof, ToWord;
    AtByte(f, s, 25);
    AroundTwo(sp);
    var d := SwapSaved(f, s);
    t := CallAgain(f, d);
    BusyCompose(s, 4, d, 5, t);
  }

  lemma PairOf(s: State, h: Byte, l: Byte)
    requires s.h == h && s.l == l
    ensures HLof(s) == Join(h, l)
  {
  }

  lemma PushesReturn(f: Word, s: State, t: State, w: Word)
    requires t == PushWord(w, s).(pc := f)
    ensures t.stack == s.stack[s.sp := High(w)][ToByte(s.sp + 1) := Low(w)] && t.sp == ToByte(s.sp + 2)
    ensures t.h == s.h && t.l == s.l && Kept(s, t)
  {
    hide ToByte, High, Low;
    PointerSums(s.sp);
    BytesThemselves(s.sp);
  }

  /** Adds the two results, low bytes first, and returns. */
  lemma AddPopped(f: Word, s: State) returns (t: State)
    requires At(f, s, 38)
    ensures Busy(s, 7, t) && Kept(s, t) && t.stack == s.stack && t.sp == ToByte(s.sp - 4)
    ensures HLof(t) == ToWord(Join(s.stack[ToByte(s.sp - 2)], s.stack[ToByte(s.sp - 1)]) + HLof(s))
    ensures t.pc == Join(s.stack[ToByte(s.sp - 4)], s.stack[ToByte(s.sp - 3)])
  {
    hide FibCode, FibByte, Opcode, Busy, ToByte, Join, HLof;
    AtByte(f, s, 38);
    LastBytes(f);
    ReturnBytes(f);
    PointerDrops(s.sp);
    var a := PopReg(f, s, 38, Acc);
    var b := AddLow(f, a, 39);
    var c := StoreReg(f, b, 40, L);
    var d := PopReg(f, c, 41, Acc);
    var e := AddHigh(f, d, 42);
    var g := StoreReg(f, e, 43, H);
    t := ReturnFrom(f, g, 44);
    WideSum(s.stack[ToByte(s.sp - 2)], s.stack[ToByte(s.sp - 1)], s.h, s.l);
    PairOf(s, s.h, s.l);
    PairOf(t, t.h, t.l);
    BusyCompose(s, 1, a, 1, b);
    BusyCompose(s, 2, b, 1, c);
    BusyCompose(s, 3, c, 1, d);
    BusyCompose(s, 4, d, 1, e);
    BusyCompose(s, 5, e, 1, g);
    BusyCompose(s, 6, g, 1, t);
  }

  /** The same, seen from where the first result is saved. */
  lemma AddResults(f: Word, s: State, sp: int) returns (t: State)
    requires At(f, s, 38) && s.sp == ToByte(sp + 2)
    ensures Busy(s, 7, t) && Kept(s, t) && t.stack == s.stack && t.sp == ToByte(sp - 2)
    ensures HLof(t) == ToWord(Join(s.stack[ToByte(sp)], s.stack[ToByte(sp + 1)]) + HLof(s))
    ensures t.pc == Join(s.stack[ToByte(sp - 2)], s.stack[ToByte(sp - 1)])
  {
    hide FibCode, Busy, ToByte, HLof, ToWord, Join;
    AroundTwo(sp);
    t := AddPopped(f, s);
  }

  /** The carry of the low bytes makes the byte-wise sum the word sum. */
  lemma WideSum(h: Byte, l: Byte, h': Byte, l': Byte)
    ensures Join(ToByte(h + h' + Bit(l + l' >= 256)), ToByte(l + l')) == ToWord(Join(h, l) + Join(h', l'))
  {
    var c := if l + l' >= 256 then 1 else 0;
    assert Join(h, l) + Join(h', l') == 256 * (h + h' + c) + (l + l' - 256 * c);
    WordOf(h + h' + c, l + l' - 256 * c);
  }

  // ---------- the stack across calls ----------

  /** How far position i lies above the stack pointer, going round. */
  function Above(i: int, sp: int): Byte { ToByte(i - sp) }

  /** Only the first depth bytes above the stack pointer may differ. */
  ghost predicate StackKept(before: Stack, after: Stack, sp: int, depth: nat) {
    forall i :: 0 <= i < 256 && Above(i, sp) >= depth ==> after[i] == before[i]
  }

  /** Bytes the routine uses above its stack pointer. */
  function Depth(n: nat): nat { if n < 2 then 0 else 4 * (n - 1) }

  lemma FourPlaces(stack: Stack, sp: int, a: Byte, b: Byte, c: Byte, d: Byte)
    ensures var m := Framed(stack, sp, a, b, c, d);
            m[ToByte(sp)] == a && m[ToByte(sp + 1)] == b && m[ToByte(sp + 2)] == c && m[ToByte(sp + 3)] == d
  {
  }

  lemma FramedElsewhere(stack: Stack, sp: int, a: Byte, b: Byte, c: Byte, d: Byte, i: nat)
    requires i < 256 && Above(i, sp) >= 4
    ensures Framed(stack, sp, a, b, c, d)[i] == stack[i]
  {
    hide ToByte, Above;
    NotNear(i, sp, 0);
    NotNear(i, sp, 1);
    NotNear(i, sp, 2);
    NotNear(i, sp, 3);
  }

  lemma NotNear(i: nat, sp: int, k: nat)
    requires i < 256 && Above(i, sp) >= 4 && k < 4
    ensures ToByte(sp + k) != i
  {
    hide ToByte;
    WrapSum(sp + k, -sp);
    BytesThemselves(k);
  }

  lemma AbovePlaces(sp: int)
    ensures Above(ToByte(sp), ToByte(sp + 4)) == 252 && Above(ToByte(sp + 1), ToByte(sp + 4)) == 253
    ensures Above(ToByte(sp + 2), ToByte(sp + 4)) == 254 && Above(ToByte(sp + 3), ToByte(sp + 4)) == 255
    ensures Above(ToByte(sp - 2), sp) == 254 && Above(ToByte(sp - 1), sp) == 255
  {
    hide Above, ToByte;
    AboveOf(sp, sp + 4);
    AboveOf(sp + 1, sp + 4);
    AboveOf(sp + 2, sp + 4);
    AboveOf(sp + 3, sp + 4);
    AboveOf(sp - 2, sp);
    AboveOf(sp - 1, sp);
    NearBytes();
  }

  lemma NearBytes()
    ensures ToByte(-4) == 252 && ToByte(-3) == 253 && ToByte(-2) == 254 && ToByte(-1) == 255
  {
  }

  lemma AboveOf(x: int, y: int)
    ensures Above(ToByte(x), ToByte(y)) == ToByte(x - y) && Above(ToByte(x), y) == ToByte(x - y)
  {
    hide ToByte;
    WrapSum(x, -y);
    WrapSum(x, -(ToByte(y) as int));
    DropWrap(x, y);
  }

  lemma DropWrap(x: int, y: int)
    ensures ToByte(x - ToByte(y)) == ToByte(x - y)
  {
  }

  lemma AboveShift(i: int, sp: int)
    ensures Above(i, sp) >= 4 ==> Above(i, ToByte(sp + 4)) == Above(i, sp) - 4
    ensures Above(i, ToByte(sp)) == Above(i, sp)
  {
  }

  /** A call that keeps the stack above four pushed bytes keeps those bytes, and everything
      beyond its own depth and theirs. */
  lemma CallKeeps(stack: Stack, sp: int, a: Byte, b: Byte, c: Byte, d: Byte, after: Stack, depth: nat)
    requires StackKept(Framed(stack, sp, a, b, c, d), after, ToByte(sp + 4), depth) && depth <= 248
    ensures after[ToByte(sp)] == a && after[ToByte(sp + 1)] == b
    ensures after[ToByte(sp + 2)] == c && after[ToByte(sp + 3)] == d
    ensures StackKept(stack, after, sp, depth + 4)
  {
    hide Framed, ToByte, Above;
    FourPlaces(stack, sp, a, b, c, d);
    AbovePlaces(sp);
    forall i | 0 <= i < 256 && Above(i, sp) >= depth + 4
      ensures after[i] == stack[i]
    {
      AboveShift(i, sp);
      FramedElsewhere(stack, sp, a, b, c, d, i);
    }
  }

  lemma KeptTogether(a: Stack, b: Stack, c: Stack, sp: int, d: nat, d': nat, deep: nat)
    requires StackKept(a, b, sp, d) && StackKept(b, c, sp, d') && d <= deep && d' <= deep
    ensures StackKept(a, c, sp, deep)
  {
    hide Above;
  }

  // ---------- the recursion ----------

  /** What the routine promises its caller. */
  ghost predicate FibReturns(s: State, n: nat, t: State) {
    && HLof(t) == ToWord(FibNumber(n))
    && t.pc == TopWord(s) && t.sp == ToByte(s.sp - 2)
    && Kept(s, t) && StackKept(s.stack, t.stack, s.sp, Depth(n))
  }

  lemma FibBase(f: Word, s: State, n: nat) returns (t: State, k: nat)
    requires At(f, s, 0) && HLof(s) == n && n < 2
    ensures Busy(s, k, t) && FibReturns(s, n, t)
  {
    hide FibCode, FibByte, Opcode, Busy, HLof, StackKept, TopWord, ToByte;
    AtByte(f, s, 0);
    HeadBytes(f);
    SmallArgument(s, n);
    var a, m := Head(f, s);
    t := ReturnFrom(f, a, if n == 0 then 12 else 18);
    BaseReturns(s, a, t, n);
    BusyCompose(s, m, a, 1, t);
    k := m + 1;
  }

  lemma BaseReturns(s: State, a: State, t: State, n: nat)
    requires SameFrame(s, a) && t == a.(pc := TopWord(a), sp := ToByte(a.sp - 2)) && n < 2 && HLof(s) == n
    ensures FibReturns(s, n, t)
  {
    hide ToByte, TopWord, HLof, ToWord, FibNumber, StackKept;
    SamePairs(s, t);
    SmallFib(n);
    TopFrame(s, a);
    SameKept(s, t, Depth(n));
  }

  lemma SmallFib(n: nat)
    requires n < 2
    ensures ToWord(FibNumber(n)) == n
  {
  }

  lemma TopFrame(s: State, a: State)
    requires SameFrame(s, a)
    ensures TopWord(a) == TopWord(s)
  {
    hide ToByte, Join;
  }

  lemma SameKept(s: State, t: State, depth: nat)
    requires t.stack == s.stack
    ensures StackKept(s.stack, t.stack, s.sp, depth)
  {
    hide Above;
  }

  /** A call has returned with the two bytes below its return address, and the stack below them,
      as they were. */
  ghost predicate Returned(g: State, stack: Stack, sp: int, x: Byte, y: Byte, r: Word, depth: nat) {
    && g.pc == r && g.sp == ToByte(sp + 2)
    && g.stack[ToByte(sp)] == x && g.stack[ToByte(sp + 1)] == y
    && StackKept(stack, g.stack, sp, depth)
  }

  lemma CallReturns(e: State, stack: Stack, sp: Byte, x: Byte, y: Byte, r: Word, m: nat, g: State)
    requires Calling(e, stack, sp, x, y, r) && FibReturns(e, m, g) && Depth(m) <= 248
    ensures Returned(g, stack, sp, x, y, r, Depth(m) + 4)
    ensures HLof(g) == ToWord(FibNumber(m)) && Kept(e, g)
  {
    hide Framed, HLof, FibNumber, Depth, StackKept, ToByte, ToWord, High, Low, Join;
    PointerDropsFrom(sp);
    FourPlaces(stack, sp, x, y, High(r), Low(r));
    CallKeeps(stack, sp, x, y, High(r), Low(r), g.stack, Depth(m));
    WholeWord(r);
  }

  lemma ReturnedParts(g: State, stack: Stack, sp: int, x: Byte, y: Byte, r: Word, depth: nat)
    requires Returned(g, stack, sp, x, y, r, depth)
    ensures g.pc == r && g.sp == ToByte(sp + 2)
    ensures g.stack[ToByte(sp)] == x && g.stack[ToByte(sp + 1)] == y
    ensures StackKept(stack, g.stack, sp, depth)
  {
    hide StackKept, ToByte;
  }

  lemma ReturnsAgain(s: State, n: nat, t: State)
    requires HLof(t) == ToWord(FibNumber(n)) && t.pc == TopWord(s) && t.sp == ToByte(s.sp - 2)
    requires Kept(s, t) && StackKept(s.stack, t.stack, s.sp, Depth(n))
    ensures FibReturns(s, n, t)
  {
    hide HLof, ToWord, FibNumber, TopWord, ToByte, StackKept, Depth;
  }

  lemma AtAgain(f: Word, s: State, k: nat, t: State, j: nat)
    requires At(f, s, k) && Kept(s, t) && t.pc == f + j && j < FIB_SIZE
    ensures At(f, t, j)
  {
    hide FibCode;
  }

  lemma KeptTwice(s: State, t: State, u: State)
    requires Kept(s, t) && Kept(t, u)
    ensures Kept(s, u)
  {
  }

  lemma FrameKept(s: State, t: State)
    requires SameFrame(s, t)
    ensures Kept(s, t) && t.sp == s.sp && t.stack == s.stack && t.h == s.h && t.l == s.l && HLof(t) == HLof(s)
  {
  }

  /** Total correctness: from any stack pointer and any other register contents, a call with
      n <= 64 returns, having met no HALT, no undefined step, and its promises. */
  lemma {:induction false} FibCorrect(f: Word, s: State, n: nat) returns (t: State, k: nat)
    requires At(f, s, 0) && HLof(s) == n && n <= 64
    ensures Busy(s, k, t) && FibReturns(s, n, t)
    decreases n
  {
    hide *;
    if n < 2 {
      t, k := FibBase(f, s, n);
    } else {
      SmallArgument(s, n);
      DepthBounds(n);
      var a, m := Head(f, s);
      FrameKept(s, a);
      Offsets();
      AtAgain(f, s, 0, a, 19);
      var b := ToFirstCall(f, a);
      SmallDifference(n);
      var c, kc := FibCorrect(f, b, n - 1);
      CallReturns(b, s.stack, s.sp, 0, n, f + 25, n - 1, c);
      ReturnedParts(c, s.stack, s.sp, 0, n, f + 25, Depth(n - 1) + 4);
      AtAgain(f, b, 0, c, 25);
      var e := ToSecondCall(f, c, s.sp);
      var g, kg := FibCorrect(f, e, n - 2);
      CallReturns(e, c.stack, s.sp, c.h, c.l, f + 38, n - 2, g);
      ReturnedParts(g, c.stack, s.sp, c.h, c.l, f + 38, Depth(n - 2) + 4);
      AtAgain(f, e, 0, g, 38);
      t := AddResults(f, g, s.sp);
      KeptTogether(s.stack, c.stack, g.stack, s.sp, Depth(n), Depth(n - 2) + 4, Depth(n));
      ReturnAddressKept(s, g, n);
      PairOf(c, c.h, c.l);
      SumOfTwo(n);
      KeptTwice(s, a, b);
      KeptTwice(s, b, c);
      KeptTwice(s, c, e);
      KeptTwice(s, e, g);
      KeptTwice(s, g, t);
      ReturnsAgain(s, n, t);
      BusyCompose(s, m, a, 4, b);
      BusyCompose(s, m + 4, b, kc, c);
      BusyCompose(s, m + 4 + kc, c, 9, e);
      BusyCompose(s, m + 13 + kc, e, kg, g);
      BusyCompose(s, m + 13 + kc + kg, g, 7, t);
      k := m + 20 + kc + kg;
    }
  }

  lemma Offsets()
    ensures 38 < FIB_SIZE
  {
  }

  /** The arguments of the two recursive calls. */
  lemma SmallDifference(n: nat)
    requires 2 <= n <= 64
    ensures ToWord(n - 1) == n - 1 && ToWord(Join(0, n) - 2) == n - 2
  {
  }

  lemma SmallArgument(s: State, n: nat)
    requires HLof(s) == n && n < 256
    ensures s.h == 0 && s.l == n
  {
  }

  lemma DepthBounds(n: nat)
    requires 2 <= n <= 64
    ensures Depth(n - 1) <= 248 && Depth(n - 2) <= Depth(n - 1) && Depth(n) == Depth(n - 1) + 4 && Depth(n) <= 252
  {
  }

  lemma PointerDropsFrom(sp: int)
    ensures ToByte(ToByte(sp + 4) - 1) == ToByte(sp + 3) && ToByte(ToByte(sp + 4) - 2) == ToByte(sp + 2)
  {
    WrapSum(sp + 4, -1);
    WrapSum(sp + 4, -2);
  }

  lemma AroundTwo(sp: int)
    ensures ToByte(ToByte(sp + 2) - 1) == ToByte(sp + 1) && ToByte(ToByte(sp + 2) - 2) == ToByte(sp)
    ensures ToByte(ToByte(sp + 2) + 1) == ToByte(sp + 3) && ToByte(ToByte(sp + 2) + 2) == ToByte(sp + 4)
    ensures ToByte(ToByte(sp + 2) - 3) == ToByte(sp - 1) && ToByte(ToByte(sp + 2) - 4) == ToByte(sp - 2)
  {
    hide ToByte;
    WrapSum(sp + 2, -1);
    WrapSum(sp + 2, -2);
    WrapSum(sp + 2, 1);
    WrapSum(sp + 2, 2);
    WrapSum(sp + 2, -3);
    WrapSum(sp + 2, -4);
  }

  lemma ReturnAddressKept(s: State, g: State, n: nat)
    requires StackKept(s.stack, g.stack, s.sp, Depth(n)) && Depth(n) <= 252
    ensures Join(g.stack[ToByte(s.sp - 2)], g.stack[ToByte(s.sp - 1)]) == TopWord(s)
  {
    hide Above, Depth, ToByte;
    AbovePlaces(s.sp);
  }

  lemma SumOfTwo(n: nat)
    requires n >= 2
    ensures ToWord(ToWord(FibNumber(n - 1)) + ToWord(FibNumber(n - 2))) == ToWord(FibNumber(n))
  {
    hide FibNumber;
    FibStep(n);
    WrapSum(FibNumber(n - 1), ToWord(FibNumber(n - 2)));
    WrapSum(FibNumber(n - 2), FibNumber(n - 1));
  }

  lemma FibStep(n: nat)
    requires n >= 2
    ensures FibNumber(n) == FibNumber(n - 1) + FibNumber(n - 2)
  {
  }
}
