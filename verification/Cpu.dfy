/** The CPU object: registers and arrays updated in place by one method per instruction family,
    each proved to do what `Machine.Exec` says. */
module CpuModel {
  import opened Words
  import opened Isa
  import opened Machine

  class Cpu {
    var pc: Word
    var acc: Byte
    var r0: Byte
    var r1: Byte
    var h: Byte
    var l: Byte
    var flags: Flags
    var sp: Byte
    var bp: Byte
    const stack: array<Byte>
    var memory: array<Byte>

    ghost predicate Valid()
      reads this
    {
      stack.Length == 256 && memory.Length == 65536 && stack != memory
    }

    ghost function Snapshot(): State
      requires Valid()
      reads this, stack, memory
    {
      State(pc, acc, r0, r1, h, l, flags, sp, bp, stack[..], memory[..])
    }

    // ---------- start-up ----------

    constructor ()
      ensures Valid() && fresh(stack) && fresh(memory)
      ensures Snapshot() == Initial()
    {
      pc, flags := PROGRAM_START, NO_FLAGS;
      acc, r0, r1, h, l, sp, bp := 0, 0, 0, 0, 0, 0, 0;
      stack := new Byte[256](_ => 0);
      memory := new Byte[65536](_ => 0);
      new;
      assert stack[..] == Zeros(256);
      assert memory[..] == Zeros(65536);
    }

    method Init()
      requires Valid()
      modifies this, stack
      ensures Valid() && fresh(memory)
      ensures Snapshot() == Initial()
      ensures pc == 256 && acc == r0 == r1 == h == l == sp == bp == 0 && FlagsByte(flags) == 0
      ensures (forall i :: 0 <= i < 256 ==> stack[i] == 0) && forall i :: 0 <= i < 65536 ==> memory[i] == 0
    {
      pc, flags := PROGRAM_START, NO_FLAGS;
      acc, r0, r1, h, l, sp, bp := 0, 0, 0, 0, 0, 0, 0;
      for i := 0 to 256
        invariant Valid() && memory == old(memory)
        invariant pc == PROGRAM_START && flags == NO_FLAGS
        invariant acc == r0 == r1 == h == l == sp == bp == 0
        invariant forall j :: 0 <= j < i ==> stack[j] == 0
      {
        stack[i] := 0;
      }
      NoFlagsByte();
      memory := new Byte[65536](_ => 0);
      assert stack[..] == Zeros(256);
      assert memory[..] == Zeros(65536);
    }

    /** `loadProgram`: its length parameter is a `uint16_t`. */
    method LoadProgram(program: seq<Byte>, length: Word)
      requires Valid() && length <= |program|
      modifies memory
      ensures Valid()
      ensures Snapshot() == old(Snapshot()).(mem := program[..length] + old(Snapshot()).mem[length..])
    {
      for i := 0 to length
        invariant forall j :: 0 <= j < i ==> memory[j] == program[j]
        invariant forall j :: i <= j < 65536 ==> memory[j] == old(memory[j])
      {
        memory[i] := program[i];
      }
      assert memory[..] == program[..length] + old(memory[length..]);
    }

    // ---------- operands ----------

    /** `pc_inc`. */
    method AdvancePc(n: nat)
      requires Valid()
      modifies `pc
      ensures Snapshot() == Advance(old(Snapshot()), n)
    {
      pc := ToWord(pc + n);
    }

    /** The `src` or `dest` of an instruction macro, read once PC has been advanced past it. */
    function Source(m: Mode): (p: Place)
      requires Valid() && Reads(m, Snapshot())
      reads this, stack, memory
      ensures p == PlaceBefore(m, Snapshot())
    {
      match m
      case Imm => Value(memory[pc - 1])
      case MemImm => Cell(Join(memory[pc - 2], memory[pc - 1]))
      case MemL => Cell(l)
      case MemHL => Cell(Join(h, l))
      case Acc => AccReg
      case R0 => R0Reg
      case R1 => R1Reg
      case L => LReg
      case H => HReg
      case Frame => Slot(ToByte(bp - memory[pc - 1]))
      case _ => Value(0)
    }

    function Read(p: Place): (v: Byte)
      requires Valid()
      reads this, stack, memory
      ensures v == Get(p, Snapshot())
    {
      match p
      case Value(v) => v
      case AccReg => acc
      case R0Reg => r0
      case R1Reg => r1
      case LReg => l
      case HReg => h
      case Cell(a) => memory[a]
      case Slot(i) => stack[i]
    }

    method Write(p: Place, v: Byte)
      requires Valid()
      modifies this, stack, memory
      ensures Valid() && memory == old(memory)
      ensures Snapshot() == Put(p, v, old(Snapshot()))
    {
      match p
      case Value(_) =>
      case AccReg => acc := v;
      case R0Reg => r0 := v;
      case R1Reg => r1 := v;
      case LReg => l := v;
      case HReg => h := v;
      case Cell(a) => memory[a] := v;
      case Slot(i) => stack[i] := v;
    }

    /** `UPDATE_ZF(v); UPDATE_SF(v)`. */
    method UpdateZeroSign(v: Byte)
      requires Valid()
      modifies `flags
      ensures Snapshot() == old(Snapshot()).(f := ZeroSign(old(flags), v))
    {
      flags := flags.(zf := v == 0);
      flags := flags.(sf := v >= 128);
    }

    // ---------- instructions with a one-byte operand ----------

    method Load(m: Mode)
      requires Valid() && Fetches(Snapshot(), Size(m))
      modifies this, stack, memory
      ensures Valid() && memory == old(memory)
      ensures Snapshot() == Perform(Isa.Load, PlaceOf(m, old(Snapshot())), Advance(old(Snapshot()), Size(m)))
    {
      hide Get, PlaceOf, PlaceBefore, Reads, Fetches;
      PlaceAfterAdvance(m, Snapshot());
      AdvancePc(Size(m));
      acc := Read(Source(m));
      UpdateZeroSign(acc);
    }

    method Store(m: Mode)
      requires Valid() && Fetches(Snapshot(), Size(m))
      modifies this, stack, memory
      ensures Valid() && memory == old(memory)
      ensures Snapshot() == Perform(Isa.Store, PlaceOf(m, old(Snapshot())), Advance(old(Snapshot()), Size(m)))
    {
      hide Get, PlaceOf, PlaceBefore, Reads, Fetches, Put;
      PlaceAfterAdvance(m, Snapshot());
      AdvancePc(Size(m));
      var val := acc;
      PutKeeps(Source(m), val, Snapshot(), flags);
      Write(Source(m), val);
      UpdateZeroSign(acc);
    }

    method Xch(m: Mode)
      requires Valid() && Fetches(Snapshot(), Size(m))
      requires m != Acc
      modifies this, stack, memory
      ensures Valid() && memory == old(memory)
      ensures Snapshot() == Perform(Isa.Xch, PlaceOf(m, old(Snapshot())), Advance(old(Snapshot()), Size(m)))
    {
      hide Get, PlaceBefore, Reads, Fetches, Put;
      PlaceAfterAdvance(m, Snapshot());
      AdvancePc(Size(m));
      var help := acc;
      var p := Source(m);
      acc := Read(p);
      ghost var g := ZeroSign(flags, acc);
      PutKeeps(p, help, Snapshot(), g);
      Write(p, help);
      UpdateZeroSign(acc);
    }

    /** ADD, ADC, SUB, SBC, AND, OR, XOR, SHL, SHR, ROL, ROR, CMP, MIN and MAX. */
    method AluOp(fn: AluFn, m: Mode)
      requires Valid() && DoFetches(Isa.Alu(fn), m, Snapshot())
      requires AluDefined(fn, acc, Get(AluPlace(fn, m, Snapshot()), Snapshot()))
      modifies this, stack, memory
      ensures Valid() && memory == old(memory)
      ensures Snapshot() == Perform(Isa.Alu(fn), AluPlace(fn, m, old(Snapshot())), Advance(old(Snapshot()), Size(m)))
    {
      ghost var before := Snapshot();
      var src := FetchAlu(fn, m);
      AluOnByte(fn, src);
      GetAdvanced(AluPlace(fn, m, before), before, Size(m));
    }

    /** Advances PC and reads `src`. */
    method FetchAlu(fn: AluFn, m: Mode) returns (src: Byte)
      requires Valid() && DoFetches(Isa.Alu(fn), m, Snapshot())
      modifies `pc
      ensures Snapshot() == Advance(old(Snapshot()), Size(m))
      ensures src == Get(AluPlace(fn, m, old(Snapshot())), old(Snapshot()))
    {
      ghost var before := Snapshot();
      if fn == MIN && m == Imm {
        AdvancePc(2);
        src := memory[pc - 2];
      } else {
        hide Get, PlaceOf, PlaceBefore, Fetches;
        PlaceAfterAdvance(m, before);
        AdvancePc(Size(m));
        src := Read(Source(m));
        GetAdvanced(PlaceOf(m, before), before, Size(m));
      }
    }

    /** What follows the operand fetch in each of the macros. */
    method AluOnByte(fn: AluFn, src: Byte)
      requires Valid() && AluDefined(fn, acc, src)
      modifies `acc, `flags
      ensures Snapshot() == old(Snapshot()).(acc := AluResult(fn, old(acc), src, old(flags)).0,
                                             f := AluResult(fn, old(acc), src, old(flags)).1)
    {
      match fn
      case ADD => Add(src);
      case ADC => AddWithCarry(src);
      case SUB => Subtract(src);
      case SBC => SubtractWithCarry(src);
      case AND | OR | XOR => Bitwise(fn, src);
      case SHL | SHR | ROL | ROR => ShiftOrRotate(fn, src);
      case CMP | MIN | MAX => Compare(fn, src);
    }

    method Add(src: Byte)
      requires Valid()
      modifies `acc, `flags
      ensures Snapshot() == old(Snapshot()).(acc := AluResult(ADD, old(acc), src, old(flags)).0,
                                             f := AluResult(ADD, old(acc), src, old(flags)).1)
    {
      acc := ToByte(acc + src);
      UpdateZeroSign(acc);
      flags := flags.(cf := acc < src);
    }

    method AddWithCarry(src: Byte)
      requires Valid()
      modifies `acc, `flags
      ensures Snapshot() == old(Snapshot()).(acc := AluResult(ADC, old(acc), src, old(flags)).0,
                                             f := AluResult(ADC, old(acc), src, old(flags)).1)
    {
      var total := acc + src + Bit(flags.cf);
      acc := ToByte(total);
      UpdateZeroSign(acc);
      flags := flags.(cf := total >= 256);
    }

    method Subtract(src: Byte)
      requires Valid()
      modifies `acc, `flags
      ensures Snapshot() == old(Snapshot()).(acc := AluResult(SUB, old(acc), src, old(flags)).0,
                                             f := AluResult(SUB, old(acc), src, old(flags)).1)
    {
      acc := ToByte(acc - src);
      UpdateZeroSign(acc);
      flags := flags.(cf := acc > src);
    }

    method SubtractWithCarry(src: Byte)
      requires Valid()
      modifies `acc, `flags
      ensures Snapshot() == old(Snapshot()).(acc := AluResult(SBC, old(acc), src, old(flags)).0,
                                             f := AluResult(SBC, old(acc), src, old(flags)).1)
    {
      var oldAcc := acc;
      var val := ToWord(src - (1 - Bit(flags.cf)));
      acc := ToByte(acc - val);
      UpdateZeroSign(acc);
      flags := flags.(cf := oldAcc >= val);
    }

    method Bitwise(fn: AluFn, src: Byte)
      requires fn in {AND, OR, XOR}
      requires Valid() && AluDefined(fn, acc, src)
      modifies `acc, `flags
      ensures Snapshot() == old(Snapshot()).(acc := AluResult(fn, old(acc), src, old(flags)).0,
                                             f := AluResult(fn, old(acc), src, old(flags)).1)
    {
      if fn == AND {
        acc := AndByte(acc, src);
      } else if fn == OR {
        acc := OrByte(acc, src);
      } else {
        acc := XorByte(acc, src);
      }
      UpdateZeroSign(acc);
    }

    method ShiftOrRotate(fn: AluFn, src: Byte)
      requires IsShift(fn)
      requires Valid() && AluDefined(fn, acc, src)
      modifies `acc, `flags
      ensures Snapshot() == old(Snapshot()).(acc := AluResult(fn, old(acc), src, old(flags)).0,
                                             f := AluResult(fn, old(acc), src, old(flags)).1)
    {
      hide OrByte, Pow2;
      var rot := src;
      if fn == SHL {
        acc := ToByte(acc * Pow2(rot));
      } else if fn == SHR {
        acc := ToByte(acc / Pow2(rot));
      } else if fn == ROL {
        acc := OrByte(ToByte(acc * Pow2(rot)), ToByte(acc / Pow2(-(rot as int) % 8)));
      } else {
        acc := OrByte(ToByte(acc / Pow2(rot)), ToByte(acc * Pow2(-(rot as int) % 8)));
      }
      UpdateZeroSign(acc);
    }

    method Compare(fn: AluFn, src: Byte)
      requires fn in {CMP, MIN, MAX}
      requires Valid() && AluDefined(fn, acc, src)
      modifies `acc, `flags
      ensures Snapshot() == old(Snapshot()).(acc := AluResult(fn, old(acc), src, old(flags)).0,
                                             f := AluResult(fn, old(acc), src, old(flags)).1)
    {
      if fn == CMP {
        var val := ToByte(acc - src);
        UpdateZeroSign(val);
      } else {
        if fn == MIN && src < acc {
          acc := src;
        }
        if fn == MAX && src > acc {
          acc := src;
        }
        UpdateZeroSign(acc);
      }
    }

    /** INC, DEC, NEG and NOT. */
    method UnaryOp(fn: UnaryFn, m: Mode)
      requires Valid() && Fetches(Snapshot(), Size(m))
      modifies this, stack, memory
      ensures Valid() && memory == old(memory)
      ensures Snapshot() == Perform(Isa.Unary(fn), PlaceOf(m, old(Snapshot())), Advance(old(Snapshot()), Size(m)))
    {
      hide Get, PlaceOf, PlaceBefore, Reads, Fetches, Put;
      PlaceAfterAdvance(m, Snapshot());
      AdvancePc(Size(m));
      var p := Source(m);
      var v := UnaryValue(fn, Read(p));
      PutKeeps(p, v, Snapshot(), UnaryFlags(fn, v, flags));
      Write(p, v);
      UpdateZeroSign(v);
      match fn
      case INC => flags := flags.(cf := v == 0);
      case DEC => flags := flags.(cf := v == 255);
      case NEG | NOT =>
    }

    // ---------- HL ----------

    method SetPair(w: Word)
      requires Valid()
      modifies `h, `l
      ensures Snapshot() == SetHL(old(Snapshot()), w)
    {
      h := High(w);
      l := Low(w);
    }

    /** INC, DEC, NEG and NOT of the HL pair. */
    method UnaryPair(fn: UnaryFn)
      requires Valid()
      modifies this
      ensures Valid() && memory == old(memory)
      ensures Snapshot() == PerformUnaryHL(fn, Advance(old(Snapshot()), 1))
    {
      hide UnaryWord, High, Low, Join, ToWord;
      AdvancePc(1);
      var w := UnaryWord(fn, Join(h, l));
      SetPair(w);
      flags := flags.(zf := w == 0);
      flags := flags.(sf := Low(w) >= 128);
      match fn
      case INC => flags := flags.(cf := w == 0);
      case DEC => flags := flags.(cf := w == 65535);
      case NEG | NOT =>
    }

    /** ADDW, SUBW, MULW and DIVW. */
    method WideOp(fn: WideFn, m: Mode)
      requires Valid() && Exists(Wide(fn, m)) && Fetches(Snapshot(), Length(Wide(fn, m)))
      requires WideDefined(fn, HLof(Snapshot()), WideOperand(m, Snapshot()))
      modifies this
      ensures Valid() && memory == old(memory)
      ensures Snapshot()
           == PerformWide(fn, WideOperand(m, old(Snapshot())), Advance(old(Snapshot()), Length(Wide(fn, m))))
    {
      hide WideOperand, WideValue, WideDefined, Fetches, High, Low, Length, ToWord, Exists, Join;
      var src := FetchWide(fn, m);
      var val := WideValue(fn, Join(h, l), src);
      ZeroPair(val);
      SetPair(val);
      flags := flags.(zf := h == 0 && l == 0);
      flags := flags.(sf := h >= 128);
    }

    method FetchWide(fn: WideFn, m: Mode) returns (src: Word)
      requires Valid() && Exists(Wide(fn, m)) && Fetches(Snapshot(), Length(Wide(fn, m)))
      modifies `pc
      ensures Snapshot() == Advance(old(Snapshot()), Length(Wide(fn, m)))
      ensures src == WideOperand(m, old(Snapshot()))
    {
      ghost var before := Snapshot();
      if m == Imm {
        AdvancePc(3);
        PlaceAfterAdvance(MemImm, before);
        src := Join(memory[pc - 2], memory[pc - 1]);
      } else {
        AdvancePc(1);
        PlaceAfterAdvance(m, before);
        src := Read(Source(m));
      }
    }

    // ---------- control ----------

    method JumpOp(c: Cond)
      requires Valid() && JumpDefined(c, Snapshot())
      modifies `pc
      ensures Snapshot() == ExecJump(c, old(Snapshot()))
    {
      hide Join, Fetches;
      if c == Always {
        pc := Join(memory[pc + 1], memory[pc + 2]);
      } else {
        ghost var before := Snapshot();
        if !Holds(c, flags) {
          AdvancePc(3);
        } else {
          pc := FetchAddress();
        }
      }
    }

    method JumpExtOp()
      requires Valid() && JumpExtDefined(Snapshot())
      modifies `pc
      ensures Snapshot() == ExecJumpExt(old(Snapshot()))
    {
      hide HoldsExt, OperandByte, Join, JumpExtDefined;
      ghost var before := Snapshot();
      JumpExtReads(before);
      AdvancePc(1);
      var jext := memory[pc];
      if HoldsExt(jext, flags) {
        pc := Join(memory[pc + 1], memory[pc + 2]);
      }
    }

    method CallOp()
      requires Valid() && Fetches(Snapshot(), 3)
      modifies this, stack
      ensures Valid() && memory == old(memory)
      ensures Snapshot() == ExecCall(old(Snapshot()))
    {
      hide PushWord, Join, Fetches, ToWord;
      ghost var before := Snapshot();
      var addr := FetchAddress();
      PushReturn();
      PushMoves(ToWord(before.pc + 3), before, ToWord(before.pc + 3));
      pc := addr;
    }

    /** Advances PC past the instruction and reads its address. */
    method FetchAddress() returns (addr: Word)
      requires Valid() && Fetches(Snapshot(), 3)
      modifies `pc
      ensures Snapshot() == Advance(old(Snapshot()), 3) && addr == OperandWord(old(Snapshot()))
    {
      ghost var before := Snapshot();
      AdvancePc(3);
      PlaceAfterAdvance(MemImm, before);
      addr := Join(memory[pc - 2], memory[pc - 1]);
    }

    method PushReturn()
      requires Valid()
      modifies this, stack
      ensures Valid() && memory == old(memory)
      ensures Snapshot() == PushWord(old(pc), old(Snapshot()))
    {
      hide High, Low, PushByte;
      var w := pc;
      PushOnStack(High(w));
      PushOnStack(Low(w));
    }

    /** The low byte was pushed last. */
    method PopWord() returns (w: Word)
      requires Valid()
      modifies `sp
      ensures sp == ToByte(old(sp) - 2)
      ensures w == TopWord(old(Snapshot()))
    {
      sp := ToByte(sp - 1);
      var low := stack[sp];
      sp := ToByte(sp - 1);
      var high := stack[sp];
      w := Join(high, low);
    }

    method RetOp()
      requires Valid()
      modifies this
      ensures Valid() && memory == old(memory)
      ensures Snapshot() == ExecRet(old(Snapshot()), 0)
    {
      pc := PopWord();
    }

    method RetImmOp()
      requires Valid() && pc + 1 < 65536
      modifies this
      ensures Valid() && memory == old(memory)
      ensures Snapshot() == ExecRet(old(Snapshot()), OperandByte(old(Snapshot()), 0))
    {
      hide ToByte, Join;
      assert ToWord(pc + 1) == pc + 1;
      var toPop := memory[pc + 1];
      WrapSum(sp - 2, -(toPop as int));
      pc := PopWord();
      sp := ToByte(sp - toPop);
    }

    method EnterOp()
      requires Valid() && Fetches(Snapshot(), 2)
      modifies this, stack
      ensures Valid() && memory == old(memory)
      ensures Snapshot() == ExecEnter(old(Snapshot()))
    {
      AdvancePc(2);
      PushOnStack(bp);
      bp := sp;
      sp := ToByte(sp + memory[pc - 1]);
    }

    method LeaveOp()
      requires Valid()
      modifies this
      ensures Valid() && memory == old(memory)
      ensures Snapshot() == ExecLeave(old(Snapshot()))
    {
      AdvancePc(1);
      sp := bp;
      sp := ToByte(sp - 1);
      bp := stack[sp];
    }

    // ---------- the stack ----------

    /** `STACK(SP++) = v`. */
    method PushOnStack(v: Byte)
      requires Valid()
      modifies this, stack
      ensures Valid() && memory == old(memory)
      ensures Snapshot() == PushByte(v, old(Snapshot()))
    {
      stack[sp] := v;
      sp := ToByte(sp + 1);
    }

    method PushOp(m: Mode)
      requires Valid() && Exists(Push(m))
      modifies this, stack
      ensures Valid() && memory == old(memory)
      ensures Snapshot() == PerformPush(PushedByte(m, old(Snapshot())), Advance(old(Snapshot()), Length(Push(m))))
    {
      var val := FetchPush(m);
      PushOnStack(val);
      UpdateZeroSign(val);
    }

    method FetchPush(m: Mode) returns (val: Byte)
      requires Valid() && Exists(Push(m))
      modifies `pc
      ensures Snapshot() == Advance(old(Snapshot()), Length(Push(m)))
      ensures val == PushedByte(m, old(Snapshot()))
    {
      hide Get, PlaceOf, FlagsByte, OperandByte;
      ghost var before := Snapshot();
      AdvancePc(1);
      if m == Imm {
        val := memory[pc];
        AdvancePc(1);
        SecondByte(before);
      } else if m == BP {
        val := bp;
      } else if m == FLAGS {
        val := FlagsByte(flags);
      } else {
        val := Read(Source(m));
        RegisterPlace(m, before);
      }
    }

    method PopOp(m: Mode)
      requires Valid() && Exists(Pop(m)) && Fetches(Snapshot(), Length(Pop(m)))
      modifies this, stack, memory
      ensures Valid() && memory == old(memory)
      ensures Snapshot() == ExecPop(m, old(Snapshot()))
    {
      hide PlaceOf, PerformPop, Fetches, ByteFlags, ToByte;
      if m == FLAGS {
        PopFlags();
      } else if m == BP {
        PopFrame();
      } else {
        PopToPlace(m);
      }
    }

    method PopFlags()
      requires Valid()
      modifies `pc, `sp, `flags
      ensures Snapshot() == DropByte(Advance(old(Snapshot()), 1)).(f := ByteFlags(Top(old(Snapshot()))))
    {
      hide ByteFlags;
      AdvancePc(1);
      sp := ToByte(sp - 1);
      flags := ByteFlags(stack[sp]);
    }

    method PopFrame()
      requires Valid()
      modifies `pc, `sp, `bp, `flags
      ensures var v, t := Top(old(Snapshot())), DropByte(Advance(old(Snapshot()), 1));
              Snapshot() == t.(bp := v, f := ZeroSign(old(flags), v))
    {
      AdvancePc(1);
      sp := ToByte(sp - 1);
      var val := stack[sp];
      bp := val;
      UpdateZeroSign(val);
    }

    method PopToPlace(m: Mode)
      requires Valid() && Fetches(Snapshot(), Size(m))
      modifies this, stack, memory
      ensures Valid() && memory == old(memory)
      ensures Snapshot() == PerformPop(PlaceOf(m, old(Snapshot())), Advance(old(Snapshot()), Size(m)))
    {
      hide Get, Put, PlaceOf, Fetches;
      ghost var before := Snapshot();
      PlaceAfterAdvance(m, before);
      AdvancePc(Size(m));
      var p := Source(m);
      sp := ToByte(sp - 1);
      var val := stack[sp];
      PutKeeps(p, val, Snapshot(), ZeroSign(flags, val));
      Write(p, val);
      UpdateZeroSign(val);
    }

    // ---------- address arithmetic ----------

    method LoadLImm()
      requires Valid() && Defined(LoadLI, Snapshot())
      modifies this
      ensures Valid() && memory == old(memory)
      ensures Snapshot() == Exec(LoadLI, old(Snapshot()))
    {
      AdvancePc(2);
      l := memory[pc - 1];
    }

    method AddLImm()
      requires Valid() && Defined(AddLI, Snapshot())
      modifies this
      ensures Valid() && memory == old(memory)
      ensures Snapshot() == Exec(AddLI, old(Snapshot()))
    {
      AdvancePc(2);
      l := ToByte(l + memory[pc - 1]);
    }

    method LoadPairImm()
      requires Valid() && Defined(LoadHLI, Snapshot())
      modifies this
      ensures Valid() && memory == old(memory)
      ensures Snapshot() == Exec(LoadHLI, old(Snapshot()))
    {
      hide OperandWord, High, Low;
      var val := FetchAddress();
      SetPair(val);
    }

    method AddPairImm()
      requires Valid() && Defined(AddHLI, Snapshot())
      modifies this
      ensures Valid() && memory == old(memory)
      ensures Snapshot() == Exec(AddHLI, old(Snapshot()))
    {
      hide OperandWord, High, Low, Join;
      var val := FetchAddress();
      SetPair(ToWord(Join(h, l) + val));
    }

    // ---------- dispatch ----------

    /** Executes one instruction; the result is the opcode PC then points at. */
    method StepCpu() returns (next: Byte)
      requires Valid() && CanStep(Snapshot())
      modifies this, stack, memory
      ensures Valid() && (memory == old(memory) || fresh(memory))
      ensures Snapshot() == Step(old(Snapshot()))
      ensures next == memory[pc]
    {
      hide Exec, Defined, Decode, Exists;
      OpcodeDecode(memory[pc]);
      Dispatch(Decode(memory[pc]));
      next := memory[pc];
    }

    /** The call through the dispatch table. */
    method Dispatch(op: Op)
      requires Valid() && Exists(op) && Defined(op, Snapshot())
      modifies this, stack, memory
      ensures Valid() && (memory == old(memory) || fresh(memory))
      ensures Snapshot() == Exec(op, old(Snapshot()))
    {
      hide Exec, Defined, Exists;
      if IsData(op) {
        DispatchData(op);
      } else if op == Reset {
        ResetIs(Snapshot());
        Init();
      } else {
        DispatchControl(op);
      }
    }

    method DispatchData(op: Op)
      requires Valid() && Exists(op) && Defined(op, Snapshot()) && IsData(op)
      modifies this, stack, memory
      ensures Valid() && memory == old(memory)
      ensures Snapshot() == Exec(op, old(Snapshot()))
    {
      match op
      case Do(kind, m) => DispatchDo(kind, m);
      case UnaryHL(fn) => UnaryPair(fn);
      case Wide(fn, m) => WideOp(fn, m);
      case LoadLI => LoadLImm();
      case LoadHLI => LoadPairImm();
      case AddLI => AddLImm();
      case AddHLI => AddPairImm();
      case Noop | Ei | Di | Et | Dt | Clra => Simple(op);
    }

    method DispatchControl(op: Op)
      requires Valid() && Exists(op) && Defined(op, Snapshot()) && !IsData(op) && op != Reset
      modifies this, stack, memory
      ensures Valid() && memory == old(memory)
      ensures Snapshot() == Exec(op, old(Snapshot()))
    {
      match op
      case Jump(c) => JumpOp(c);
      case JumpExt => JumpExtOp();
      case Push(m) => PushOp(m);
      case Pop(m) => PopOp(m);
      case Call => CallOp();
      case Ret => RetOp();
      case RetI => RetImmOp();
      case Enter => EnterOp();
      case Leave => LeaveOp();
      case Halt =>
    }

    method DispatchDo(kind: Kind, m: Mode)
      requires Valid() && Exists(Do(kind, m)) && DoFetches(kind, m, Snapshot())
      requires Performs(kind, DoPlace(kind, m, Snapshot()), Snapshot())
      modifies this, stack, memory
      ensures Valid() && memory == old(memory)
      ensures Snapshot() == Perform(kind, DoPlace(kind, m, old(Snapshot())), Advance(old(Snapshot()), Size(m)))
    {
      match kind
      case Load => Load(m);
      case Store => Store(m);
      case Xch => Xch(m);
      case Alu(fn) => AluOp(fn, m);
      case Unary(fn) => UnaryOp(fn, m);
    }

    /** NOOP, EI, DI, ET, DT and CLRA. EI and DI act on the overflow bit. */
    method Simple(op: Op)
      requires Valid() && op in {Noop, Ei, Di, Et, Dt, Clra}
      modifies `pc, `acc, `flags
      ensures Snapshot() == Exec(op, old(Snapshot()))
    {
      AdvancePc(1);
      match op {
        case Ei => flags := flags.(of := true);
        case Di => flags := flags.(of := false);
        case Et => flags := flags.(tf := true);
        case Dt => flags := flags.(tf := false);
        case Clra =>
          acc := 0;
          flags := flags.(zf := true);
        case _ =>
      }
    }

    /** `runCpu`: steps until PC points at a HALT. The run it performs is the one of length n that
        first gets there; if there is none it does not return. */
    method RunCpu(ghost n: nat)
      requires Valid() && HaltsIn(Snapshot(), n)
      modifies this, stack, memory
      ensures Valid() && (memory == old(memory) || fresh(memory))
      ensures Run(old(Snapshot()), n, Snapshot()) && Halted(Snapshot())
    {
      hide CanStep, Step;
      ghost var k := n - 1;
      var next := StepCpu();
      assert Run(old(Snapshot()), 1, Snapshot()) by { assert Run(Snapshot(), 0, Snapshot()); }
      while next != HALT
        invariant Valid() && (memory == old(memory) || fresh(memory))
        invariant 0 <= k < n && next == memory[pc]
        invariant Run(old(Snapshot()), n - k, Snapshot())
        invariant if next == HALT then k == 0 else HaltsIn(Snapshot(), k)
        decreases k
      {
        ghost var s := Snapshot();
        next := StepCpu();
        RunExtends(old(Snapshot()), n - k, s);
        k := k - 1;
      }
    }
  }

  /** The operations that leave the stack alone and go on to the next instruction. */
  predicate IsData(op: Op) {
    op.Do? || op.UnaryHL? || op.Wide? || op in {LoadLI, LoadHLI, AddLI, AddHLI, Noop, Ei, Di, Et, Dt, Clra}
  }

  /** Behind a JEXT opcode, PC reads its operands. */
  lemma JumpExtReads(s: State)
    requires JumpExtDefined(s)
    ensures var t := Advance(s, 1);
            && OperandByte(s, 0) == s.mem[t.pc]
            && (HoldsExt(OperandByte(s, 0), s.f) ==>
                  && t.pc + 2 < 65536
                  && OperandByte(s, 1) == s.mem[t.pc + 1] && OperandByte(s, 2) == s.mem[t.pc + 2])
  {
    hide HoldsExt;
  }

  lemma SecondByte(s: State)
    ensures OperandByte(s, 0) == s.mem[Advance(s, 1).pc] && Advance(Advance(s, 1), 1) == Advance(s, 2)
    ensures Get(PlaceOf(Imm, s), s) == OperandByte(s, 0)
  {
  }

  lemma RegisterPlace(m: Mode, s: State)
    requires m in {Acc, R0, R1, L, H}
    ensures Get(PlaceBefore(m, Advance(s, 1)), Advance(s, 1)) == Get(PlaceOf(m, s), s)
  {
  }

  lemma ResetIs(s: State)
    ensures Exists(Reset) && Defined(Reset, s) && Exec(Reset, s) == Initial()
  {
  }

  /** What is pushed does not depend on PC. */
  lemma PushMoves(w: Word, s: State, at: Word)
    ensures forall to: Word :: PushWord(w, s.(pc := at)).(pc := to) == PushWord(w, s).(pc := to)
  {
    hide High, Low, ToByte;
  }

  lemma GetAdvanced(p: Place, s: State, n: nat)
    ensures Get(p, Advance(s, n)) == Get(p, s)
  {
  }
}
