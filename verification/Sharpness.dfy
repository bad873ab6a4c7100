/** The side conditions of the results on frames, carry chains, boundaries and the keyboard ask for no
    more than they need: what they leave out does what they guard against. */
module Sharpness {
  import opened Words
  import opened Isa
  import opened Machine
  import opened Bits
  import opened OperandLaws
  import opened AluLaws
  import opened FlagLaws
  import opened WideLaws
  import opened Definedness
  import opened Syntax
  import opened Lowering
  import Frames
  import Carry
  import Boundaries
  import Keyboard
  import RingBuffer

  /** A state with 1 in every byte but the accumulator. */
  function Ones(acc: Byte, f: Flags): State {
    State(768, acc, 1, 1, 1, 1, f, 1, 1, seq(256, _ => 1), seq(65536, _ => 1))
  }

  function Same(b: bool): Flags { Flags(b, b, b, b, b, b, b, b) }

  lemma OnesOperand(m: Mode, acc: Byte, f: Flags)
    ensures OperandOf(m, Ones(acc, f)) == if m == Acc then acc else if m in {HL, BP, FLAGS} then 0 else 1
  {
  }

  lemma OnesDefined(op: Op, acc: Byte, f: Flags)
    requires Exists(op) && (op.Wide? ==> acc == 1)
    ensures Defined(op, Ones(acc, f))
  {
    var s := Ones(acc, f);
    hide Defined, Ones, OperandOf, WideNumber, Fetches;
    OnesParts(acc, f);
    if op.Do? {
      OnesOperand(op.mode, acc, f);
    } else if op.Wide? {
      OnesWide(op.wideMode, acc, f);
    }
    assert Pow2(1) == 2;
    DefinedInRange(op, s);
  }

  lemma OnesWide(m: Mode, acc: Byte, f: Flags)
    requires m in {Imm, Acc, R0, R1}
    ensures WideNumber(m, Ones(acc, f)) == if m == Imm then 257 else if m == Acc then acc else 1
  {
    hide OperandOf;
    OnesOperand(m, acc, f);
  }

  lemma OnesParts(acc: Byte, f: Flags)
    ensures var s := Ones(acc, f); s.pc == 768 && s.acc == acc && HLof(s) == 257
  {
  }

  // ---------- the stack ----------

  ghost predicate LeavesStack(op: Op)
    requires Exists(op)
  {
    forall s: State :: Defined(op, s) ==>
                         && Exec(op, s).stack == s.stack
                         && Exec(op, s).sp == s.sp
                         && Exec(op, s).bp == s.bp
  }

  /** The operations a trace may take anywhere are exactly those that never touch the stack. */
  lemma HarmlessExactly(op: Op)
    requires Exists(op)
    ensures Frames.Harmless(op) <==> LeavesStack(op)
  {
    hide Exec, Defined, Exists, Ones;
    if Frames.Harmless(op) {
      forall s: State | Defined(op, s)
        ensures Exec(op, s).stack == s.stack && Exec(op, s).sp == s.sp && Exec(op, s).bp == s.bp
      {
        Frames.QuietExec(op, s);
      }
    } else {
      OnesDefined(op, 0, NO_FLAGS);
      TouchesStack(op);
    }
  }

  lemma TouchesStack(op: Op)
    requires Exists(op) && !Frames.Harmless(op) && Defined(op, Ones(0, NO_FLAGS))
    ensures var s, t := Ones(0, NO_FLAGS), Exec(op, Ones(0, NO_FLAGS));
            t.stack != s.stack || t.sp != s.sp || t.bp != s.bp
  {
    var s := Ones(0, NO_FLAGS);
    assert s.sp == 1 && s.bp == 1;
    if op.Do? {
      TouchesFrame(op.kind);
    } else if op.Pop? {
      hide Exec, Defined, Exists, Ones, FlagsByte;
      PopLaw(op.popped, s);
    } else if op.Push? {
      hide Exec, Defined, Exists, Ones, Pushed;
      PushLaw(op.pushed, s);
    } else {
      hide Ones, TopWord, OperandByte, OperandWord;
    }
  }

  /** The slot at the frame pointer does not keep its 1. */
  lemma TouchesFrame(kind: Kind)
    requires kind.Store? || kind.Xch? || kind.Unary?
    requires Exists(Do(kind, Frame)) && Defined(Do(kind, Frame), Ones(0, NO_FLAGS))
    ensures Exec(Do(kind, Frame), Ones(0, NO_FLAGS)).stack != Ones(0, NO_FLAGS).stack
  {
    var s := Ones(0, NO_FLAGS);
    assert Written(Frame, s, 0).stack[0] == 0;
    hide Exec, Defined, Exists;
    OnesOperand(Frame, 0, NO_FLAGS);
    match kind {
      case Store => StoreLaw(Frame, s);
      case Xch => XchLaw(Frame, s);
      case Unary(fn) =>
        var r := UnaryLaw(fn, Frame, s);
        OneChanged(fn, r, s.f.cf, Exec(Do(Unary(fn), Frame), s).f.cf);
        assert Written(Frame, s, r).stack[0] == r;
    }
  }

  lemma OneChanged(fn: UnaryFn, r: Byte, c: bool, c': bool)
    requires UnaryMeans(fn, 1, r, c, c')
    ensures r != 1 && (fn == INC || fn == DEC ==> !c')
  {
    hide BitSet;
    if fn == NOT {
      assert BitSet(r, 0) != BitSet(1, 0);
    }
  }

  // ---------- the carry ----------

  ghost predicate LeavesCarry(op: Op)
    requires Exists(op)
  {
    forall s: State :: Defined(op, s) ==> Exec(op, s).f.cf == s.f.cf
  }

  /** The operations a carry chain may contain between its additions are exactly those that never
      change the carry. */
  lemma NeutralExactly(op: Op)
    requires Exists(op)
    ensures Carry.KeepsCarry(op) <==> LeavesCarry(op)
  {
    hide Exec, Defined, Exists, Ones;
    if Carry.KeepsCarry(op) {
      forall s: State | Defined(op, s)
        ensures Exec(op, s).f.cf == s.f.cf
      {
        Carry.NeutralExec(op, s);
      }
    } else {
      var c := !(op.Do? && op.kind == Alu(SBC)) && !op.Pop?;
      OnesDefined(op, 1, Same(c));
      ChangesCarry(op, c);
    }
  }

  lemma ChangesCarry(op: Op, c: bool)
    requires Exists(op) && !Carry.KeepsCarry(op) && Defined(op, Ones(1, Same(c)))
    requires c == (!(op.Do? && op.kind == Alu(SBC)) && !op.Pop?)
    ensures Exec(op, Ones(1, Same(c))).f.cf != Ones(1, Same(c)).f.cf
  {
    var s := Ones(1, Same(c));
    assert s.f.cf == c && s.acc == 1 && HLof(s) == 257;
    if op.Do? {
      OnesOperand(op.mode, 1, Same(c));
      hide Exec, Defined, Exists, Ones, OperandOf;
      if op.kind.Unary? {
        var r := UnaryLaw(op.kind.unary, op.mode, s);
        OneChanged(op.kind.unary, r, s.f.cf, Exec(op, s).f.cf);
      } else {
        AluExec(op.kind.alu, op.mode, s);
        AddsOnes(op.kind.alu, s.f);
      }
    } else if op.Pop? {
      hide Exec, Defined, Exists, FlagsByte;
      PopLaw(FLAGS, s);
      FlagBit(Exec(op, s).f, 0);
      assert BitSet(1, 0);
    } else if op.UnaryHL? {
      hide Exec, Defined, Exists, Ones;
      PairLaw(op.unary, s);
    } else {
      hide Ones;
    }
  }

  lemma AddsOnes(fn: AluFn, f: Flags)
    requires fn in {ADD, ADC, SUB, SBC} && f.cf == (fn != SBC)
    ensures AluResult(fn, 1, 1, f).1.cf != f.cf
  {
  }

  // ---------- what is behind an instruction ----------

  /** The next instruction can be reached although neither the operand nor the stack names it. */
  ghost predicate CanGoOn(op: Op)
    requires Exists(op)
  {
    exists s: State :: Defined(op, s) && PassedBy(op, s, ToWord(s.pc + Length(op)))
  }

  ghost predicate PassedBy(op: Op, s: State, next: Word)
    requires Exists(op) && Defined(op, s)
  {
    Exec(op, s).pc == next && OperandWord(s) != next && TopWord(s) != next
  }

  lemma FallsThroughExactly(op: Op)
    requires Exists(op) && op != Call && op != JumpExt && op != Reset
    ensures Boundaries.FallsThrough(op) <==> CanGoOn(op)
  {
    hide Exec, Defined, Exists, Ones, OperandWord, TopWord, PassedBy;
    if Boundaries.FallsThrough(op) {
      var b := op.Jump? && op.cond in {IfNotSign, IfNotZero, IfNotCarry};
      OnesDefined(op, 1, Same(b));
      OnesPassed(op, b);
      OnesParts(1, Same(b));
      assert Ones(1, Same(b)).pc == 768;
    } else {
      forall s: State | Defined(op, s)
        ensures !PassedBy(op, s, ToWord(s.pc + Length(op)))
      {
        NotPassed(op, s);
      }
    }
  }

  lemma OnesPassed(op: Op, b: bool)
    requires Exists(op) && Boundaries.FallsThrough(op) && op != Call && op != JumpExt && Defined(op, Ones(1, Same(b)))
    requires b == (op.Jump? && op.cond in {IfNotSign, IfNotZero, IfNotCarry})
    ensures PassedBy(op, Ones(1, Same(b)), ToWord(768 + Length(op)))
  {
    var s := Ones(1, Same(b));
    OnesNamed(1, Same(b));
    hide Exec, Defined, Exists, Ones, OperandWord, TopWord, Length;
    Boundaries.ExecPc(op, s);
    Boundaries.JumpLength(op);
    LengthBound(op);
  }

  lemma LengthBound(op: Op)
    ensures 1 <= Length(op) <= 4
  {
  }

  lemma OnesNamed(acc: Byte, f: Flags)
    ensures var s := Ones(acc, f); OperandWord(s) == 257 && TopWord(s) == 257
  {
  }

  lemma NotPassed(op: Op, s: State)
    requires Exists(op) && Defined(op, s) && !Boundaries.FallsThrough(op) && op != Reset
    ensures !PassedBy(op, s, ToWord(s.pc + Length(op)))
  {
    hide Exec, Defined, Exists, OperandWord, TopWord;
    Boundaries.ExecPc(op, s);
  }

  /** Control goes on to the next line exactly behind a line whose last item goes on. */
  lemma FallsOnExactly(st: Stmt)
    requires Legal(st)
    ensures Boundaries.FallsOn(st) <==> var items := Lower(st);
                                        items != [] && items[|items| - 1].Ins?
                                        && Boundaries.FallsThrough(items[|items| - 1].op)
  {
    match st
    case Use(kind, o) => UseGoesOn(kind, o);
    case Bytes(bs) =>
    case _ =>
  }

  lemma UseGoesOn(kind: Kind, o: Operand)
    requires Accepts(kind, o)
    ensures var items := LowerUse(kind, o);
            items != [] && items[|items| - 1].Ins? && Boundaries.FallsThrough(items[|items| - 1].op)
  {
  }

  // ---------- the keyboard ----------

  /** Neither side is ever stuck: the producer's next access and the routine's next instruction are
      always enabled, and a key can be pressed whenever the last one is through. */
  lemma NothingStuck(g: Word, y: Keyboard.System, key: Byte)
    requires Keyboard.Inv(g, y)
    ensures Keyboard.Enabled(g, y, match y.producer
                                   case Idle => Keyboard.Press(key)
                                   case Checking(_) => Keyboard.Check
                                   case Writing(_) => Keyboard.Fill
                                   case Publishing(_) => Keyboard.Release)
    ensures Keyboard.Inside(g, y.cpu.pc) ==> Keyboard.Enabled(g, y, Keyboard.Instruction)
  {
    hide Keyboard.KeyCode, RingBuffer.RingOk, RingBuffer.Queue, CanStep, Step, Keyboard.Advances, Keyboard.InRoutine;
    if Keyboard.Inside(g, y.cpu.pc) {
      Keyboard.InstructionAdvances(g, y.cpu, y.caller);
    }
  }

  /** The rest of the program may take any step that leaves the buffer and the routine alone and goes
      to an address outside the routine, and may call the routine. */
  lemma ClientFree(g: Word, y: Keyboard.System)
    requires Keyboard.Inv(g, y) && !Keyboard.Inside(g, y.cpu.pc) && CanStep(y.cpu)
    requires var t := Step(y.cpu);
             forall a: Word :: RingBuffer.WRITE_IDX <= a < RingBuffer.FRAME_BUFFER || Keyboard.Inside(g, a) ==>
                                 t.mem[a] == y.cpu.mem[a]
    requires var s := y.cpu;
             Keyboard.Inside(g, Step(s).pc) ==>
               Current(s) == Call && OperandWord(s) == g && s.pc + 3 < 65536 && !Keyboard.Inside(g, s.pc + 3)
    ensures Keyboard.Enabled(g, y, Keyboard.Client(Step(y.cpu)))
  {
    hide Step, CanStep, Current, OperandWord, TopWord;
    var s, t := y.cpu, Step(y.cpu);
    if Keyboard.Inside(g, t.pc) {
      Called(s);
    }
  }

  lemma Called(s: State)
    requires CanStep(s) && Current(s) == Call && s.pc + 3 < 65536
    ensures Step(s).pc == OperandWord(s) && TopWord(Step(s)) == s.pc + 3
  {
    hide OperandWord, PushWord, TopWord, Decode, CanStep, Current;
    StepIs(s);
    WordOnTop(s.pc + 3, s);
    assert TopWord(Step(s)) == TopWord(PushWord(s.pc + 3, s)) by { TopIs(Step(s), PushWord(s.pc + 3, s)); }
  }

  lemma TopIs(s: State, t: State)
    requires s.stack == t.stack && s.sp == t.sp
    ensures TopWord(s) == TopWord(t)
  {
  }

  lemma WordOnTop(w: Word, s: State)
    ensures TopWord(PushWord(w, s)) == w
  {
    hide High, Low, Join;
    WordParts(w);
    PointerBack(s.sp);
  }

  lemma WordParts(w: Word)
    ensures Join(High(w), Low(w)) == w
  {
  }

  lemma PointerBack(p: Byte)
    ensures var q := ToByte(ToByte(p + 1) + 1);
            ToByte(q - 2) == p && ToByte(q - 1) == ToByte(p + 1) && ToByte(p + 1) != p
  {
  }
}
