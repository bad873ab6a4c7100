/** Where an instruction does less than its name promises: exactly when it still does. */
module Departures {
  import opened Words
  import opened Isa
  import opened Machine
  import opened Encoding
  import opened Syntax
  import opened Lowering
  import opened Source
  import opened Spelling

  // ---------- a state to start from ----------

  /** A fresh CPU with these bytes from PROGRAM_START on. */
  function Coded(code: seq<Byte>): State
    requires |code| <= 65280
  {
    Initial().(mem := Zeros(256) + code + Zeros(65280 - |code|))
  }

  lemma CodedBytes(code: seq<Byte>, s: State)
    requires 0 < |code| <= 65280 && s.mem == Coded(code).mem && s.pc == 256
    ensures s.mem[s.pc] == code[0]
    ensures forall i :: 0 < i < |code| ==> OperandByte(s, i - 1) == code[i]
  {
    assert forall i :: 0 <= i < |code| ==> s.mem[256 + i] == code[i];
  }

  // ---------- arithmetic ----------

  /** ADD's carry is right for all operands. */
  lemma AddCarry(a: Byte, v: Byte, f: Flags)
    ensures AluResult(ADD, a, v, f).1.cf <==> a + v >= 256
    ensures AluResult(ADD, a, v, f).0 + 256 * Bit(AluResult(ADD, a, v, f).1.cf) == a + v
  {
  }

  /** SUB compares the new accumulator with the operand: its carry is the borrow exactly when the
      operand is at most the accumulator and at least half of it, or above the accumulator and
      below half of the accumulator plus 256. */
  lemma SubtractBorrow(a: Byte, v: Byte, f: Flags)
    ensures (AluResult(SUB, a, v, f).1.cf <==> a < v)
       <==> if v <= a then a <= 2 * v else 2 * v < a + 256
  {
    var w := a + 256;
    assert v <= a ==> ToByte(a - v) == a - v;
    assert v > a ==> ToByte(a - v) == w - v;
  }

  /** 100 - 10 sets the carry although nothing is borrowed. */
  lemma SubtractExample()
    ensures AluResult(SUB, 100, 10, NO_FLAGS) == (90, NO_FLAGS.(cf := true))
  {
  }

  /** SBC adds what it should subtract: the result is a - v - (1 - CF) exactly when CF is set, and
      never a - v - CF. */
  lemma SubtractWithBorrow(a: Byte, v: Byte, f: Flags)
    ensures AluResult(SBC, a, v, f).0 == ToByte(a - v - (1 - Bit(f.cf))) <==> f.cf
    ensures AluResult(SBC, a, v, f).0 != ToByte(a - v - Bit(f.cf))
  {
    var d := (a as int) - v;
    var c := 1 - Bit(f.cf);
    BorrowWraps(a, v, c);
    OffByOne(d);
    OffByTwo(d);
  }

  /** SBC 3 from 10 with the carry clear is 8: neither 10 - 3 - 1 nor 10 - 3. */
  lemma SubtractWithBorrowExample()
    ensures AluResult(SBC, 10, 3, NO_FLAGS).0 == 8
  {
  }

  lemma BorrowWraps(a: Byte, v: Byte, c: int)
    requires 0 <= c <= 1
    ensures ToByte(a - ToWord(v - c)) == ToByte(a - v + c)
  {
    if v - c < 0 {
      assert ToWord(v - c) == 65535;
      assert a - 65535 == a - v + c - 256 * 256;
      WholeTurns(a - v + c, -256);
    }
  }

  lemma OffByOne(d: int)
    ensures ToByte(d) != ToByte(d + 1) && ToByte(d - 1) != ToByte(d)
  {
  }

  lemma OffByTwo(d: int)
    ensures ToByte(d + 1) != ToByte(d - 1)
  {
  }

  /** MIN with an immediate reads its own opcode instead: it is the minimum exactly when the number
      is 208 or both are at least the accumulator. */
  lemma MinImmediate(s: State)
    requires Defined(Do(Alu(MIN), Imm), s) && s.mem[s.pc] == Opcode(Do(Alu(MIN), Imm))
    ensures var v := OperandByte(s, 0);
            Exec(Do(Alu(MIN), Imm), s).acc == (if v < s.acc then v else s.acc) <==> MinKept(s.acc, v)
  {
    MinOpcode();
    hide Opcode, OperandByte;
  }

  lemma MinOpcode()
    ensures Opcode(Do(Alu(MIN), Imm)) == 208
  {
  }

  /** MIN 5 with 10 in the accumulator leaves 10. */
  lemma MinExample()
    ensures var s := Coded([208, 5]).(acc := 10);
            && s.mem[s.pc] == Opcode(Do(Alu(MIN), Imm)) && OperandByte(s, 0) == 5
            && Defined(Do(Alu(MIN), Imm), s) && Exec(Do(Alu(MIN), Imm), s).acc == 10
  {
    var s := Coded([208, 5]).(acc := 10);
    MinOpcode();
    hide Coded, Opcode, OperandByte;
    CodedStart([208, 5]);
    CodedBytes([208, 5], s);
    assert OperandByte(s, 1 - 1) == [208, 5][1];
  }

  lemma CodedStart(code: seq<Byte>)
    requires |code| <= 65280
    ensures Coded(code).pc == 256 && Coded(code).f == NO_FLAGS
  {
  }

  // ---------- loading zero ----------

  /** `LOAD 0` is assembled to CLRA, which does what loading the number 0 does exactly when the sign
      flag is already clear. */
  lemma LoadZero(s: State)
    ensures Lower(Use(Load, Immediate(0))) == [Ins(Clra, NoArg)]
    ensures Exec(Clra, s) == Perform(Load, Value(0), Advance(s, 1)) <==> !s.f.sf
  {
    var t := Advance(s, 1);
    assert Exec(Clra, s).f.sf == s.f.sf;
    assert !Perform(Load, Value(0), t).f.sf;
  }

  /** `LOAD 0` with the sign flag set leaves it set beside a zero. */
  lemma LoadZeroExample()
    ensures var t := Exec(Clra, Initial().(f := NO_FLAGS.(sf := true)));
            t.acc == 0 && t.f.zf && t.f.sf
  {
  }

  // ---------- signs of pairs ----------

  /** The sign of the low byte of the result is that of the whole result. */
  predicate PairSignKept(fn: UnaryFn, w: Word) {
    match fn
    case INC => 127 <= w % 256 <= 254 <==> 32767 <= w <= 65534
    case DEC => (w % 256 == 0 || w % 256 >= 129) <==> (w == 0 || w >= 32769)
    case NEG => 1 <= w % 256 <= 128 <==> 1 <= w <= 32768
    case NOT => w % 256 < 128 <==> w < 32768
  }

  /** The HL forms of INC, DEC, NEG and NOT take the sign from the low byte: whether that is the
      sign of the 16-bit result can be told from HL before the instruction. */
  lemma PairSign(fn: UnaryFn, s: State)
    ensures var t := Exec(UnaryHL(fn), s);
            (t.f.sf <==> HLof(t) >= 32768) <==> PairSignKept(fn, HLof(s))
  {
    hide *;
    PairResult(fn, s);
    SignOfWord(fn, HLof(s));
  }

  lemma PairResult(fn: UnaryFn, s: State)
    ensures var t, w := Exec(UnaryHL(fn), s), UnaryWord(fn, HLof(s));
            HLof(t) == w && (t.f.sf <==> Low(w) >= 128)
  {
    hide UnaryWord;
    PairBytes(UnaryWord(fn, HLof(s)), Advance(s, 1));
  }

  lemma PairBytes(w: Word, s: State)
    ensures HLof(SetHL(s, w)) == w
  {
  }

  lemma SignOfWord(fn: UnaryFn, w: Word)
    ensures (Low(UnaryWord(fn, w)) >= 128 <==> UnaryWord(fn, w) >= 32768) <==> PairSignKept(fn, w)
  {
    match fn
    case INC => SignOfNext(w);
    case DEC => SignOfPrevious(w);
    case NEG => SignOfNegated(w);
    case NOT => SignOfInverted(w);
  }

  lemma SignOfNext(w: Word)
    ensures Low(ToWord(w + 1)) >= 128 <==> 127 <= w % 256 <= 254
    ensures ToWord(w + 1) >= 32768 <==> 32767 <= w <= 65534
  {
  }

  lemma SignOfPrevious(w: Word)
    ensures Low(ToWord(w - 1)) >= 128 <==> w % 256 == 0 || w % 256 >= 129
    ensures ToWord(w - 1) >= 32768 <==> w == 0 || w >= 32769
  {
  }

  lemma SignOfNegated(w: Word)
    ensures Low(ToWord(0 - w)) >= 128 <==> 1 <= w % 256 <= 128
    ensures ToWord(0 - w) >= 32768 <==> 1 <= w <= 32768
  {
  }

  lemma SignOfInverted(w: Word)
    ensures Low(65535 - w) >= 128 <==> w % 256 < 128
    ensures 65535 - w >= 32768 <==> w < 32768
  {
  }

  /** INC HL of 0x007f sets the sign flag although 0x0080 is positive. */
  lemma PairSignExample()
    ensures var t := Exec(UnaryHL(INC), Initial().(l := 0x7f));
            HLof(t) == 0x0080 && t.f.sf
  {
    var s := Initial().(l := 0x7f);
    hide *;
    PairResult(INC, s);
    PairOf7F(s);
  }

  lemma PairOf7F(s: State)
    requires s.h == 0 && s.l == 0x7f
    ensures UnaryWord(INC, HLof(s)) == 0x0080 && Low(0x0080) == 128
  {
  }

  // ---------- extended jumps ----------

  /** JEXT goes on to the next instruction or to its target exactly when it is taken; a JEXT that is
      not taken goes on at its own mask byte. */
  lemma JumpExtFallsInside(s: State)
    requires Defined(JumpExt, s)
    ensures var t := Exec(JumpExt, s);
            if HoldsExt(OperandByte(s, 0), s.f) then t.pc == Join(OperandByte(s, 1), OperandByte(s, 2))
            else t.pc == ToWord(s.pc + 1) && t.pc != ToWord(s.pc + 4)
  {
    hide HoldsExt, OperandByte, Join;
    var p := s.pc + 1;
    assert ToWord(p) != ToWord(p + 3);
  }

  /** JEXT on the zero flag, which is clear: the mask, 4, is executed as the next opcode. */
  lemma JumpExtExample()
    ensures var s := Coded([Opcode(JumpExt), 4, 1, 200]);
            && s.mem[s.pc] == Opcode(JumpExt) && Defined(JumpExt, s)
            && Exec(JumpExt, s).pc == 257 && s.mem[257] == 4
  {
    var code := [Opcode(JumpExt), 4, 1, 200];
    var s := Coded(code);
    hide Coded, Opcode, OperandByte, HoldsExt;
    CodedStart(code);
    CodedBytes(code, s);
    assert OperandByte(s, 1 - 1) == code[1];
    ZeroMask();
    MaskAt(s);
  }

  lemma ZeroMask()
    ensures !HoldsExt(4, NO_FLAGS)
  {
  }

  lemma MaskAt(s: State)
    requires s.pc == 256
    ensures OperandByte(s, 0) == s.mem[257]
  {
  }

  // ---------- carries lost by the second pass ----------

  /** `.x = 255` and `LOAD x[1]`: the operand of the LOAD is 0, not 255 + 1. */
  lemma CarryExample()
    ensures var lines := [Write(Constant("x", 255)), Write(Use(Load, Labelled("x", MemExpr(Absolute, 1))))];
            OneShot(lines) == Zeros(256) + [Opcode(Do(Load, MemImm)), 0, 0, HALT]
  {
    var a, b := Constant("x", 255), Use(Load, Labelled("x", MemExpr(Absolute, 1)));
    var lines := [Write(a), Write(b)];
    hide *;
    StatementRoundTrip(a);
    StatementRoundTrip(b);
    CarryLost(lines);
  }

  lemma CarryLost(lines: seq<seq<Token>>)
    requires |lines| == 2 && ParseLine(lines[0]) == Some(Constant("x", 255))
    requires ParseLine(lines[1]) == Some(Use(Load, Labelled("x", MemExpr(Absolute, 1))))
    ensures OneShot(lines) == Zeros(256) + [Opcode(Do(Load, MemImm)), 0, 0, HALT]
  {
    hide ParseLine, Opcode, Zeros;
    var it := Ins(Do(Load, MemImm), WordArg(Lab("x", 1)));
    assert ItemsTo(lines, 1) == [];
    assert ItemsTo(lines, 2) == [it];
    assert LabelsTo(lines, 1) == map["x" := 255];
    assert Encode(map["x" := 255], [it]) == [Opcode(Do(Load, MemImm)), 0, 0];
  }
}
