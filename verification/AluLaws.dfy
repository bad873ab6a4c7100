/** What the arithmetic and logic instructions compute, in numbers and bits. */
module AluLaws {
  import opened Words
  import opened Isa
  import opened Machine
  import opened Bits
  import opened OperandLaws

  /** The instruction changes PC, the accumulator and the flags. MIN with a number reads its own
      opcode instead. */
  lemma AluExec(fn: AluFn, m: Mode, s: State)
    requires Exists(Do(Alu(fn), m)) && Defined(Do(Alu(fn), m), s) && (fn != MIN || m != Imm)
    ensures AluDefined(fn, s.acc, OperandOf(m, s))
    ensures var t, r := Exec(Do(Alu(fn), m), s), AluResult(fn, s.acc, OperandOf(m, s), s.f);
            t == s.(pc := ToWord(s.pc + Size(m)), acc := r.0, f := r.1)
  {
    hide AluResult, AluDefined, PlaceOf, OperandOf, Exec, Defined, Exists, Get;
    DoExec(Alu(fn), m, s);
    OperandRead(m, s);
    PlaceAdvanced(PlaceOf(m, s), s, Size(m));
  }

  // ---------- sums and differences ----------

  /** ADD: the sum, with the carry as ninth bit. */
  lemma AddLaw(m: Mode, s: State)
    requires Exists(Do(Alu(ADD), m)) && Defined(Do(Alu(ADD), m), s)
    ensures var t, v := Exec(Do(Alu(ADD), m), s), OperandOf(m, s);
            if s.acc + v >= 256 then t.f.cf && t.acc + 256 == s.acc + v else !t.f.cf && t.acc == s.acc + v
  {
    hide OperandOf, Exec, Defined, Exists;
    AluExec(ADD, m, s);
  }

  /** ADC: the sum with the carry that was set before. */
  lemma AdcLaw(m: Mode, s: State)
    requires Exists(Do(Alu(ADC), m)) && Defined(Do(Alu(ADC), m), s)
    ensures var t, sum := Exec(Do(Alu(ADC), m), s), s.acc + OperandOf(m, s) + (if s.f.cf then 1 else 0);
            if sum >= 256 then t.f.cf && t.acc + 256 == sum else !t.f.cf && t.acc == sum
  {
    hide OperandOf, Exec, Defined, Exists;
    AluExec(ADC, m, s);
  }

  /** SUB: the difference modulo 256. */
  lemma SubLaw(m: Mode, s: State)
    requires Exists(Do(Alu(SUB), m)) && Defined(Do(Alu(SUB), m), s)
    ensures var t, v := Exec(Do(Alu(SUB), m), s), OperandOf(m, s);
            t.acc + v == if v <= s.acc then s.acc else s.acc + 256
  {
    hide OperandOf, Exec, Defined, Exists;
    AluExec(SUB, m, s);
  }

  /** CMP: the accumulator stays; the flags tell equality and the sign of the difference. */
  lemma CompareLaw(m: Mode, s: State)
    requires Exists(Do(Alu(CMP), m)) && Defined(Do(Alu(CMP), m), s)
    ensures var t, v := Exec(Do(Alu(CMP), m), s), OperandOf(m, s);
            && t.acc == s.acc && (t.f.zf <==> s.acc == v) && t.f.cf == s.f.cf
            && (t.f.sf <==> if v <= s.acc then s.acc - v >= 128 else v - s.acc <= 128)
  {
    hide OperandOf, Exec, Defined, Exists;
    AluExec(CMP, m, s);
    var d := (s.acc as int) - OperandOf(m, s);
    DifferenceSign(s.acc, OperandOf(m, s));
  }

  lemma DifferenceSign(a: Byte, v: Byte)
    ensures ToByte(a - v) >= 128 <==> if v <= a then a - v >= 128 else v - a <= 128
    ensures ToByte(a - v) == 0 <==> a == v
  {
    var w := a + 256;
    assert v <= a ==> ToByte(a - v) == a - v;
    assert v > a ==> ToByte(a - v) == w - v;
  }

  // ---------- the larger and the smaller ----------

  lemma MaxLaw(m: Mode, s: State)
    requires Exists(Do(Alu(MAX), m)) && Defined(Do(Alu(MAX), m), s)
    ensures var r, v := Exec(Do(Alu(MAX), m), s).acc, OperandOf(m, s);
            (r == s.acc || r == v) && r >= s.acc && r >= v
  {
    hide OperandOf, Exec, Defined, Exists;
    AluExec(MAX, m, s);
  }

  /** With any operand but a number; `Departures.MinImmediate` is about numbers. */
  lemma MinLaw(m: Mode, s: State)
    requires m != Imm && Exists(Do(Alu(MIN), m)) && Defined(Do(Alu(MIN), m), s)
    ensures var r, v := Exec(Do(Alu(MIN), m), s).acc, OperandOf(m, s);
            (r == s.acc || r == v) && r <= s.acc && r <= v
  {
    hide OperandOf, Exec, Defined, Exists;
    AluExec(MIN, m, s);
  }

  // ---------- bit by bit ----------

  lemma AndLaw(m: Mode, s: State, i: nat)
    requires Exists(Do(Alu(AND), m)) && Defined(Do(Alu(AND), m), s) && i < 8
    ensures BitSet(Exec(Do(Alu(AND), m), s).acc, i) <==> BitSet(s.acc, i) && BitSet(OperandOf(m, s), i)
  {
    hide OperandOf, Exec, Defined, Exists, And;
    AluExec(AND, m, s);
    AndBit(s.acc, OperandOf(m, s), i);
  }

  lemma OrLaw(m: Mode, s: State, i: nat)
    requires Exists(Do(Alu(OR), m)) && Defined(Do(Alu(OR), m), s) && i < 8
    ensures BitSet(Exec(Do(Alu(OR), m), s).acc, i) <==> BitSet(s.acc, i) || BitSet(OperandOf(m, s), i)
  {
    hide OperandOf, Exec, Defined, Exists, Or;
    AluExec(OR, m, s);
    OrBit(s.acc, OperandOf(m, s), i);
  }

  lemma XorLaw(m: Mode, s: State, i: nat)
    requires Exists(Do(Alu(XOR), m)) && Defined(Do(Alu(XOR), m), s) && i < 8
    ensures BitSet(Exec(Do(Alu(XOR), m), s).acc, i) <==> BitSet(s.acc, i) != BitSet(OperandOf(m, s), i)
  {
    hide OperandOf, Exec, Defined, Exists, Xor;
    AluExec(XOR, m, s);
    XorBit(s.acc, OperandOf(m, s), i);
  }

  /** SHL by v moves every bit up by v places; zeros come in. */
  lemma ShiftLeftLaw(m: Mode, s: State, i: nat)
    requires Exists(Do(Alu(SHL), m)) && Defined(Do(Alu(SHL), m), s) && i < 8
    ensures var v := OperandOf(m, s);
            BitSet(Exec(Do(Alu(SHL), m), s).acc, i) <==> i >= v && BitSet(s.acc, i - v)
  {
    hide OperandOf, Exec, Defined, Exists, Pow2, ToByte;
    AluExec(SHL, m, s);
    ByteUp(s.acc, OperandOf(m, s), i);
  }

  /** SHR by v moves every bit down by v places; zeros come in. */
  lemma ShiftRightLaw(m: Mode, s: State, i: nat)
    requires Exists(Do(Alu(SHR), m)) && Defined(Do(Alu(SHR), m), s) && i < 8
    ensures var v := OperandOf(m, s);
            BitSet(Exec(Do(Alu(SHR), m), s).acc, i) <==> i + v < 8 && BitSet(s.acc, i + v)
  {
    hide OperandOf, Exec, Defined, Exists, Pow2, ToByte;
    AluExec(SHR, m, s);
    ByteDown(s.acc, OperandOf(m, s), i);
  }

  // ---------- rotations ----------

  /** Every bit of r is the bit of a that is v places below, around the byte. */
  ghost predicate IsRotatedLeft(a: Byte, v: nat, r: Byte) {
    forall i: nat :: i < 8 ==> (BitSet(r, i) <==> BitSet(a, (i + 7 * v) % 8))
  }

  ghost predicate IsRotatedRight(a: Byte, v: nat, r: Byte) {
    forall i: nat :: i < 8 ==> (BitSet(r, i) <==> BitSet(a, (i + v) % 8))
  }

  /** ROL rotates by counts below eight and by multiples of eight; by any other count it loses the
      bits that do not come in at the bottom, so it rotates only if there are none. */
  lemma RotateLeftLaw(m: Mode, s: State)
    requires Exists(Do(Alu(ROL), m)) && Defined(Do(Alu(ROL), m), s)
    ensures var v := OperandOf(m, s);
            var rotates := v < 8 || v % 8 == 0 || s.acc % Pow2(8 - v % 8) == 0;
            IsRotatedLeft(s.acc, v, Exec(Do(Alu(ROL), m), s).acc) == rotates
  {
    hide OperandOf, Exec, Defined, Exists, Pow2, ToByte, OrByte, IsRotatedLeft, BitSet;
    AluExec(ROL, m, s);
    var a, v := s.acc, OperandOf(m, s);
    if v < 8 {
      ShortLeft(a, v);
    } else {
      LongLeft(a, v);
    }
  }

  lemma ShortLeft(a: Byte, v: nat)
    requires v < 8
    ensures IsRotatedLeft(a, v, OrByte(ToByte(a * Pow2(v)), ToByte(a / Pow2(-(v as int) % 8))))
  {
    hide Pow2, ToByte, OrByte, BitSet;
    var r := OrByte(ToByte(a * Pow2(v)), ToByte(a / Pow2(-(v as int) % 8)));
    forall i: nat | i < 8
      ensures BitSet(r, i) <==> BitSet(a, (i + 7 * v) % 8)
    {
      RotatedUp(a, v, i);
      ShortCounts(v, i);
    }
  }

  lemma LongLeft(a: Byte, v: nat)
    requires v >= 8
    ensures IsRotatedLeft(a, v, OrByte(ToByte(a * Pow2(v)), ToByte(a / Pow2(-(v as int) % 8))))
         == (v % 8 == 0 || a % Pow2(8 - v % 8) == 0)
  {
    hide Pow2, ToByte, OrByte, BitSet;
    var k, d: nat, r := v % 8, -(v as int) % 8, OrByte(ToByte(a * Pow2(v)), ToByte(a / Pow2(-(v as int) % 8)));
    LongCounts(v, 0);
    forall i: nat | i < 8
      ensures BitSet(r, i) <==> i + d < 8 && BitSet(a, i + d)
      ensures (i + 7 * v) % 8 == if i + d < 8 then i + d else i - k
    {
      LongLeftBit(a, v, d, i);
      LongCounts(v, i);
    }
    LowZero(a, 8 - k);
    if IsRotatedLeft(a, v, r) && k != 0 {
      forall j: nat | j < 8 - k
        ensures !BitSet(a, j)
      {
        assert !BitSet(r, j + k);
      }
    }
  }

  lemma LongLeftBit(a: Byte, v: nat, d: nat, i: nat)
    requires v >= 8 && d == -(v as int) % 8 && i < 8
    ensures BitSet(OrByte(ToByte(a * Pow2(v)), ToByte(a / Pow2(d))), i) <==> i + d < 8 && BitSet(a, i + d)
  {
    hide Pow2, ToByte, BitSet, Or;
    OrBit(ToByte(a * Pow2(v)), ToByte(a / Pow2(d)), i);
    ByteUp(a, v, i);
    ByteDown(a, d, i);
  }

  lemma LongCounts(v: nat, i: nat)
    requires i < 8
    ensures var k, d := v % 8, -(v as int) % 8;
            && (if k == 0 then d == 0 else d == 8 - k)
            && (i + 7 * v) % 8 == (if i + d < 8 then i + d else i - k)
            && (i + v) % 8 == (if i >= d then i - d else i + k)
  {
    var q, k := v / 8, v % 8;
    BackTurn(v, q, k);
    Turns(i - k + 8, 7 * q + k - 1);
    Turns(i + k, q);
    SmallTurn(i - k + 8);
    SmallTurn(i + k);
  }

  lemma BackTurn(v: nat, q: nat, k: nat)
    requires v == 8 * q + k && k < 8
    ensures -(v as int) % 8 == if k == 0 then 0 else 8 - k
  {
    Turns(8 - k, -(q as int) - 1);
    SmallTurn(8 - k);
  }

  lemma SmallTurn(x: nat)
    requires x < 16
    ensures x % 8 == if x < 8 then x else x - 8
  {
  }

  lemma Turns(x: int, q: int)
    ensures (x + 8 * q) % 8 == x % 8
  {
  }

  /** ROR likewise: by other counts it loses the bits that do not come in at the top. */
  lemma RotateRightLaw(m: Mode, s: State)
    requires Exists(Do(Alu(ROR), m)) && Defined(Do(Alu(ROR), m), s)
    ensures var v := OperandOf(m, s);
            var rotates := v < 8 || v % 8 == 0 || s.acc < Pow2(v % 8);
            IsRotatedRight(s.acc, v, Exec(Do(Alu(ROR), m), s).acc) == rotates
  {
    hide OperandOf, Exec, Defined, Exists, Pow2, ToByte, OrByte, IsRotatedRight, BitSet;
    AluExec(ROR, m, s);
    var a, v := s.acc, OperandOf(m, s);
    if v < 8 {
      ShortRight(a, v);
    } else {
      LongRight(a, v);
    }
  }

  lemma ShortRight(a: Byte, v: nat)
    requires v < 8
    ensures IsRotatedRight(a, v, OrByte(ToByte(a / Pow2(v)), ToByte(a * Pow2(-(v as int) % 8))))
  {
    hide Pow2, ToByte, OrByte, BitSet;
    var r := OrByte(ToByte(a / Pow2(v)), ToByte(a * Pow2(-(v as int) % 8)));
    forall i: nat | i < 8
      ensures BitSet(r, i) <==> BitSet(a, (i + v) % 8)
    {
      RotatedDown(a, v, i);
      ShortCounts(v, i);
    }
  }

  lemma ShortCounts(v: nat, i: nat)
    requires v < 8 && i < 8
    ensures -(v as int) % 8 == (8 - v) % 8 && (i + 7 * v) % 8 == (i + 8 - v) % 8
  {
  }

  lemma LongRight(a: Byte, v: nat)
    requires v >= 8
    ensures IsRotatedRight(a, v, OrByte(ToByte(a / Pow2(v)), ToByte(a * Pow2(-(v as int) % 8))))
         == (v % 8 == 0 || a < Pow2(v % 8))
  {
    hide Pow2, ToByte, OrByte, BitSet;
    var k, d: nat, r := v % 8, -(v as int) % 8, OrByte(ToByte(a / Pow2(v)), ToByte(a * Pow2(-(v as int) % 8)));
    LongCounts(v, 0);
    forall i: nat | i < 8
      ensures BitSet(r, i) <==> i >= d && BitSet(a, i - d)
      ensures (i + v) % 8 == if i >= d then i - d else i + k
    {
      LongRightBit(a, v, d, i);
      LongCounts(v, i);
    }
    HighZero(a, k);
    if IsRotatedRight(a, v, r) && k != 0 {
      forall j: nat | k <= j < 8
        ensures !BitSet(a, j)
      {
        assert !BitSet(r, j - k);
      }
    }
  }

  lemma LongRightBit(a: Byte, v: nat, d: nat, i: nat)
    requires v >= 8 && d == -(v as int) % 8 && i < 8
    ensures BitSet(OrByte(ToByte(a / Pow2(v)), ToByte(a * Pow2(d))), i) <==> i >= d && BitSet(a, i - d)
  {
    hide Pow2, ToByte, BitSet, Or;
    OrBit(ToByte(a / Pow2(v)), ToByte(a * Pow2(d)), i);
    ByteDown(a, v, i);
    ByteUp(a, d, i);
  }

  // ---------- flags ----------

  /** All but CMP set the zero and sign flags by the accumulator; those that do not add or subtract
      leave the carry alone; nothing else changes. */
  lemma AluFlags(fn: AluFn, m: Mode, s: State)
    requires Exists(Do(Alu(fn), m)) && Defined(Do(Alu(fn), m), s) && fn != CMP
    ensures var t := Exec(Do(Alu(fn), m), s);
            && (t.f.zf <==> t.acc == 0) && (t.f.sf <==> t.acc >= 128)
            && (fn !in {ADD, ADC, SUB, SBC} ==> t.f.cf == s.f.cf)
            && t == s.(pc := t.pc, acc := t.acc, f := s.f.(zf := t.f.zf, sf := t.f.sf, cf := t.f.cf))
  {
    hide DoPlace, Get, Exec, Defined, Exists, AluResult, AluDefined;
    DoExec(Alu(fn), m, s);
    ResultFlags(fn, s.acc, Get(DoPlace(Alu(fn), m, s), Advance(s, Size(m))), s.f);
  }

  lemma ResultFlags(fn: AluFn, a: Byte, v: Byte, f: Flags)
    requires AluDefined(fn, a, v) && fn != CMP
    ensures var (r, g) := AluResult(fn, a, v, f);
            && (g.zf <==> r == 0) && (g.sf <==> r >= 128) && g == f.(zf := g.zf, sf := g.sf, cf := g.cf)
            && (fn !in {ADD, ADC, SUB, SBC} ==> g.cf == f.cf)
  {
    hide AndByte, OrByte, XorByte, Pow2, ToByte, ToWord, AluResult;
    ResultByByte(fn, a, v, f);
  }

  lemma ResultByByte(fn: AluFn, a: Byte, v: Byte, f: Flags)
    requires AluDefined(fn, a, v) && fn != CMP
    ensures var (r, g) := AluResult(fn, a, v, f);
            g == ByByte(f, r).(cf := if fn in {ADD, ADC, SUB, SBC} then g.cf else f.cf)
  {
    hide AndByte, OrByte, XorByte, Pow2, ToByte, ToWord;
  }
}
