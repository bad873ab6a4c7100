/** The flags as bits of their byte: what the flag instructions set, and when JEXT is taken. */
module FlagLaws {
  import opened Words
  import opened Isa
  import opened Machine
  import opened Bits
  import opened OperandLaws

  /** The flag at each bit of the flags byte. */
  function FlagAt(f: Flags, i: nat): bool {
    match i
    case 0 => f.cf case 1 => f.af case 2 => f.zf case 3 => f.sf
    case 4 => f.tf case 5 => f.of case 6 => f.itf case _ => f.top
  }

  lemma FlagBit(f: Flags, i: nat)
    requires i < 8
    ensures BitSet(FlagsByte(f), i) == FlagAt(f, i)
  {
    hide FlagsByte, BitSet, ToBits;
    BitsAre(FlagsByte(f), 8, i);
    FlagsToBits(f);
  }

  lemma FlagsToBits(f: Flags)
    ensures ToBits(FlagsByte(f), 8) == FlagBits(f)
  {
    hide ToBits, FromBits;
    BitsRoundTrip(FlagBits(f));
  }

  // ---------- the flag instructions ----------

  /** The flags byte of t is that of s but for bit k, which is b. */
  ghost predicate OneFlag(s: State, t: State, k: nat, b: bool) {
    && t == s.(pc := (s.pc + 1) % 65536, f := t.f)
    && forall i: nat :: i < 8 ==> BitSet(FlagsByte(t.f), i) == (if i == k then b else BitSet(FlagsByte(s.f), i))
  }

  lemma FlagChanged(s: State, t: State, k: nat, b: bool)
    requires t == s.(pc := (s.pc + 1) % 65536, f := t.f)
    requires forall i: nat :: i < 8 ==> FlagAt(t.f, i) == if i == k then b else FlagAt(s.f, i)
    ensures OneFlag(s, t, k, b)
  {
    hide FlagsByte, BitSet, FlagAt;
    forall i: nat | i < 8
      ensures BitSet(FlagsByte(t.f), i) == (if i == k then b else BitSet(FlagsByte(s.f), i))
    {
      FlagBit(t.f, i);
      FlagBit(s.f, i);
    }
  }

  /** ET and DT set and clear bit 4, the trap flag. */
  lemma TrapLaw(s: State)
    ensures OneFlag(s, Exec(Et, s), 4, true) && OneFlag(s, Exec(Dt, s), 4, false)
  {
    hide OneFlag;
    FlagChanged(s, Exec(Et, s), 4, true);
    FlagChanged(s, Exec(Dt, s), 4, false);
  }

  /** EI and DI set and clear bit 5, the overflow flag, and not bit 6, the interrupt flag. */
  lemma InterruptLaw(s: State)
    ensures OneFlag(s, Exec(Ei, s), 5, true) && OneFlag(s, Exec(Di, s), 5, false)
  {
    hide OneFlag;
    FlagChanged(s, Exec(Ei, s), 5, true);
    FlagChanged(s, Exec(Di, s), 5, false);
  }

  // ---------- JEXT ----------

  /** When a JEXT with this operand byte is taken: its two high bits choose among four conditions on
      the flags that its six low bits pick. */
  ghost predicate ExtTaken(b: Byte, f: Flags) {
    if b < 64 then exists i: nat :: i < 6 && BitSet(b, i) && FlagAt(f, i)
    else if b < 128 then forall i: nat :: i < 6 && BitSet(b, i) ==> FlagAt(f, i)
    else if b < 192 then forall i: nat :: i < 6 && BitSet(b, i) ==> !FlagAt(f, i)
    else exists i: nat :: i < 6 && BitSet(b, i) && !FlagAt(f, i)
  }

  lemma LowSix(x: Byte, i: nat)
    requires i < 6
    ensures BitSet(x % 64, i) == BitSet(x, i)
  {
    SixPower();
    hide Pow2;
    LowBits(x, 6, i);
  }

  lemma SixPower()
    ensures Pow2(6) == 64
  {
  }

  /** The chosen flags that are set, bit by bit. */
  lemma ChosenBits(b: Byte, f: Flags, i: nat)
    requires i < 6
    ensures BitSet(And(FlagsByte(f) % 64, b % 64), i) <==> BitSet(b, i) && FlagAt(f, i)
    ensures BitSet(b % 64, i) == BitSet(b, i)
  {
    hide And, FlagsByte, BitSet;
    AndBit(FlagsByte(f) % 64, b % 64, i);
    LowSix(FlagsByte(f), i);
    LowSix(b, i);
    FlagBit(f, i);
  }

  lemma ExtHolds(b: Byte, f: Flags)
    ensures HoldsExt(b, f) == ExtTaken(b, f)
  {
    hide And, FlagsByte, BitSet, Pow2;
    var chosen: nat := b % 64;
    var on: nat := And(FlagsByte(f) % 64, chosen);
    SixPower();
    forall i: nat | i < 6
      ensures BitSet(on, i) <==> BitSet(b, i) && FlagAt(f, i)
      ensures BitSet(chosen, i) == BitSet(b, i)
    {
      ChosenBits(b, f, i);
    }
    forall i: nat
      ensures !BitSet(0, i)
    {
      ZeroBit(i);
    }
    if forall i: nat :: i < 6 ==> !BitSet(on, i) {
      SameBits(on, 0, 6);
    }
    if forall i: nat :: i < 6 ==> BitSet(on, i) == BitSet(chosen, i) {
      SameBits(on, chosen, 6);
    }
  }

  /** JEXT goes to the word behind its operand byte if it is taken; if not it goes on at that byte. */
  lemma ExtLaw(s: State)
    requires CanStep(s) && Current(s) == JumpExt
    ensures var b := s.mem[(s.pc + 1) % 65536];
            var target := 256 * (s.mem[(s.pc + 2) % 65536] as int) + s.mem[(s.pc + 3) % 65536];
            Step(s) == s.(pc := if ExtTaken(b, s.f) then target else (s.pc + 1) % 65536)
  {
    hide CanStep, Decode, Current, HoldsExt, ExtTaken;
    StepIs(s);
    ExtHolds(OperandByte(s, 0), s.f);
    ExtExec(s);
  }

  lemma ExtExec(s: State)
    requires Defined(JumpExt, s)
    ensures var target := 256 * (s.mem[(s.pc + 2) % 65536] as int) + s.mem[(s.pc + 3) % 65536];
            Exec(JumpExt, s) == s.(pc := if HoldsExt(OperandByte(s, 0), s.f) then target else (s.pc + 1) % 65536)
  {
    hide HoldsExt, JumpExtDefined;
  }

  // ---------- the stack ----------

  /** What PUSH puts on the stack. */
  function Pushed(m: Mode, s: State): Byte {
    match m
    case FLAGS => FlagsByte(s.f)
    case BP => s.bp
    case _ => OperandOf(m, s)
  }

  lemma PushLaw(m: Mode, s: State)
    requires Exists(Push(m)) && Defined(Push(m), s)
    ensures var v := Pushed(m, s);
            Exec(Push(m), s) == s.(pc := ToWord(s.pc + Length(Push(m))), stack := s.stack[s.sp := v],
                                   sp := (s.sp + 1) % 256, f := ByByte(s.f, v))
  {
    hide FlagsByte, PlaceOf, Get, OperandOf, Length;
    OperandRead(m, s);
  }

  /** Where POP puts the byte: FLAGS takes its bits, BP and the other places are followed by the zero
      and sign flags. */
  lemma PopLaw(m: Mode, s: State)
    requires Exists(Pop(m)) && Defined(Pop(m), s)
    ensures var v, t := s.stack[((s.sp as int) - 1) % 256], Exec(Pop(m), s);
            var u := s.(pc := ToWord(s.pc + Length(Pop(m))), sp := ((s.sp as int) - 1) % 256);
            if m == FLAGS then t == u.(f := t.f) && FlagsByte(t.f) == v
            else if m == BP then t == u.(bp := v, f := ByByte(s.f, v))
            else t == Written(m, s, v).(pc := u.pc, sp := u.sp, f := ByByte(s.f, v))
  {
    hide ByteFlags, FlagsByte, PlaceOf, Put, Written, Length;
    ByteOfFlags(Top(s));
    if m != FLAGS && m != BP {
      PoppedPlace(m, s, Top(s), ToWord(s.pc + Length(Pop(m))));
    }
  }

  lemma PoppedPlace(m: Mode, s: State, v: Byte, pc: Word)
    ensures Put(PlaceOf(m, s), v, s.(pc := pc, sp := ToByte(s.sp - 1))).(f := ByByte(s.f, v))
         == Written(m, s, v).(pc := pc, sp := ToByte(s.sp - 1), f := ByByte(s.f, v))
  {
  }
}
