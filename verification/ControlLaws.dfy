/** What the instructions that move the pointers do: calls and frames on the stack, HL and L, and the
    program counter. */
module ControlLaws {
  import opened Words
  import opened Isa
  import opened Machine
  import opened JumpLaws

  // ---------- calls ----------

  /** CALL leaves the address behind it on the stack, high byte first, and goes to its operand. */
  lemma CallLaw(s: State)
    requires Defined(Call, s)
    ensures var t := Exec(Call, s);
            && 256 * (t.stack[s.sp] as int) + t.stack[(s.sp + 1) % 256] == (s.pc + 3) % 65536
            && (forall i :: 0 <= i < 256 && i != s.sp && i != (s.sp + 1) % 256 ==> t.stack[i] == s.stack[i])
            && t == s.(pc := JumpTarget(s), sp := (s.sp + 2) % 256, stack := t.stack)
  {
    hide High, Low, JumpTarget, OperandWord;
    TargetRead(s);
    ReturnParts(ToWord(s.pc + 3));
    TwoUp(s.sp);
  }

  lemma TargetRead(s: State)
    ensures OperandWord(s) == JumpTarget(s)
  {
  }

  lemma ReturnParts(w: Word)
    ensures 256 * (High(w) as int) + Low(w) == w
  {
  }

  lemma TwoUp(p: Byte)
    ensures ToByte(ToByte(p + 1) + 1) == (p + 2) % 256 && (p + 1) % 256 != p
  {
  }

  /** RET and RET n go to the address on top of the stack and drop it, and n bytes below it. */
  lemma ReturnLaw(s: State)
    ensures var back := 256 * (s.stack[((s.sp as int) - 2) % 256] as int) + s.stack[((s.sp as int) - 1) % 256];
            && Exec(Ret, s) == s.(pc := back, sp := ((s.sp as int) - 2) % 256)
            && (Defined(RetI, s) ==>
                  Exec(RetI, s) == s.(pc := back, sp := ((s.sp as int) - 2 - s.mem[(s.pc + 1) % 65536]) % 256))
  {
    hide TopWord;
    TopBytes(s);
  }

  lemma TopBytes(s: State)
    ensures TopWord(s) == 256 * (s.stack[((s.sp as int) - 2) % 256] as int) + s.stack[((s.sp as int) - 1) % 256]
  {
  }

  // ---------- frames ----------

  /** ENTER n saves the frame pointer, starts the frame behind it, and reserves n bytes. */
  lemma EnterLaw(s: State)
    requires Defined(Enter, s)
    ensures var b: Byte := (s.sp + 1) % 256;
            Exec(Enter, s) == s.(pc := (s.pc + 2) % 65536, stack := s.stack[s.sp := s.bp], bp := b,
                                 sp := (b + s.mem[(s.pc + 1) % 65536]) % 256)
  {
  }

  /** LEAVE drops the frame and gets the saved frame pointer back. */
  lemma LeaveLaw(s: State)
    ensures var b: Byte := ((s.bp as int) - 1) % 256;
            Exec(Leave, s) == s.(pc := (s.pc + 1) % 65536, sp := b, bp := s.stack[b])
  {
  }

  // ---------- pointers ----------

  /** Setting and moving HL and L changes nothing else, not even the flags. */
  lemma PointerLaw(op: Op, s: State)
    requires op in {LoadLI, AddLI, LoadHLI, AddHLI} && Defined(op, s)
    ensures var t, b, w := Exec(op, s), s.mem[(s.pc + 1) % 65536], JumpTarget(s);
            && t == s.(pc := t.pc, h := t.h, l := t.l)
            && (op == LoadLI ==> t.l == b && t.h == s.h && t.pc == (s.pc + 2) % 65536)
            && (op == AddLI ==> t.l == (s.l + b) % 256 && t.h == s.h && t.pc == (s.pc + 2) % 65536)
            && (op == LoadHLI ==> HLof(t) == w && t.pc == (s.pc + 3) % 65536)
            && (op == AddHLI ==> HLof(t) == (HLof(s) + w) % 65536 && t.pc == (s.pc + 3) % 65536)
  {
    hide High, Low, Join, JumpTarget, OperandWord, Fetches;
    TargetRead(s);
    PartsJoin(OperandWord(s));
    PartsJoin(ToWord(HLof(s) + OperandWord(s)));
  }

  lemma PartsJoin(w: Word)
    ensures Join(High(w), Low(w)) == w
  {
  }

  // ---------- the rest ----------

  /** NOOP only goes on, HALT does not even that, and RESET starts anew. */
  lemma PlainLaw(s: State)
    ensures Exec(Noop, s) == s.(pc := (s.pc + 1) % 65536) && Exec(Halt, s) == s
    ensures var t := Exec(Reset, s);
            && t.pc == 256 && t.acc == t.r0 == t.r1 == t.h == t.l == t.sp == t.bp == 0 && FlagsByte(t.f) == 0
            && (forall i :: 0 <= i < 256 ==> t.stack[i] == 0) && forall i :: 0 <= i < 65536 ==> t.mem[i] == 0
  {
    hide FlagsByte;
    NoFlagsByte();
  }
}
