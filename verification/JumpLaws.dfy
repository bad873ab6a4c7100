/** When the jumps are taken, told by the instruction in front of them; the loops built from DEC and
    JNC; the conditions of JEXT and the flags bit by bit. */
module JumpLaws {
  import opened Words
  import opened Isa
  import opened Machine
  import opened OperandLaws
  import opened AluLaws

  // ---------- jumps ----------

  /** The word behind the opcode at PC. */
  function JumpTarget(s: State): Word {
    256 * (s.mem[(s.pc + 1) % 65536] as int) + s.mem[(s.pc + 2) % 65536]
  }

  /** The step goes to the target if the condition holds and behind the jump if not, and changes
      nothing else. */
  predicate Branches(s: State, taken: bool)
    requires CanStep(s)
  {
    Step(s) == s.(pc := if taken then JumpTarget(s) else (s.pc + 3) % 65536)
  }

  lemma JumpStep(c: Cond, s: State)
    requires CanStep(s) && Current(s) == Jump(c)
    ensures Branches(s, Holds(c, s.f))
  {
    hide Holds, CanStep, Decode, Fetches, JumpDefined, Current;
    StepIs(s);
    JumpExec(c, s);
  }

  lemma JumpExec(c: Cond, s: State)
    requires Defined(Jump(c), s)
    ensures Exec(Jump(c), s) == s.(pc := if Holds(c, s.f) then JumpTarget(s) else (s.pc + 3) % 65536)
  {
    hide Holds, Fetches, JumpDefined;
  }

  /** JMP is always taken. */
  lemma AlwaysLaw(s: State)
    requires CanStep(s) && Current(s) == Jump(Always)
    ensures Branches(s, true)
  {
    hide CanStep, Current, Branches;
    JumpStep(Always, s);
  }

  /** The step in front of a jump, and what it leaves to it. */
  ghost predicate Then(s: State, op: Op, c: Cond) {
    CanStep(s) && Current(s) == op && CanStep(Step(s)) && Current(Step(s)) == Jump(c)
  }

  lemma ThenParts(s: State, op: Op, c: Cond)
    requires Then(s, op, c)
    ensures CanStep(s) && Exists(op) && Defined(op, s) && Step(s) == Exec(op, s)
    ensures CanStep(Step(s)) && Branches(Step(s), Holds(c, Step(s).f))
  {
    hide CanStep, Step, Current, Exists, Defined, Exec, Holds, Branches;
    StepIs(s);
    JumpStep(c, Step(s));
  }

  /** After ADD, JC is taken exactly when the sum does not fit a byte, and JNC when it does. */
  lemma AddThenJump(m: Mode, c: Cond, s: State)
    requires Then(s, Do(Alu(ADD), m), c)
    ensures c == IfCarry ==> Branches(Step(s), s.acc + OperandOf(m, s) >= 256)
    ensures c == IfNotCarry ==> Branches(Step(s), s.acc + OperandOf(m, s) < 256)
  {
    hide CanStep, Step, Current, Exists, Defined, Exec, Branches, Then, OperandOf;
    ThenParts(s, Do(Alu(ADD), m), c);
    AddLaw(m, s);
  }

  /** After CMP, JZ is taken exactly when the two are equal, JS when the difference is negative as a
      signed byte, and JNZ and JNS when not. */
  lemma CompareThenJump(m: Mode, c: Cond, s: State)
    requires Then(s, Do(Alu(CMP), m), c)
    ensures var v := OperandOf(m, s);
            var negative := if v <= s.acc then s.acc - v >= 128 else v - s.acc <= 128;
            && (c == IfZero ==> Branches(Step(s), s.acc == v)) && (c == IfNotZero ==> Branches(Step(s), s.acc != v))
            && (c == IfSign ==> Branches(Step(s), negative)) && (c == IfNotSign ==> Branches(Step(s), !negative))
  {
    hide CanStep, Step, Current, Exists, Defined, Exec, Branches, Then, OperandOf;
    ThenParts(s, Do(Alu(CMP), m), c);
    CompareLaw(m, s);
  }

  /** After LOAD, the jumps tell about the byte loaded. */
  lemma LoadThenJump(m: Mode, c: Cond, s: State)
    requires Then(s, Do(Load, m), c)
    ensures var v := OperandOf(m, s);
            && (c == IfZero ==> Branches(Step(s), v == 0)) && (c == IfNotZero ==> Branches(Step(s), v != 0))
            && (c == IfSign ==> Branches(Step(s), v >= 128)) && (c == IfNotSign ==> Branches(Step(s), v < 128))
  {
    hide CanStep, Step, Current, Exists, Defined, Exec, Branches, Then, OperandOf;
    ThenParts(s, Do(Load, m), c);
    LoadLaw(m, s);
  }

  /** After DEC, JC is taken exactly when the byte was 0, and JNC when it was not; after INC, when it
      was 255 or not. */
  lemma StepThenJump(m: Mode, c: Cond, s: State)
    ensures Then(s, Do(Unary(DEC), m), c) && c == IfCarry ==> Branches(Step(s), OperandOf(m, s) == 0)
    ensures Then(s, Do(Unary(DEC), m), c) && c == IfNotCarry ==> Branches(Step(s), OperandOf(m, s) != 0)
    ensures Then(s, Do(Unary(INC), m), c) && c == IfCarry ==> Branches(Step(s), OperandOf(m, s) == 255)
    ensures Then(s, Do(Unary(INC), m), c) && c == IfNotCarry ==> Branches(Step(s), OperandOf(m, s) != 255)
  {
    hide CanStep, Step, Current, Exists, Defined, Exec, Branches, Then, OperandOf;
    if Then(s, Do(Unary(DEC), m), c) {
      ThenParts(s, Do(Unary(DEC), m), c);
      var _ := UnaryLaw(DEC, m, s);
      OneInstruction(s, DEC, INC, m, c);
    } else if Then(s, Do(Unary(INC), m), c) {
      ThenParts(s, Do(Unary(INC), m), c);
      var _ := UnaryLaw(INC, m, s);
    }
  }

  lemma OneInstruction(s: State, f: UnaryFn, g: UnaryFn, m: Mode, c: Cond)
    requires Then(s, Do(Unary(f), m), c) && f != g
    ensures !Then(s, Do(Unary(g), m), c)
  {
    hide CanStep, Step, Current;
  }

  // ---------- a counted loop ----------

  /** DEC R1 and then JNC back to p. */
  ghost predicate LoopEnd(u: State, p: Word) {
    Then(u, Do(Unary(DEC), R1), IfNotCarry) && JumpTarget(Step(u)) == p
  }

  /** r rounds of a loop from p to its end at d: a body that leaves R1 alone, then the loop end. */
  ghost predicate Rounds(s: State, p: Word, d: Word, r: nat, t: State)
    decreases r
  {
    if r == 0 then s == t
    else && s.pc == p
         && exists m, u :: && Run(s, m, u) && u.pc == d && u.r1 == s.r1 && LoopEnd(u, p)
                           && Rounds(Step(Step(u)), p, d, r - 1, t)
  }

  /** One loop end. */
  lemma LoopEndLaw(u: State, p: Word)
    requires LoopEnd(u, p)
    ensures CanStep(u) && CanStep(Step(u)) && var t := Step(Step(u));
            if u.r1 == 0 then t.pc == (u.pc + 4) % 65536 && t.r1 == 255 else t.pc == p && t.r1 == u.r1 - 1
  {
    hide CanStep, Step, Current, Exists, Defined, Exec, Then, OperandOf, Branches, Written;
    ThenParts(u, Do(Unary(DEC), R1), IfNotCarry);
    StepThenJump(R1, IfNotCarry, u);
    var r := UnaryLaw(DEC, R1, u);
    RegisterWritten(u, r);
    BranchPc(Step(u), u.r1 != 0);
    WrapSum(u.pc + 1, 3);
  }

  lemma RegisterWritten(s: State, v: Byte)
    ensures OperandOf(R1, s) == s.r1 && Written(R1, s, v) == s.(r1 := v) && Size(R1) == 1
  {
  }

  lemma BranchPc(s: State, taken: bool)
    requires CanStep(s) && Branches(s, taken)
    ensures Step(s).pc == (if taken then JumpTarget(s) else ToWord(s.pc + 3)) && Step(s).r1 == s.r1
  {
    hide CanStep, Step;
  }

  /** With R1 at n the loop goes back n times and then on: it runs exactly n + 1 rounds, and leaves
      255 in R1. */
  lemma {:induction false} LoopCounts(s: State, p: Word, d: Word, r: nat, t: State)
    requires Rounds(s, p, d, r, t) && s.pc == p && (d + 4) % 65536 != p
    ensures r <= s.r1 + 1
    ensures if r <= s.r1 then t.pc == p && t.r1 == s.r1 - r else t.pc == (d + 4) % 65536 && t.r1 == 255
    decreases r
  {
    hide CanStep, Step, LoopEnd, Run, Rounds;
    if r == 0 {
      NoRounds(s, p, d, t);
    } else {
      var m, u := FirstRound(s, p, d, r, t);
      LoopEndLaw(u, p);
      var v := Step(Step(u));
      if u.r1 == 0 {
        if r > 1 {
          var _, _ := FirstRound(v, p, d, r - 1, t);
        }
        NoRounds(v, p, d, t);
      } else {
        LoopCounts(v, p, d, r - 1, t);
      }
    }
  }

  lemma NoRounds(s: State, p: Word, d: Word, t: State)
    ensures Rounds(s, p, d, 0, t) ==> s == t
  {
  }

  lemma FirstRound(s: State, p: Word, d: Word, r: nat, t: State) returns (m: nat, u: State)
    requires r > 0 && Rounds(s, p, d, r, t)
    ensures s.pc == p && Run(s, m, u) && u.pc == d && u.r1 == s.r1 && LoopEnd(u, p)
    ensures CanStep(u) && CanStep(Step(u)) && Rounds(Step(Step(u)), p, d, r - 1, t)
  {
    hide CanStep, Step, Run, Current, JumpTarget;
    m, u :| && Run(s, m, u) && u.pc == d && u.r1 == s.r1 && LoopEnd(u, p)
            && Rounds(Step(Step(u)), p, d, r - 1, t);
  }
}
