/** Which executions the C program defines, and which statements keep their meaning: all but those
    named here, away from the end of memory. */
module Definedness {
  import opened Words
  import opened Isa
  import opened Machine
  import opened Encoding
  import opened Syntax
  import opened Source
  import opened OperandLaws
  import opened WideLaws
  import opened FlagLaws

  /** A shift by the operand stays within the width of `int`, a product too, and nothing is divided by
      zero. */
  predicate InRange(op: Op, s: State) {
    match op
    case Do(Alu(SHL), m) => OperandOf(m, s) < 32 && s.acc * Pow2(OperandOf(m, s)) < 0x8000_0000
    case Do(Alu(ROL), m) => OperandOf(m, s) < 32 && s.acc * Pow2(OperandOf(m, s)) < 0x8000_0000
    case Do(Alu(SHR), m) => OperandOf(m, s) < 32
    case Do(Alu(ROR), m) => OperandOf(m, s) < 32
    case Wide(MULW, m) => HLof(s) * WideNumber(m, s) < 0x8000_0000
    case Wide(DIVW, m) => WideNumber(m, s) != 0
    case _ => true
  }

  /** Away from the end of memory an operation is defined exactly if its numbers are in range. */
  lemma DefinedInRange(op: Op, s: State)
    requires Exists(op) && s.pc + 4 < 65536
    ensures Defined(op, s) <==> InRange(op, s)
  {
    hide OperandOf, WideNumber, PlaceOf, WideOperand, Get;
    RoomToFetch(s);
    match op {
      case Do(kind, m) => OperandRead(m, s);
      case Wide(fn, m) => WideRead(m, s);
      case _ =>
    }
  }

  lemma RoomToFetch(s: State)
    requires s.pc + 4 < 65536
    ensures Fetches(s, 1) && Fetches(s, 2) && Fetches(s, 3) && Fetches(s, 4)
  {
  }

  /** Shifts and rotations, MIN with a number, products and quotients, and JEXT keep their meaning
      under a condition; every other executable statement keeps it in every state with room for its
      code. */
  predicate Unconditional(st: Stmt) {
    match st
    case Use(Alu(fn), o) => !IsShift(fn) && (fn == MIN ==> !o.Immediate?)
    case UseWide(fn, _) => fn == ADDW || fn == SUBW
    case JumpExtTo(_, _) => false
    case _ => true
  }

  lemma MeaningEverywhere(env: Env, st: Stmt, s: State)
    requires Legal(st) && Executable(st) && Unconditional(st) && s.pc + StmtSize(st) < 65536
    ensures MeaningDefined(env, st, s)
  {
    hide StmtSize, Locate, Get, Legal, WideValueOf;
  }

  /** A product keeps its meaning below 2^31, a quotient by a number that is not zero, MIN with a number
      where its opcode makes no difference, and JEXT where it is taken. */
  lemma MeaningSomewhere(env: Env, st: Stmt, s: State)
    requires Legal(st) && Executable(st) && s.pc + StmtSize(st) < 65536
    ensures st.UseWide? && st.wide == MULW ==>
              MeaningDefined(env, st, s) == (HLof(s) * WideValueOf(st.operand, s) < 0x8000_0000)
    ensures st.UseWide? && st.wide == DIVW ==> MeaningDefined(env, st, s) == (WideValueOf(st.operand, s) != 0)
    ensures st.JumpExtTo? ==> MeaningDefined(env, st, s) == ExtTaken(st.mask, s.f)
    ensures st.Use? && st.kind == Alu(MIN) && st.operand.Immediate? ==>
              MeaningDefined(env, st, s) == MinKept(s.acc, st.operand.v % 256)
  {
    hide StmtSize, Legal, WideValueOf, HoldsExt, ExtTaken, HLof, MinKept;
    if st.JumpExtTo? {
      ExtHolds(st.mask, s.f);
    }
  }
}
