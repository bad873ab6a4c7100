/** Carry chains of any length: ADD followed by ADCs adds numbers of any number of bytes, and INC
    followed by `LOAD 0; ADC` steps, as in programs/test.casm, counts modulo a power of 256. */
module Carry {
  import opened Words
  import opened Isa
  import opened Machine

  function Pow256(n: nat): (p: nat)
    ensures p >= 1
  {
    if n == 0 then 1 else 256 * Pow256(n - 1)
  }

  // ---------- chains of additions ----------

  /** The number with the given bytes, lowest first. */
  function Number(bs: seq<Byte>): nat
    decreases |bs|
  {
    if bs == [] then 0 else bs[0] + 256 * Number(bs[1..])
  }

  lemma {:induction false} NumberBound(bs: seq<Byte>)
    ensures Number(bs) < Pow256(|bs|)
    decreases |bs|
  {
    if bs != [] {
      NumberBound(bs[1..]);
    }
  }

  /** Leaves the carry flag alone: among others every load, store, push, jump and call, every pop
      but that of the flags, CLRA, and the additions to HL. */
  predicate KeepsCarry(op: Op) {
    match op
    case Do(Alu(fn), _) => fn !in {ADD, ADC, SUB, SBC}
    case Do(Unary(fn), _) => fn == NEG || fn == NOT
    case UnaryHL(fn) => fn == NEG || fn == NOT
    case Pop(m) => m != FLAGS
    case Reset => false
    case _ => true
  }

  /** ADD at the head of a chain, ADC after it. */
  function Adds(first: bool): AluFn { if first then ADD else ADC }

  predicate IsAddition(op: Op, first: bool) { op.Do? && op.kind == Alu(Adds(first)) }

  function Addend(s: State): Byte
    requires Current(s).Do?
  {
    Get(DoPlace(Current(s).kind, Current(s).mode, s), s)
  }

  /** n steps from s to t that add the bytes xs (in the accumulator) and ys (the operands) pairwise
      into zs (the accumulator afterwards), doing nothing else to the carry flag. */
  ghost predicate Chain(s: State, n: nat, first: bool, xs: seq<Byte>, ys: seq<Byte>, zs: seq<Byte>, t: State)
    decreases n
  {
    if n == 0 then s == t && xs == ys == zs == []
    else && CanStep(s)
         && if IsAddition(Current(s), first) then
              && xs != [] && ys != [] && zs != []
              && xs[0] == s.acc && ys[0] == Addend(s) && zs[0] == Step(s).acc
              && Chain(Step(s), n - 1, false, xs[1..], ys[1..], zs[1..], t)
            else KeepsCarry(Current(s)) && Chain(Step(s), n - 1, first, xs, ys, zs, t)
  }

  lemma ChainParts(s: State, n: nat, first: bool, xs: seq<Byte>, ys: seq<Byte>, zs: seq<Byte>, t: State)
    requires Chain(s, n, first, xs, ys, zs, t)
    ensures n == 0 ==> s == t && xs == ys == zs == []
    ensures n > 0 ==> CanStep(s)
    ensures n > 0 && IsAddition(Current(s), first) ==>
              && xs != [] && ys != [] && zs != []
              && xs[0] == s.acc && ys[0] == Addend(s) && zs[0] == Step(s).acc
              && Chain(Step(s), n - 1, false, xs[1..], ys[1..], zs[1..], t)
    ensures n > 0 && !IsAddition(Current(s), first) ==>
              KeepsCarry(Current(s)) && Chain(Step(s), n - 1, first, xs, ys, zs, t)
  {
    hide CanStep, Step, Current, KeepsCarry, Addend;
  }

  lemma NeutralStep(s: State)
    requires CanStep(s) && KeepsCarry(Current(s))
    ensures Step(s).f.cf == s.f.cf
  {
    hide *;
    StepIs(s);
    NeutralExec(Current(s), s);
  }

  lemma NeutralExec(op: Op, s: State)
    requires Exists(op) && Defined(op, s) && KeepsCarry(op)
    ensures Exec(op, s).f.cf == s.f.cf
  {
    if op.Do? {
      hide *;
      NeutralDo(op.kind, op.mode, s);
    } else if op.Pop? {
      hide *;
      NeutralPop(op.popped, s);
    } else if op.UnaryHL? || op.Wide? {
      hide *;
      NeutralPair(op, s);
    } else {
      hide WideValue, WideDefined, WideOperand, Holds, HoldsExt, OperandWord, Fetches, UnaryWord, High, Low, PushedByte;
    }
  }

  lemma NeutralPair(op: Op, s: State)
    requires Exists(op) && Defined(op, s) && KeepsCarry(op) && (op.UnaryHL? || op.Wide?)
    ensures Exec(op, s).f.cf == s.f.cf
  {
    hide WideValue, WideDefined, WideOperand, Fetches, UnaryWord, High, Low;
  }

  lemma NeutralPop(m: Mode, s: State)
    requires Exists(Pop(m)) && Defined(Pop(m), s) && m != FLAGS
    ensures Exec(Pop(m), s).f.cf == s.f.cf
  {
    hide OperandWord, OperandByte, Fetches, Top;
  }

  lemma NeutralDo(kind: Kind, m: Mode, s: State)
    requires Exists(Do(kind, m)) && Defined(Do(kind, m), s) && KeepsCarry(Do(kind, m))
    ensures Exec(Do(kind, m), s).f.cf == s.f.cf
  {
    hide DoPlace, DoFetches, Perform, Performs, KeepsCarry;
    PerformsLater(kind, DoPlace(kind, m, s), s, Size(m));
    PerformNeutral(kind, m, DoPlace(kind, m, s), Advance(s, Size(m)));
  }

  lemma PerformsLater(kind: Kind, p: Place, s: State, n: nat)
    requires Performs(kind, p, s)
    ensures Performs(kind, p, Advance(s, n))
  {
    hide AluDefined;
  }

  lemma PerformNeutral(kind: Kind, m: Mode, p: Place, s: State)
    requires Performs(kind, p, s) && KeepsCarry(Do(kind, m))
    ensures Perform(kind, p, s).f.cf == s.f.cf
  {
    match kind
    case Alu(fn) => hide Get; AluNeutral(fn, s.acc, Get(p, s), s.f);
    case Unary(fn) => hide *; UnaryNeutral(fn, m, p, s);
    case _ => hide *; MoveNeutral(kind, p, s);
  }

  lemma AluNeutral(fn: AluFn, a: Byte, v: Byte, f: Flags)
    requires AluDefined(fn, a, v) && fn !in {ADD, ADC, SUB, SBC}
    ensures AluResult(fn, a, v, f).1.cf == f.cf
  {
    hide OrByte, AndByte, XorByte, Pow2, ToByte;
  }

  lemma UnaryNeutral(fn: UnaryFn, m: Mode, p: Place, s: State)
    requires KeepsCarry(Do(Unary(fn), m))
    ensures Perform(Unary(fn), p, s).f.cf == s.f.cf
  {
    hide Get, UnaryValue;
    var v := UnaryValue(fn, Get(p, s));
    PutKeeps(p, v, s.(f := UnaryFlags(fn, v, s.f)), s.f);
  }

  lemma MoveNeutral(kind: Kind, p: Place, s: State)
    requires !kind.Alu? && !kind.Unary?
    ensures Perform(kind, p, s).f.cf == s.f.cf
  {
    hide Get;
    PutKeeps(p, s.acc, s, s.f);
    PutKeeps(p, s.acc, s.(acc := Get(p, s), f := ZeroSign(s.f, Get(p, s))), s.f);
  }

  lemma AdditionStep(s: State, first: bool)
    requires CanStep(s) && IsAddition(Current(s), first)
    ensures s.acc + Addend(s) + (if first then 0 else Bit(s.f.cf)) == Step(s).acc + 256 * Bit(Step(s).f.cf)
  {
    hide *;
    StepIs(s);
    Shape(Current(s), first);
    AddendIs(s);
    AdditionExec(first, Current(s).mode, s);
  }

  lemma Shape(op: Op, first: bool)
    requires IsAddition(op, first)
    ensures op.Do? && op == Do(Alu(Adds(first)), op.mode)
  {
  }

  lemma AddendIs(s: State)
    requires Current(s).Do?
    ensures Addend(s) == Get(DoPlace(Current(s).kind, Current(s).mode, s), s)
  {
    hide Current, DoPlace, Get;
  }

  lemma AdditionExec(first: bool, m: Mode, s: State)
    requires Exists(Do(Alu(Adds(first)), m)) && Defined(Do(Alu(Adds(first)), m), s)
    ensures var v, t := Get(DoPlace(Alu(Adds(first)), m, s), s), Exec(Do(Alu(Adds(first)), m), s);
            s.acc + v + (if first then 0 else Bit(s.f.cf)) == t.acc + 256 * Bit(t.f.cf)
  {
    hide DoFetches, PlaceOf, ZeroSign;
    PlaceAdvanced(Alu(Adds(first)), m, s, Size(m));
  }

  lemma PlaceAdvanced(kind: Kind, m: Mode, s: State, n: nat)
    ensures Get(DoPlace(kind, m, s), Advance(s, n)) == Get(DoPlace(kind, m, s), s)
  {
    hide DoPlace;
  }

  /** Addition of numbers of any length is exact, the carry flag being the carry out. */
  lemma {:induction false} ChainAdds(s: State, n: nat, first: bool, xs: seq<Byte>, ys: seq<Byte>, zs: seq<Byte>,
                                     t: State)
    requires Chain(s, n, first, xs, ys, zs, t) && (first ==> xs != [])
    ensures |xs| == |ys| == |zs|
    ensures Number(xs) + Number(ys) + (if first then 0 else Bit(s.f.cf)) == Number(zs) + Pow256(|xs|) * Bit(t.f.cf)
    decreases n
  {
    hide *;
    ChainParts(s, n, first, xs, ys, zs, t);
    if n == 0 {
      NoBytes(t.f.cf);
    } else if IsAddition(Current(s), first) {
      AdditionStep(s, first);
      ChainAdds(Step(s), n - 1, false, xs[1..], ys[1..], zs[1..], t);
      OneMoreByte(xs, ys, zs, if first then 0 else Bit(s.f.cf), Bit(Step(s).f.cf), Bit(t.f.cf));
    } else {
      NeutralStep(s);
      ChainAdds(Step(s), n - 1, first, xs, ys, zs, t);
    }
  }

  lemma NoBytes(c: bool)
    ensures Number([]) == 0 && Pow256(0) * Bit(c) == Bit(c)
  {
  }

  lemma OneMoreByte(xs: seq<Byte>, ys: seq<Byte>, zs: seq<Byte>, c: int, c': int, d: int)
    requires |xs| == |ys| == |zs| > 0
    requires xs[0] + ys[0] + c == zs[0] + 256 * c'
    requires Number(xs[1..]) + Number(ys[1..]) + c' == Number(zs[1..]) + Pow256(|xs| - 1) * d
    ensures Number(xs) + Number(ys) + c == Number(zs) + Pow256(|xs|) * d
  {
    hide Number, Pow256;
    LowByte(xs);
    LowByte(ys);
    LowByte(zs);
    NextPower(|xs|, d);
  }

  lemma LowByte(bs: seq<Byte>)
    requires bs != []
    ensures Number(bs) == bs[0] + 256 * Number(bs[1..])
  {
  }

  lemma NextPower(n: nat, d: int)
    requires n > 0
    ensures Pow256(n) * d == 256 * (Pow256(n - 1) * d)
  {
    hide Pow256;
    PowerStep(n);
  }

  lemma PowerStep(n: nat)
    requires n > 0
    ensures Pow256(n) == 256 * Pow256(n - 1)
  {
  }

  /** A chain is a run of the machine. */
  lemma {:induction false} ChainRuns(s: State, n: nat, first: bool, xs: seq<Byte>, ys: seq<Byte>, zs: seq<Byte>,
                                     t: State)
    requires Chain(s, n, first, xs, ys, zs, t)
    ensures Run(s, n, t)
    decreases n
  {
    hide CanStep, Step, KeepsCarry, Addend, IsAddition, Current;
    if n > 0 {
      if IsAddition(Current(s), first) {
        ChainRuns(Step(s), n - 1, false, xs[1..], ys[1..], zs[1..], t);
      } else {
        ChainRuns(Step(s), n - 1, first, xs, ys, zs, t);
      }
    }
  }
}
