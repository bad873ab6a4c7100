/** Forward simulation: running the bytes a statement is assembled to does what the statement
    means, one statement at a time and over whole programs. */
module Simulation {
  import opened Words
  import opened Isa
  import opened Machine
  import opened Encoding
  import opened Syntax
  import opened Lowering
  import opened Source

  // ---------- one or two instructions ----------

  ghost predicate Holding(env: Env, items: seq<Item>, s: State)
    requires AllWellFormed(items)
  {
    CodeAt(s.mem, s.pc, Encode(env, items)) && s.pc + SizeOf(items) < 65536
  }

  lemma EncodeOne(env: Env, it: Item)
    requires WellFormed(it)
    ensures Encode(env, [it]) == ItemBytes(env, it) && SizeOf([it]) == ItemSize(it)
  {
  }

  lemma EncodeTwo(env: Env, a: Item, b: Item)
    requires WellFormed(a) && WellFormed(b)
    ensures AllWellFormed([a, b])
    ensures Encode(env, [a, b]) == ItemBytes(env, a) + ItemBytes(env, b)
    ensures SizeOf([a, b]) == ItemSize(a) + ItemSize(b)
  {
    hide ItemBytes, WellFormed, ItemSize;
    assert [a, b][1..] == [b];
    EncodeOne(env, b);
  }

  /** The instruction held at PC executes. */
  lemma StepsTo(env: Env, it: Item, s: State)
    requires it.Ins? && WellFormed(it) && Holding(env, [it], s) && Defined(it.op, s)
    ensures Run(s, 1, Exec(it.op, s))
  {
    hide *;
    EncodeOne(env, it);
    HoldingOne(env, it, s);
    FetchItem(env, it, s);
    ExistsOf(it);
    StepExec(s, it.op);
    RunOne(s);
  }

  lemma HoldingOne(env: Env, it: Item, s: State)
    requires WellFormed(it) && Holding(env, [it], s)
    ensures CodeAt(s.mem, s.pc, ItemBytes(env, it)) && s.pc + ItemSize(it) < 65536
  {
    EncodeOne(env, it);
  }

  lemma ExistsOf(it: Item)
    requires it.Ins? && WellFormed(it)
    ensures Exists(it.op)
  {
  }

  lemma RunOne(s: State)
    requires CanStep(s)
    ensures Run(s, 1, Step(s))
  {
    hide CanStep, Step;
    assert Run(Step(s), 0, Step(s));
  }

  /** The operand bytes the instruction held at PC sees. */
  lemma Fetched(env: Env, it: Item, s: State)
    requires it.Ins? && WellFormed(it) && Holding(env, [it], s)
    ensures Fetches(s, Length(it.op))
    ensures it.arg.ByteArg? ==> OperandByte(s, 0) == it.arg.b
    ensures it.arg.WordArg? ==> OperandWord(s) == Resolve(env, it.arg.t)
    ensures it.arg.MaskArg? ==> && OperandByte(s, 0) == it.arg.mask
                                && Join(OperandByte(s, 1), OperandByte(s, 2)) == Resolve(env, it.arg.t)
  {
    hide *;
    HoldingOne(env, it, s);
    FetchItem(env, it, s);
  }

  /** A first instruction that moves on without touching memory leaves the second one held. */
  lemma HoldingRest(env: Env, a: Item, b: Item, s: State, t: State)
    requires WellFormed(a) && WellFormed(b) && AllWellFormed([a, b]) && Holding(env, [a, b], s)
    requires t.mem == s.mem && t.pc == s.pc + ItemSize(a)
    ensures Holding(env, [a], s) && Holding(env, [b], t)
  {
    hide WellFormed, ItemBytes, ItemSize;
    EncodeTwo(env, a, b);
    EncodeOne(env, a);
    EncodeOne(env, b);
    CodeSplit(s.mem, s.pc, ItemBytes(env, a), ItemBytes(env, b));
  }

  // ---------- instructions with a one-byte operand ----------

  /** Performing does not depend on PC, nor change it. */
  lemma PerformPc(kind: Kind, p: Place, s: State, w: Word)
    requires Performs(kind, p, s)
    ensures Performs(kind, p, s.(pc := w))
    ensures Perform(kind, p, s.(pc := w)) == Perform(kind, p, s).(pc := w)
  {
    hide AluResult, AluDefined, UnaryValue, UnaryFlags;
  }

  lemma ExecDo(kind: Kind, m: Mode, s: State, p: Place)
    requires Exists(Do(kind, m)) && DoPlace(kind, m, s) == p && Performs(kind, p, s)
    requires s.pc + Size(m) < 65536 && Fetches(s, Size(m))
    ensures Defined(Do(kind, m), s)
    ensures Exec(Do(kind, m), s) == Perform(kind, p, s).(pc := s.pc + Size(m))
  {
    hide Performs, Perform, DoPlace;
    PerformPc(kind, p, s, ToWord(s.pc + Size(m)));
  }

  lemma RunDo(env: Env, kind: Kind, m: Mode, arg: Arg, s: State, p: Place)
    requires WellFormed(Ins(Do(kind, m), arg)) && Holding(env, [Ins(Do(kind, m), arg)], s)
    requires DoPlace(kind, m, s) == p && Performs(kind, p, s)
    ensures Run(s, 1, Perform(kind, p, s).(pc := s.pc + Size(m)))
  {
    hide *;
    var it := Ins(Do(kind, m), arg);
    ExistsOf(it);
    Fetched(env, it, s);
    SizeOfDo(env, kind, m, arg, s);
    ExecDo(kind, m, s, p);
    StepsTo(env, it, s);
  }

  lemma SizeOfDo(env: Env, kind: Kind, m: Mode, arg: Arg, s: State)
    requires WellFormed(Ins(Do(kind, m), arg)) && Holding(env, [Ins(Do(kind, m), arg)], s)
    ensures s.pc + Size(m) < 65536 && Length(Do(kind, m)) == Size(m)
  {
    EncodeOne(env, Ins(Do(kind, m), arg));
  }

  /** An address instruction, then the operation on the memory it points at. */
  lemma RunAddressed(env: Env, first: Item, kind: Kind, m: Mode, s: State, t: State, p: Place)
    requires first.Ins? && WellFormed(first) && WellFormed(Ins(Do(kind, m), NoArg))
    requires AllWellFormed([first, Ins(Do(kind, m), NoArg)])
    requires Holding(env, [first, Ins(Do(kind, m), NoArg)], s)
    requires Defined(first.op, s) && Exists(first.op)
    requires Exec(first.op, s) == t.(pc := ToWord(s.pc + ItemSize(first))) && t.mem == s.mem
    requires DoPlace(kind, m, t) == p && Performs(kind, p, t) && m in {MemL, MemHL}
    ensures Run(s, 2, Perform(kind, p, t).(pc := ToWord(s.pc + ItemSize(first) + 1)))
  {
    hide *;
    var second := Ins(Do(kind, m), NoArg);
    var u := t.(pc := ToWord(s.pc + ItemSize(first)));
    InRange(env, first, second, s);
    HoldingRest(env, first, second, s, u);
    StepsTo(env, first, s);
    PlacePc(kind, m, t, u.pc);
    PerformPc(kind, p, t, u.pc);
    RunDo(env, kind, m, NoArg, u, p);
    RunsCompose(s, 1, u, 1, Perform(kind, p, u).(pc := u.pc + Size(m)));
  }

  lemma InRange(env: Env, a: Item, b: Item, s: State)
    requires WellFormed(a) && WellFormed(b) && AllWellFormed([a, b]) && Holding(env, [a, b], s)
    requires b.Ins? && b.arg == NoArg
    ensures s.pc + ItemSize(a) + 1 < 65536
    ensures ToWord(s.pc + ItemSize(a)) == s.pc + ItemSize(a)
    ensures ToWord(s.pc + ItemSize(a) + 1) == s.pc + ItemSize(a) + 1
  {
    EncodeTwo(env, a, b);
  }

  lemma PlacePc(kind: Kind, m: Mode, t: State, w: Word)
    requires m in {MemL, MemHL}
    ensures DoPlace(kind, m, t.(pc := w)) == DoPlace(kind, m, t) && Size(m) == 1
  {
  }

  // ---------- statements with a one-byte operand ----------

  /** Running the code of such a statement does what it means. */
  ghost predicate UseSimulated(env: Env, kind: Kind, o: Operand, s: State)
    requires UseDefined(env, kind, o, s)
  {
    var items := LowerUse(kind, o);
    Run(s, |items|, UseMeaning(env, kind, o, s).(pc := ToWord(s.pc + SizeOf(items))))
  }

  ghost predicate UseHeld(env: Env, kind: Kind, o: Operand, s: State) {
    && Accepts(kind, o) && UseDefined(env, kind, o, s)
    && AllWellFormed(LowerUse(kind, o)) && Holding(env, LowerUse(kind, o), s)
  }

  lemma UseReg(env: Env, kind: Kind, m: Mode, s: State)
    requires UseHeld(env, kind, Reg(m), s) && m != HL
    ensures UseSimulated(env, kind, Reg(m), s)
  {
    hide Run, Perform, Holding, Performs, Encode;
    EncodeOne(env, Ins(Do(kind, m), NoArg));
    RunDo(env, kind, m, NoArg, s, PlaceOf(m, s));
    RegPlain(env, kind, m, s);
  }

  lemma RegPlain(env: Env, kind: Kind, m: Mode, s: State)
    requires UseHeld(env, kind, Reg(m), s) && m != HL
    ensures DoPlace(kind, m, s) == PlaceOf(m, s) && Size(m) == 1 && s.pc + 1 < 65536
    ensures LowerUse(kind, Reg(m)) == [Ins(Do(kind, m), NoArg)]
  {
    EncodeOne(env, Ins(Do(kind, m), NoArg));
  }

  lemma UsePair(env: Env, fn: UnaryFn, s: State)
    requires UseHeld(env, Unary(fn), Reg(HL), s)
    ensures UseSimulated(env, Unary(fn), Reg(HL), s)
  {
    hide Run, UnaryWord, UnaryWordFlags, Encode;
    var it := Ins(UnaryHL(fn), NoArg);
    EncodeOne(env, it);
    StepsTo(env, it, s);
  }

  lemma UseNumber(env: Env, kind: Kind, v: nat, s: State)
    requires UseHeld(env, kind, Immediate(v), s)
    ensures UseSimulated(env, kind, Immediate(v), s)
  {
    var b := ToByte(v);
    if kind.Load? || kind.Xch? {
      if b == 0 {
        LoadZero(env, kind, v, s);
      } else {
        LoadNonZero(env, kind, v, s);
      }
    } else if kind == Alu(MIN) {
      MinNumber(env, v, s);
    } else {
      AluNumber(env, kind, v, s);
    }
  }

  lemma LoadZero(env: Env, kind: Kind, v: nat, s: State)
    requires UseHeld(env, kind, Immediate(v), s) && (kind.Load? || kind.Xch?) && ToByte(v) == 0
    ensures UseSimulated(env, kind, Immediate(v), s)
  {
    hide Run, Encode;
    var it := Ins(Clra, NoArg);
    EncodeOne(env, it);
    StepsTo(env, it, s);
  }

  lemma LoadNonZero(env: Env, kind: Kind, v: nat, s: State)
    requires UseHeld(env, kind, Immediate(v), s) && (kind.Load? || kind.Xch?) && ToByte(v) != 0
    ensures UseSimulated(env, kind, Immediate(v), s)
  {
    hide Run, Encode;
    var it := Ins(Do(Load, Imm), ByteArg(ToByte(v)));
    EncodeOne(env, it);
    Fetched(env, it, s);
    RunDo(env, Load, Imm, it.arg, s, Value(ToByte(v)));
  }

  lemma AluNumber(env: Env, kind: Kind, v: nat, s: State)
    requires UseHeld(env, kind, Immediate(v), s) && kind.Alu? && kind.alu != MIN
    ensures UseSimulated(env, kind, Immediate(v), s)
  {
    hide Run, Encode, Perform, AluDefined;
    var it := Ins(Do(kind, Imm), ByteArg(ToByte(v)));
    EncodeOne(env, it);
    Fetched(env, it, s);
    RunDo(env, kind, Imm, it.arg, s, Value(ToByte(v)));
  }

  lemma MinNumber(env: Env, v: nat, s: State)
    requires UseHeld(env, Alu(MIN), Immediate(v), s)
    ensures UseSimulated(env, Alu(MIN), Immediate(v), s)
  {
    hide Run, Encode;
    var it := Ins(Do(Alu(MIN), Imm), ByteArg(ToByte(v)));
    EncodeOne(env, it);
    HoldingOne(env, it, s);
    FetchItem(env, it, s);
    RunDo(env, Alu(MIN), Imm, it.arg, s, Value(208));
  }

  lemma UseDirect(env: Env, kind: Kind, o: Operand, t: Target, s: State)
    requires UseHeld(env, kind, o, s) && LowerUse(kind, o) == LowerDirect(kind, t)
    requires Locate(env, kind, o, s) == LocateDirect(kind, Resolve(env, t), s)
    requires !o.Immediate? && !o.Reg?
    ensures UseSimulated(env, kind, o, s)
  {
    if HasMemImm(kind) {
      DirectMemImm(env, kind, o, t, s);
    } else {
      DirectThroughHL(env, kind, o, t, s);
    }
  }

  lemma DirectMemImm(env: Env, kind: Kind, o: Operand, t: Target, s: State)
    requires UseHeld(env, kind, o, s) && LowerUse(kind, o) == LowerDirect(kind, t) && HasMemImm(kind)
    requires Locate(env, kind, o, s) == LocateDirect(kind, Resolve(env, t), s)
    requires !o.Immediate? && !o.Reg?
    ensures UseSimulated(env, kind, o, s)
  {
    hide Run, Encode, Perform, Resolve, LowerUse, Locate;
    var it := Ins(Do(kind, MemImm), WordArg(t));
    EncodeOne(env, it);
    Fetched(env, it, s);
    RunDo(env, kind, MemImm, it.arg, s, Cell(Resolve(env, t)));
  }

  lemma DirectThroughHL(env: Env, kind: Kind, o: Operand, t: Target, s: State)
    requires UseHeld(env, kind, o, s) && LowerUse(kind, o) == LowerDirect(kind, t) && !HasMemImm(kind)
    requires Locate(env, kind, o, s) == LocateDirect(kind, Resolve(env, t), s)
    requires !o.Immediate? && !o.Reg?
    ensures UseSimulated(env, kind, o, s)
  {
    hide Run, Encode, Perform, Resolve, LowerUse, Locate, Performs;
    var first, second := Ins(LoadHLI, WordArg(t)), Ins(Do(kind, MemHL), NoArg);
    EncodeTwo(env, first, second);
    HoldingRest(env, first, second, s, s.(pc := s.pc + 3));
    Fetched(env, first, s);
    var w := Resolve(env, t);
    RunAddressed(env, first, kind, MemHL, s, SetHL(s, w), Cell(w));
  }

  lemma ExecAddHL(s: State)
    requires Fetches(s, 3)
    ensures Defined(AddHLI, s)
    ensures Exec(AddHLI, s) == SetHL(s, ToWord(HLof(s) + OperandWord(s))).(pc := ToWord(s.pc + 3))
  {
    hide OperandWord, HLof, High, Low;
  }

  lemma SamePair(s: State)
    ensures SetHL(s, HLof(s)) == s
  {
  }

  lemma AtPair(kind: Kind, s: State, addr: Word)
    ensures SetHL(s, addr).mem == s.mem && SetHL(s, addr).acc == s.acc && SetHL(s, addr).pc == s.pc
    ensures DoPlace(kind, MemHL, SetHL(s, addr)) == Cell(addr)
  {
  }

  lemma UseByHL(env: Env, kind: Kind, o: Operand, t: Target, s: State)
    requires UseHeld(env, kind, o, s)
    requires LowerUse(kind, o) == [Ins(AddHLI, WordArg(t)), Ins(Do(kind, MemHL), NoArg)]
    requires Locate(env, kind, o, s) == LocateByHL(Resolve(env, t), s)
    requires !o.Immediate? && !o.Reg?
    ensures UseSimulated(env, kind, o, s)
  {
    hide Run, Encode, Perform, Resolve, LowerUse, Locate, Performs, Exec, Defined, HLof, SetHL, PlaceOf, DoPlace;
    var first, second := Ins(AddHLI, WordArg(t)), Ins(Do(kind, MemHL), NoArg);
    EncodeTwo(env, first, second);
    HoldingRest(env, first, second, s, s.(pc := s.pc + 3));
    Fetched(env, first, s);
    ExecAddHL(s);
    var addr := ToWord(HLof(s) + Resolve(env, t));
    AtPair(kind, s, addr);
    RunAddressed(env, first, kind, MemHL, s, SetHL(s, addr), Cell(addr));
  }

  lemma UseAtHL(env: Env, kind: Kind, o: Operand, s: State)
    requires UseHeld(env, kind, o, s) && LowerUse(kind, o) == [Ins(Do(kind, MemHL), NoArg)]
    requires Locate(env, kind, o, s) == LocateByHL(0, s)
    requires !o.Immediate? && !o.Reg?
    ensures UseSimulated(env, kind, o, s)
  {
    hide Run, Encode, Perform, LowerUse, Locate, Performs, HLof, SetHL, PlaceOf, DoPlace;
    EncodeOne(env, Ins(Do(kind, MemHL), NoArg));
    var addr := HLof(s);
    SamePair(s);
    AtPair(kind, s, addr);
    RunDo(env, kind, MemHL, NoArg, s, Cell(addr));
  }

  lemma UseByL(env: Env, kind: Kind, d: Word, s: State)
    requires UseHeld(env, kind, Memory(MemExpr(ByL, d)), s)
    ensures UseSimulated(env, kind, Memory(MemExpr(ByL, d)), s)
  {
    hide UseHeld, UseSimulated;
    if d == 0 {
      UseAtL(env, kind, s);
    } else {
      UseAddL(env, kind, d, s);
    }
  }

  lemma UseAtL(env: Env, kind: Kind, s: State)
    requires UseHeld(env, kind, Memory(MemExpr(ByL, 0)), s)
    ensures UseSimulated(env, kind, Memory(MemExpr(ByL, 0)), s)
  {
    hide Run, Encode, Perform, Performs;
    EncodeOne(env, Ins(Do(kind, MemL), NoArg));
    RunDo(env, kind, MemL, NoArg, s, Cell(s.l));
  }

  lemma UseAddL(env: Env, kind: Kind, d: Word, s: State)
    requires UseHeld(env, kind, Memory(MemExpr(ByL, d)), s) && d != 0
    ensures UseSimulated(env, kind, Memory(MemExpr(ByL, d)), s)
  {
    hide Run, Encode, Perform, Performs, Exec, Defined, PlaceOf, DoPlace, ToByte, Low, OperandByte, ItemBytes;
    var first, second := Ins(AddLI, ByteArg(Low(d))), Ins(Do(kind, MemL), NoArg);
    EncodeTwo(env, first, second);
    HoldingRest(env, first, second, s, s.(pc := s.pc + 2));
    Fetched(env, first, s);
    ExecAddL(kind, s, d);
    var addr := ToByte(s.l + d);
    RunAddressed(env, first, kind, MemL, s, s.(l := addr), Cell(addr));
  }

  /** Adding the low byte of a displacement to L is adding the displacement, modulo 256. */
  lemma ExecAddL(kind: Kind, s: State, d: Word)
    requires Fetches(s, 2) && OperandByte(s, 0) == Low(d)
    ensures Defined(AddLI, s)
    ensures Exec(AddLI, s) == s.(l := ToByte(s.l + d)).(pc := ToWord(s.pc + 2))
    ensures DoPlace(kind, MemL, s.(l := ToByte(s.l + d))) == Cell(ToByte(s.l + d))
  {
    hide OperandByte;
  }

  lemma UseLocal(env: Env, kind: Kind, d: Word, s: State)
    requires UseHeld(env, kind, Local(d), s)
    ensures UseSimulated(env, kind, Local(d), s)
  {
    hide Run, Encode, Perform, Performs;
    var it := Ins(Do(kind, Frame), ByteArg(ToByte(d + 1)));
    EncodeOne(env, it);
    Fetched(env, it, s);
    FrameIndex(s.bp, d);
    RunDo(env, kind, Frame, it.arg, s, Slot(ToByte(s.bp - 1 - d)));
  }

  /** The encoded displacement d + 1, truncated, subtracted and truncated again. */
  lemma FrameIndex(bp: Byte, d: Word)
    ensures ToByte(bp - ToByte(d + 1)) == ToByte(bp - 1 - d)
  {
  }

  lemma UseSim(env: Env, kind: Kind, o: Operand, s: State)
    requires UseHeld(env, kind, o, s)
    ensures UseSimulated(env, kind, o, s)
  {
    hide UseSimulated, UseHeld;
    match o
    case Reg(m) =>
      if m == HL { PairIsUnary(env, kind, s); UsePair(env, kind.unary, s); } else { UseReg(env, kind, m, s); }
    case Immediate(v) => UseNumber(env, kind, v, s);
    case Memory(e) => UseMemory(env, kind, e, s);
    case Labelled(name, e) => UseLabelled(env, kind, name, e, s);
    case Local(d) => UseLocal(env, kind, d, s);
  }

  lemma PairIsUnary(env: Env, kind: Kind, s: State)
    requires UseHeld(env, kind, Reg(HL), s)
    ensures kind.Unary?
  {
  }

  lemma UseMemory(env: Env, kind: Kind, e: MemExpr, s: State)
    requires UseHeld(env, kind, Memory(e), s)
    ensures UseSimulated(env, kind, Memory(e), s)
  {
    hide UseSimulated, UseDefined, Holding, AllWellFormed, LocateDirect, LocateByHL, LowerDirect;
    match e.base
    case Absolute => UseDirect(env, kind, Memory(e), Abs(e.disp), s);
    case ByHL =>
      if e.disp == 0 {
        UseAtHL(env, kind, Memory(e), s);
      } else {
        UseByHL(env, kind, Memory(e), Abs(e.disp), s);
      }
    case ByL => UseByL(env, kind, e.disp, s);
    case ByBP =>
  }

  lemma UseLabelled(env: Env, kind: Kind, name: string, e: MemExpr, s: State)
    requires UseHeld(env, kind, Labelled(name, e), s)
    ensures UseSimulated(env, kind, Labelled(name, e), s)
  {
    hide UseSimulated, UseDefined, Holding, AllWellFormed, LocateDirect, LocateByHL, LowerDirect, Resolve;
    if e.base == Absolute {
      UseDirect(env, kind, Labelled(name, e), Lab(name, e.disp), s);
    } else {
      UseByHL(env, kind, Labelled(name, e), Lab(name, e.disp), s);
    }
  }

  // ---------- all statements ----------

  ghost predicate Held(env: Env, st: Stmt, s: State) {
    && MeaningDefined(env, st, s)
    && AllWellFormed(Lower(st)) && Holding(env, Lower(st), s)
  }

  ghost predicate Simulated(env: Env, st: Stmt, s: State)
    requires MeaningDefined(env, st, s)
  {
    Run(s, |Lower(st)|, Meaning(env, st, s))
  }

  /** The code a statement is lowered to, held in memory at PC, runs to the statement's meaning. */
  lemma StatementSim(env: Env, st: Stmt, s: State)
    requires Held(env, st, s)
    ensures Simulated(env, st, s)
  {
    hide Held, Simulated;
    match st
    case Plain(op) => PlainSim(env, op, s);
    case Use(kind, o) => StmtUseSim(env, kind, o, s);
    case UseWide(fn, o) => WideSim(env, fn, o, s);
    case JumpTo(c, t) => JumpSim(env, c, t, s);
    case JumpExtTo(m, t) => JumpExtSim(env, m, t, s);
    case PushOperand(o) => PushSim(env, o, s);
    case PopOperand(o) => PopSim(env, o, s);
    case CallTo(name) => CallSim(env, name, s);
    case Return => ReturnSim(env, s);
    case ReturnPop(n) => ReturnPopSim(env, n, s);
    case EnterFrame(n) => EnterSim(env, n, s);
    case Bytes(_) | Define(_) | Constant(_, _) | Blank => NotHeld(env, st, s);
  }

  lemma NotHeld(env: Env, st: Stmt, s: State)
    requires Held(env, st, s)
    ensures Executable(st)
  {
  }

  lemma PlainSim(env: Env, op: PlainOp, s: State)
    requires Held(env, Plain(op), s)
    ensures Simulated(env, Plain(op), s)
  {
    hide Run, Encode, Exec;
    var it := Ins(op, NoArg);
    EncodeOne(env, it);
    StepsTo(env, it, s);
  }

  lemma StmtUseSim(env: Env, kind: Kind, o: Operand, s: State)
    requires Held(env, Use(kind, o), s)
    ensures Simulated(env, Use(kind, o), s)
  {
    hide Run, Encode, UseMeaning, UseDefined, LowerUse, Accepts;
    UseSim(env, kind, o, s);
  }

  lemma WideSim(env: Env, fn: WideFn, o: Operand, s: State)
    requires Held(env, UseWide(fn, o), s)
    ensures Simulated(env, UseWide(fn, o), s)
  {
    hide Run, Encode, WideDefined, WideValue, High, Low;
    var it := if o.Immediate? then Ins(Wide(fn, Imm), WordArg(Abs(ToWord(o.v)))) else Ins(Wide(fn, o.mode), NoArg);
    EncodeOne(env, it);
    Fetched(env, it, s);
    StepsTo(env, it, s);
  }

  lemma JumpSim(env: Env, c: Cond, t: Target, s: State)
    requires Held(env, JumpTo(c, t), s)
    ensures Simulated(env, JumpTo(c, t), s)
  {
    hide Run, Encode, Resolve;
    var it := Ins(Jump(c), WordArg(t));
    EncodeOne(env, it);
    Fetched(env, it, s);
    StepsTo(env, it, s);
  }

  lemma JumpExtSim(env: Env, m: Byte, t: Target, s: State)
    requires Held(env, JumpExtTo(m, t), s)
    ensures Simulated(env, JumpExtTo(m, t), s)
  {
    hide Run, Encode, Resolve, HoldsExt;
    var it := Ins(JumpExt, MaskArg(m, t));
    EncodeOne(env, it);
    Fetched(env, it, s);
    StepsTo(env, it, s);
  }

  lemma PushSim(env: Env, o: Operand, s: State)
    requires Held(env, PushOperand(o), s)
    ensures Simulated(env, PushOperand(o), s)
  {
    hide Run, Encode, FlagsByte;
    var it := if o.Immediate? then Ins(Push(Imm), ByteArg(ToByte(o.v))) else Ins(Push(o.mode), NoArg);
    EncodeOne(env, it);
    Fetched(env, it, s);
    StepsTo(env, it, s);
  }

  lemma ExecPopIs(m: Mode, s: State)
    requires m in {Acc, R0, R1, H, L, BP, FLAGS} && s.pc + 1 < 65536
    ensures Defined(Pop(m), s) && Exec(Pop(m), s) == PopMeaning(m, s.(pc := s.pc + 1))
  {
    hide ExecPop, PopMeaning;
    PopIsMeant(m, s);
  }

  lemma PopIsMeant(m: Mode, s: State)
    requires m in {Acc, R0, R1, H, L, BP, FLAGS} && s.pc + 1 < 65536
    ensures ExecPop(m, s) == PopMeaning(m, s.(pc := s.pc + 1))
  {
    hide ByteFlags;
  }

  lemma PopSim(env: Env, o: Operand, s: State)
    requires Held(env, PopOperand(o), s)
    ensures Simulated(env, PopOperand(o), s)
  {
    hide Run, Encode, PopMeaning, Exec, Defined;
    var it := Ins(Pop(o.mode), NoArg);
    EncodeOne(env, it);
    ExecPopIs(o.mode, s);
    StepsTo(env, it, s);
  }

  lemma CallSim(env: Env, name: string, s: State)
    requires Held(env, CallTo(name), s)
    ensures Simulated(env, CallTo(name), s)
  {
    hide Run, Encode, Resolve, PushWord, Exec, Defined, OperandWord, Legal;
    var it := Ins(Call, WordArg(Lab(name, 0)));
    EncodeOne(env, it);
    Fetched(env, it, s);
    ExecCallIs(s);
    StepsTo(env, it, s);
  }

  lemma ReturnSim(env: Env, s: State)
    requires Held(env, Return, s)
    ensures Simulated(env, Return, s)
  {
    hide Run, Encode;
    EncodeOne(env, Ins(Ret, NoArg));
    StepsTo(env, Ins(Ret, NoArg), s);
  }

  lemma ReturnPopSim(env: Env, n: Byte, s: State)
    requires Held(env, ReturnPop(n), s)
    ensures Simulated(env, ReturnPop(n), s)
  {
    hide Run, Encode, ExecRet;
    var it := Ins(RetI, ByteArg(n));
    EncodeOne(env, it);
    Fetched(env, it, s);
    StepsTo(env, it, s);
  }

  lemma EnterSim(env: Env, n: Byte, s: State)
    requires Held(env, EnterFrame(n), s)
    ensures Simulated(env, EnterFrame(n), s)
  {
    hide Run, Encode;
    var it := Ins(Enter, ByteArg(n));
    EncodeOne(env, it);
    Fetched(env, it, s);
    StepsTo(env, it, s);
  }
}
