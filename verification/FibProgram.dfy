/** The program programs/fib_recursive.casm from its token lines to its result: the assembler
    turns the lines into the bytes `Fib` reasons about, and the loaded CPU runs them to HALT with
    the Fibonacci number in HL. */
module FibProgram {
  import opened Words
  import opened Isa
  import opened Machine
  import opened CpuModel
  import opened Encoding
  import opened Syntax
  import opened Lowering
  import opened Simulation
  import opened Program
  import opened Spelling
  import opened SourceText
  import opened Layout
  import opened Vm
  import opened Fib

  const NTH := "nth_fib"
  const ONE_CASE := "one_case"
  const N_CASE := "n_case"

  // ---------- the routine's lines ----------

  /** Statement i of the routine. */
  function FibStmt(i: nat): Stmt {
    match i
    case 0 => Define(NTH)
    case 1 => Use(Load, Reg(H))
    case 2 => Use(Alu(CMP), Immediate(0))
    case 3 => JumpTo(IfNotZero, Lab(N_CASE, 0))
    case 4 => Use(Load, Reg(L))
    case 5 => Use(Alu(CMP), Immediate(0))
    case 6 => JumpTo(IfNotZero, Lab(ONE_CASE, 0))
    case 7 => Return
    case 8 => Define(ONE_CASE)
    case 9 => Use(Alu(CMP), Immediate(1))
    case 10 => JumpTo(IfNotZero, Lab(N_CASE, 0))
    case 11 => Return
    case 12 => Define(N_CASE)
    case 13 => PushOperand(Reg(H))
    case 14 => PushOperand(Reg(L))
    case 15 => Use(Unary(DEC), Reg(HL))
    case 16 => CallTo(NTH)
    case 17 => PopOperand(Reg(Acc))
    case 18 => PopOperand(Reg(R0))
    case 19 => PushOperand(Reg(H))
    case 20 => PushOperand(Reg(L))
    case 21 => Use(Store, Reg(L))
    case 22 => Use(Load, Reg(R0))
    case 23 => Use(Store, Reg(H))
    case 24 => UseWide(SUBW, Immediate(2))
    case 25 => CallTo(NTH)
    case 26 => PopOperand(Reg(Acc))
    case 27 => Use(Alu(ADD), Reg(L))
    case 28 => Use(Store, Reg(L))
    case 29 => PopOperand(Reg(Acc))
    case 30 => Use(Alu(ADC), Reg(H))
    case 31 => Use(Store, Reg(H))
    case _ => Return
  }

  /** Where statement i starts within the routine. */
  function FibOffset(i: nat): nat {
    match i
    case 0 => 0 case 1 => 0 case 2 => 1 case 3 => 3 case 4 => 6 case 5 => 7 case 6 => 9 case 7 => 12
    case 8 => 13 case 9 => 13 case 10 => 15 case 11 => 18
    case 12 => 19 case 13 => 19 case 14 => 20 case 15 => 21 case 16 => 22 case 17 => 25 case 18 => 26
    case 19 => 27 case 20 => 28 case 21 => 29 case 22 => 30 case 23 => 31 case 24 => 32 case 25 => 35
    case 26 => 38 case 27 => 39 case 28 => 40 case 29 => 41 case 30 => 42 case 31 => 43 case 32 => 44
    case _ => 45
  }

  /** Bytes a to b of the routine. */
  function Slice(f: Word, a: nat, b: nat): seq<Byte>
    requires f + 19 < 65536 && a <= b
  {
    seq<Byte>(b - a, j requires 0 <= j < b - a => FibByte(f, a + j))
  }

  lemma SliceIs(f: Word, a: nat)
    requires f + 19 < 65536
    ensures Slice(f, a, a) == []
    ensures Slice(f, a, a + 1) == [FibByte(f, a)]
    ensures Slice(f, a, a + 2) == [FibByte(f, a), FibByte(f, a + 1)]
    ensures Slice(f, a, a + 3) == [FibByte(f, a), FibByte(f, a + 1), FibByte(f, a + 2)]
  {
    hide FibByte;
  }

  lemma SliceJoin(f: Word, a: nat, b: nat, c: nat)
    requires f + 19 < 65536 && a <= b <= c
    ensures Slice(f, a, c) == Slice(f, a, b) + Slice(f, b, c)
  {
    hide FibByte;
  }

  // ---------- the bytes of each line ----------

  /** The labels with the routine at address f. */
  ghost predicate FibEnv(env: Env, f: Word) {
    && f + FIB_SIZE < 65536
    && NTH in env && env[NTH] == f
    && ONE_CASE in env && env[ONE_CASE] == f + 13
    && N_CASE in env && env[N_CASE] == f + 19
  }

  ghost predicate Emits(env: Env, f: Word, i: nat)
    requires f + 19 < 65536
  {
    && Spellable(FibStmt(i)) && FibOffset(i) <= FibOffset(i + 1)
    && AllWellFormed(Lower(FibStmt(i)))
    && Encode(env, Lower(FibStmt(i))) == Slice(f, FibOffset(i), FibOffset(i + 1))
  }

  /** A one-byte instruction. */
  lemma EmitsPlain(env: Env, f: Word, i: nat, op: Op)
    requires FibEnv(env, f) && Spellable(FibStmt(i)) && FibOffset(i + 1) == FibOffset(i) + 1
    requires Exists(op) && Length(op) == 1
    requires Lower(FibStmt(i)) == One(op, NoArg) && FibByte(f, FibOffset(i)) == Opcode(op)
    ensures Emits(env, f, i)
  {
    hide FibByte, Opcode, FibOffset, FibStmt, Lower, Encode, Exists, Length, Spellable;
    EncodeOne(env, Ins(op, NoArg));
    SliceIs(f, FibOffset(i));
  }

  lemma EmitsByte(env: Env, f: Word, i: nat, op: Op, b: Byte)
    requires FibEnv(env, f) && Spellable(FibStmt(i)) && FibOffset(i + 1) == FibOffset(i) + 2
    requires Exists(op) && Length(op) == 2
    requires Lower(FibStmt(i)) == One(op, ByteArg(b))
    requires FibByte(f, FibOffset(i)) == Opcode(op) && FibByte(f, FibOffset(i) + 1) == b
    ensures Emits(env, f, i)
  {
    hide FibByte, Opcode, FibOffset, FibStmt, Lower, Encode, Exists, Length, Spellable;
    EncodeOne(env, Ins(op, ByteArg(b)));
    SliceIs(f, FibOffset(i));
  }

  lemma EmitsWord(env: Env, f: Word, i: nat, op: Op, t: Target, w: Word)
    requires FibEnv(env, f) && Spellable(FibStmt(i)) && FibOffset(i + 1) == FibOffset(i) + 3
    requires Exists(op) && Length(op) == 3 && Resolve(env, t) == w
    requires Lower(FibStmt(i)) == One(op, WordArg(t))
    requires FibByte(f, FibOffset(i)) == Opcode(op)
    requires FibByte(f, FibOffset(i) + 1) == High(w) && FibByte(f, FibOffset(i) + 2) == Low(w)
    ensures Emits(env, f, i)
  {
    hide FibByte, Opcode, FibOffset, FibStmt, Lower, Encode, Exists, Length, Spellable, Resolve, High, Low, TargetBytes;
    TargetWord(env, t);
    JoinParts(TargetBytes(env, t)[0], TargetBytes(env, t)[1]);
    EncodeOne(env, Ins(op, WordArg(t)));
    SliceIs(f, FibOffset(i));
  }

  lemma EmitsLabel(env: Env, f: Word, i: nat)
    requires FibEnv(env, f) && i in {0, 8, 12}
    ensures Emits(env, f, i)
  {
    hide FibByte;
    SliceIs(f, FibOffset(i));
  }

  /** The instructions of one byte each. */
  function PlainOf(i: nat): Op {
    match i
    case 1 => Do(Load, H) case 4 => Do(Load, L)
    case 13 => Push(H) case 14 => Push(L) case 15 => UnaryHL(DEC)
    case 17 => Pop(Acc) case 18 => Pop(R0) case 19 => Push(H) case 20 => Push(L)
    case 21 => Do(Store, L) case 22 => Do(Load, R0) case 23 => Do(Store, H)
    case 26 => Pop(Acc) case 27 => Do(Alu(ADD), L) case 28 => Do(Store, L)
    case 29 => Pop(Acc) case 30 => Do(Alu(ADC), H) case 31 => Do(Store, H)
    case _ => Ret
  }

  predicate IsPlain(i: nat) {
    i in {1, 4, 7, 11, 13, 14, 15, 17, 18, 19, 20, 21, 22, 23, 26, 27, 28, 29, 30, 31, 32}
  }

  lemma PlainStmt(i: nat)
    requires IsPlain(i)
    ensures Spellable(FibStmt(i)) && Lower(FibStmt(i)) == One(PlainOf(i), NoArg)
    ensures Exists(PlainOf(i)) && Length(PlainOf(i)) == 1 && FibOffset(i + 1) == FibOffset(i) + 1
  {
  }

  lemma PlainByte(f: Word, i: nat)
    requires IsPlain(i) && f + 19 < 65536 && Exists(PlainOf(i))
    ensures FibByte(f, FibOffset(i)) == Opcode(PlainOf(i))
  {
    hide Opcode, High, Low;
  }

  lemma CompareEmits(env: Env, f: Word, i: nat)
    requires FibEnv(env, f) && i in {2, 5, 9}
    ensures Emits(env, f, i)
  {
    hide Opcode, High, Low, Encode, Emits;
    EmitsByte(env, f, i, Do(Alu(CMP), Imm), if i == 9 then 1 else 0);
  }

  lemma BranchEmits(env: Env, f: Word, i: nat)
    requires FibEnv(env, f) && i in {3, 6, 10}
    ensures Emits(env, f, i)
  {
    hide Opcode, High, Low, Encode, Resolve, Emits;
    var name, w := if i == 6 then ONE_CASE else N_CASE, if i == 6 then f + 13 else f + 19;
    LabelWord(env, name, w);
    EmitsWord(env, f, i, Jump(IfNotZero), Lab(name, 0), w);
  }

  lemma CallEmits(env: Env, f: Word, i: nat)
    requires FibEnv(env, f) && i in {16, 25}
    ensures Emits(env, f, i)
  {
    hide Opcode, High, Low, Encode, Resolve, Emits;
    LabelWord(env, NTH, f);
    EmitsWord(env, f, i, Call, Lab(NTH, 0), f);
  }

  lemma SubtractEmits(env: Env, f: Word)
    requires FibEnv(env, f)
    ensures Emits(env, f, 24)
  {
    hide Opcode, Encode, Emits;
    EmitsWord(env, f, 24, Wide(SUBW, Imm), Abs(2), 2);
  }

  /** Every line of the routine emits its stretch of the routine's bytes. */
  lemma LineEmits(env: Env, f: Word, i: nat)
    requires FibEnv(env, f) && i < 33
    ensures Emits(env, f, i)
  {
    hide *;
    if i in {0, 8, 12} {
      EmitsLabel(env, f, i);
    } else if i in {2, 5, 9} {
      CompareEmits(env, f, i);
    } else if i in {3, 6, 10} {
      BranchEmits(env, f, i);
    } else if i in {16, 25} {
      CallEmits(env, f, i);
    } else if i == 24 {
      SubtractEmits(env, f);
    } else {
      PlainEmits(env, f, i);
    }
  }

  lemma PlainEmits(env: Env, f: Word, i: nat)
    requires FibEnv(env, f) && i < 33 && i !in {0, 8, 12, 2, 5, 9, 3, 6, 10, 16, 25, 24}
    ensures Emits(env, f, i)
  {
    hide FibByte, Opcode, FibOffset, FibStmt, PlainOf, Lower, Encode, Exists, Length, Spellable, Emits;
    PlainStmt(i);
    PlainByte(f, i);
    EmitsPlain(env, f, i, PlainOf(i));
  }

  // ---------- the whole program ----------

  const FIB: Word := 263

  /** Line i of the program that computes the n-th number: the repository's has n = 35. */
  function Stmt(n: nat, i: nat): Stmt {
    match i
    case 0 => Use(Load, Immediate(n))
    case 1 => Use(Store, Reg(L))
    case 2 => CallTo(NTH)
    case 3 => Plain(Halt)
    case _ => FibStmt(i - 4)
  }

  lemma StmtSpellable(n: nat, i: nat)
    requires i < 37
    ensures Spellable(Stmt(n, i))
  {
    if i >= 4 {
      hide *;
      StmtOfRoutine(n, i);
      SomeEnv();
      LineEmits(FinalEnv(), FIB, i - 4);
      EmitsSpellable(FinalEnv(), FIB, i - 4);
    }
  }

  lemma StmtOfRoutine(n: nat, i: nat)
    requires i >= 4
    ensures Stmt(n, i) == FibStmt(i - 4)
  {
    hide FibStmt;
  }

  lemma EmitsSpellable(env: Env, f: Word, i: nat)
    requires f + 19 < 65536 && Emits(env, f, i)
    ensures Spellable(FibStmt(i)) && AllWellFormed(Lower(FibStmt(i)))
    ensures FibOffset(i) <= FibOffset(i + 1)
    ensures Encode(env, Lower(FibStmt(i))) == Slice(f, FibOffset(i), FibOffset(i + 1))
  {
    hide FibStmt, Spellable, FibOffset, Slice, Encode, Lower;
  }

  function FinalEnv(): Env { map[NTH := 263, ONE_CASE := 276, N_CASE := 282] }

  lemma SomeEnv()
    ensures FibEnv(FinalEnv(), FIB) && FIB + 19 < 65536
  {
  }

  /** The token lines; the comments of the file, which emit nothing, are left out. */
  function FibLines(n: nat): (lines: Lines)
    ensures |lines| == 37
  {
    seq(37, i requires 0 <= i < 37 => StmtSpellable(n, i); Write(Stmt(n, i)))
  }

  /** The bytes of each line before the routine. */
  function MainPart(n: nat, i: nat): seq<Byte> {
    match i
    case 0 => [Opcode(Do(Load, Imm)), ToByte(n)]
    case 1 => [Opcode(Do(Store, L))]
    case 2 => [Opcode(Call), 1, 7]
    case _ => [HALT]
  }

  function MainBytes(n: nat): seq<Byte> {
    [Opcode(Do(Load, Imm)), ToByte(n), Opcode(Do(Store, L)), Opcode(Call), 1, 7, HALT]
  }

  function ProgramBytes(n: nat): (bs: seq<Byte>) { MainBytes(n) + Slice(FIB, 0, 45) }

  lemma LineIs(n: nat, i: nat)
    requires i < 37
    ensures Spellable(Stmt(n, i)) && FibLines(n)[i] == Write(Stmt(n, i))
    ensures LineItems(FibLines(n)[i]) == Lower(Stmt(n, i)) && AllWellFormed(Lower(Stmt(n, i)))
  {
    hide Stmt, Spellable, Write, Lower, LineItems;
    StmtSpellable(n, i);
    WrittenItems(Stmt(n, i));
  }

  /** The first bytes of the program. */
  function Upto(n: nat, i: nat): seq<Byte>
    decreases i
  {
    if i == 0 then [] else if i < 4 then Upto(n, i - 1) + MainPart(n, i - 1)
    else MainBytes(n) + Slice(FIB, 0, FibOffset(i - 4))
  }

  lemma MainEmits(n: nat, i: nat)
    requires 1 <= n < 256 && i < 4
    ensures AllWellFormed(Lower(Stmt(n, i)))
    ensures Encode(FinalEnv(), Lower(Stmt(n, i))) == MainPart(n, i)
  {
    hide Encode, Opcode, TargetBytes, FinalEnv;
    var it := match i
              case 0 => Ins(Do(Load, Imm), ByteArg(ToByte(n)))
              case 1 => Ins(Do(Store, L), NoArg)
              case 2 => Ins(Call, WordArg(Lab(NTH, 0)))
              case _ => Ins(Halt, NoArg);
    assert Lower(Stmt(n, i)) == [it];
    ResolveMain();
    HaltOpcode();
    EncodeOne(FinalEnv(), it);
  }

  lemma ResolveMain()
    ensures TargetBytes(FinalEnv(), Lab(NTH, 0)) == [1, 7]
  {
    hide Resolve, TargetBytes;
    LabelWord(FinalEnv(), NTH, 263);
    TargetWord(FinalEnv(), Lab(NTH, 0));
    JoinParts(TargetBytes(FinalEnv(), Lab(NTH, 0))[0], TargetBytes(FinalEnv(), Lab(NTH, 0))[1]);
  }

  lemma NextBytes(n: nat, i: nat)
    requires 1 <= n < 256 && i < 37
    ensures AllWellFormed(Lower(Stmt(n, i)))
    ensures Upto(n, i + 1) == Upto(n, i) + Encode(FinalEnv(), Lower(Stmt(n, i)))
  {
    hide *;
    if i < 4 {
      MainEmits(n, i);
      UptoMain(n, i);
    } else {
      SomeEnv();
      StmtOfRoutine(n, i);
      LineEmits(FinalEnv(), FIB, i - 4);
      EmitsSpellable(FinalEnv(), FIB, i - 4);
      UptoRoutine(n, i);
    }
  }

  lemma UptoMain(n: nat, i: nat)
    requires i < 4
    ensures Upto(n, i + 1) == Upto(n, i) + MainPart(n, i)
  {
    hide Opcode;
    if i == 3 {
      SliceIs(FIB, 0);
      assert Slice(FIB, 0, FibOffset(0)) == [];
      assert Upto(n, 1) == MainPart(n, 0);
      assert Upto(n, 2) == Upto(n, 1) + MainPart(n, 1);
      assert Upto(n, 3) == Upto(n, 2) + MainPart(n, 2);
    }
  }

  lemma UptoRoutine(n: nat, i: nat)
    requires i >= 4 && FibOffset(i - 4) <= FibOffset(i - 3)
    ensures Upto(n, i + 1) == Upto(n, i) + Slice(FIB, FibOffset(i - 4), FibOffset(i - 3))
  {
    hide MainBytes, FibOffset, Slice;
    var a, b := FibOffset(i - 4), FibOffset(i - 3);
    SliceJoin(FIB, 0, a, b);
    assert MainBytes(n) + (Slice(FIB, 0, a) + Slice(FIB, a, b)) == MainBytes(n) + Slice(FIB, 0, a) + Slice(FIB, a, b);
  }

  /** The first i lines emit the first bytes. */
  lemma {:induction false} BytesUpto(n: nat, i: nat)
    requires 1 <= n < 256 && i <= 37
    ensures Encode(FinalEnv(), ItemsTo(FibLines(n), i)) == Upto(n, i)
  {
    hide *;
    if i == 0 {
      NoBytes(n);
    } else {
      BytesUpto(n, i - 1);
      LineIs(n, i - 1);
      NextBytes(n, i - 1);
      ItemsNext(FibLines(n), i - 1);
      LinesLength(n);
      EncodeConcat(FinalEnv(), ItemsTo(FibLines(n), i - 1), LineItems(FibLines(n)[i - 1]));
    }
  }

  lemma LinesLength(n: nat)
    ensures |FibLines(n)| == 37
  {
  }

  lemma NoBytes(n: nat)
    ensures Encode(FinalEnv(), ItemsTo(FibLines(n), 0)) == Upto(n, 0)
  {
    hide FibLines, MainBytes;
  }

  lemma ItemsNext(lines: Lines, i: nat)
    requires i < |lines|
    ensures ItemsTo(lines, i + 1) == ItemsTo(lines, i) + LineItems(lines[i])
  {
    hide LineItems;
  }

  // ---------- the labels ----------

  function EnvUpto(i: nat): Env {
    if i <= 4 then map[]
    else if i <= 12 then map[NTH := 263]
    else if i <= 16 then map[NTH := 263, ONE_CASE := 276]
    else FinalEnv()
  }

  lemma AddressIs(n: nat, i: nat)
    requires 1 <= n < 256 && i <= 37
    ensures AddressOf(FibLines(n), i) == 256 + |Upto(n, i)|
  {
    hide ItemsTo, FibLines, Upto, SizeOf, Encode;
    BytesUpto(n, i);
    LinesLength(n);
  }

  lemma LabelAddress(n: nat, i: nat)
    requires i in {4, 12, 16}
    ensures 256 + |Upto(n, i)| == if i == 4 then 263 else if i == 12 then 276 else 282
  {
    hide FibByte, Opcode;
  }

  lemma BindWritten(env: Env, st: Stmt, here: nat)
    requires Spellable(st) && !st.Constant?
    ensures Bind(env, Write(st), here) == if st.Define? && st.name !in env then env[st.name := here] else env
  {
    hide Write, ParseLine, Spellable;
    StatementRoundTrip(st);
  }

  /** The lines that define labels. */
  function DefinedName(i: nat): Option<string> {
    match i
    case 4 => Some(NTH)
    case 12 => Some(ONE_CASE)
    case 16 => Some(N_CASE)
    case _ => None
  }

  lemma DefinesWhat(n: nat, i: nat)
    requires i < 37
    ensures !Stmt(n, i).Constant?
    ensures Stmt(n, i).Define? <==> DefinedName(i).Some?
    ensures Stmt(n, i).Define? ==> Stmt(n, i).name == DefinedName(i).value
  {
  }

  lemma EnvNext(i: nat, here: nat)
    requires i < 37 && (DefinedName(i).Some? ==> here == if i == 4 then 263 else if i == 12 then 276 else 282)
    ensures EnvUpto(i + 1) == if DefinedName(i).Some? && DefinedName(i).value !in EnvUpto(i)
                              then EnvUpto(i)[DefinedName(i).value := here] else EnvUpto(i)
  {
  }

  lemma {:induction false} LabelsUpto(n: nat, i: nat)
    requires 1 <= n < 256 && i <= 37
    ensures LabelsTo(FibLines(n), i) == EnvUpto(i)
  {
    hide *;
    if i == 0 {
      NoLabels(n);
    } else {
      var here := AddressOf(FibLines(n), i - 1);
      LabelsUpto(n, i - 1);
      LinesLength(n);
      LabelsNext(FibLines(n), i - 1);
      LineIs(n, i - 1);
      DefinesWhat(n, i - 1);
      BindWritten(EnvUpto(i - 1), Stmt(n, i - 1), here);
      AddressIs(n, i - 1);
      DefinedWhere(i - 1);
      if DefinedName(i - 1).Some? {
        LabelAddress(n, i - 1);
      }
      EnvNext(i - 1, here);
    }
  }

  lemma DefinedWhere(i: nat)
    ensures DefinedName(i).Some? <==> i in {4, 12, 16}
  {
  }

  lemma NoLabels(n: nat)
    ensures LabelsTo(FibLines(n), 0) == EnvUpto(0)
  {
    hide FibLines;
  }

  lemma LabelsNext(lines: Lines, i: nat)
    requires i < |lines|
    ensures LabelsTo(lines, i + 1) == Bind(LabelsTo(lines, i), lines[i], AddressOf(lines, i))
  {
    hide Bind, AddressOf;
  }

  /** What the assembler makes of the program. */
  lemma FibAssembled(n: nat)
    requires 1 <= n < 256
    ensures OneShot(FibLines(n)) == Zeros(256) + ProgramBytes(n) + [HALT]
  {
    hide *;
    LinesLength(n);
    LabelsUpto(n, 37);
    BytesUpto(n, 37);
    LastLabels(n);
    OneShotIs(n);
  }

  lemma LastLabels(n: nat)
    ensures EnvUpto(37) == FinalEnv() && Upto(n, 37) == ProgramBytes(n)
  {
    hide MainBytes, FibByte, Slice;
  }

  lemma OneShotIs(n: nat)
    requires LabelsTo(FibLines(n), 37) == FinalEnv()
    requires Encode(FinalEnv(), ItemsTo(FibLines(n), 37)) == ProgramBytes(n)
    ensures OneShot(FibLines(n)) == Zeros(256) + ProgramBytes(n) + [HALT]
  {
    hide FibLines, ItemsTo, LabelsTo, ProgramBytes, Encode, FinalEnv;
    LinesLength(n);
  }

  // ---------- the run ----------

  lemma FibLoaded(n: nat)
    requires 1 <= n < 256
    ensures |OneShot(FibLines(n))| < 65536
    ensures var s := Loaded(FibLines(n));
            FibCode(s.mem, FIB) && s == Initial().(mem := s.mem)
            && (forall k :: 0 <= k < 7 ==> s.mem[256 + k] == MainBytes(n)[k])
  {
    hide OneShot, FibByte, Opcode, Initial;
    FibAssembled(n);
    LoadedBytes(n);
  }

  lemma LoadedBytes(n: nat)
    requires OneShot(FibLines(n)) == Zeros(256) + ProgramBytes(n) + [HALT]
    ensures |OneShot(FibLines(n))| < 65536
    ensures var s := Loaded(FibLines(n));
            && s == Initial().(mem := s.mem)
            && (forall k :: 0 <= k < 7 ==> s.mem[256 + k] == MainBytes(n)[k])
            && (forall k :: 0 <= k < 45 ==> s.mem[FIB + k] == FibByte(FIB, k))
  {
    hide OneShot, FibByte, Opcode, FibLines;
    var all := OneShot(FibLines(n));
    assert |all| == 309;
    forall k | 0 <= k < 45
      ensures all[FIB + k] == FibByte(FIB, k)
    {
      assert all[263 + k] == ProgramBytes(n)[7 + k];
    }
  }

  ghost predicate InMain(n: nat, s: State, k: nat) {
    && s.pc == 256 + k && FibCode(s.mem, FIB)
    && (forall j :: 0 <= j < 7 ==> s.mem[256 + j] == MainBytes(n)[j])
  }

  lemma MainByte(n: nat, s: State, k: nat)
    requires InMain(n, s, k) && k < 7
    ensures s.mem[s.pc] == MainBytes(n)[k]
    ensures k + 1 < 7 ==> OperandByte(s, 0) == MainBytes(n)[k + 1]
    ensures k + 2 < 7 ==> OperandByte(s, 1) == MainBytes(n)[k + 2]
  {
    hide MainBytes, FibCode;
  }

  lemma LoadArgument(n: nat, s: State) returns (t: State)
    requires InMain(n, s, 0) && n < 256 && s.h == 0
    ensures Busy(s, 1, t) && InMain(n, t, 2) && t.acc == n && t.h == 0 && t.mem == s.mem
  {
    hide Busy, Opcode, FibCode;
    MainByte(n, s, 0);
    t := Exec(Do(Load, Imm), s);
    BusyStep(s, Do(Load, Imm));
  }

  lemma StoreArgument(n: nat, s: State) returns (t: State)
    requires InMain(n, s, 2) && s.h == 0 && s.acc == n
    ensures Busy(s, 1, t) && InMain(n, t, 3) && HLof(t) == n && t.mem == s.mem
  {
    hide Busy, Opcode, FibCode;
    MainByte(n, s, 2);
    t := Exec(Do(Store, L), s);
    BusyStep(s, Do(Store, L));
  }

  lemma CallFib(n: nat, s: State) returns (t: State)
    requires InMain(n, s, 3)
    ensures Busy(s, 1, t) && At(FIB, t, 0) && HLof(t) == HLof(s) && TopWord(t) == 262 && t.mem == s.mem
  {
    hide Busy, Opcode, FibCode, PushWord, Exec, Defined, TopWord, HLof;
    MainByte(n, s, 3);
    ExecCallIs(s);
    t := Exec(Call, s);
    BusyStep(s, Call);
    Pushes(s, 262);
  }

  lemma Pushes(s: State, w: Word)
    ensures var t := PushWord(w, s).(pc := FIB);
            TopWord(t) == w && HLof(t) == HLof(s) && t.mem == s.mem
  {
    hide ToByte;
    var a := PushByte(High(w), s);
    PointerSums(s.sp);
    BytesThemselves(s.sp);
    WrapSum(s.sp + 2, -2);
    WrapSum(s.sp + 2, -1);
    NextDiffers(s.sp);
  }

  lemma NextDiffers(b: int)
    ensures ToByte(b) != ToByte(b + 1)
  {
  }

  /** The three instructions before the routine is entered. */
  lemma MainRun(n: nat, s: State) returns (t: State)
    requires n < 256 && FibCode(s.mem, FIB) && s == Initial().(mem := s.mem)
    requires forall k :: 0 <= k < 7 ==> s.mem[256 + k] == MainBytes(n)[k]
    ensures Busy(s, 3, t) && At(FIB, t, 0) && HLof(t) == n && TopWord(t) == 262 && t.mem == s.mem
  {
    hide *;
    AtStart(n, s);
    var a := LoadArgument(n, s);
    var b := StoreArgument(n, a);
    t := CallFib(n, b);
    BusyCompose(s, 1, a, 1, b);
    BusyCompose(s, 2, b, 1, t);
  }

  lemma AtStart(n: nat, s: State)
    requires FibCode(s.mem, FIB) && s == Initial().(mem := s.mem)
    requires forall k :: 0 <= k < 7 ==> s.mem[256 + k] == MainBytes(n)[k]
    ensures InMain(n, s, 0) && s.h == 0
  {
    hide FibCode, MainBytes;
  }

  /** The loaded program halts with the n-th Fibonacci number in HL. */
  lemma FibHalts(n: nat) returns (t: State, k: nat)
    requires 1 <= n <= 64
    ensures |OneShot(FibLines(n))| < 65536
    ensures Run(Loaded(FibLines(n)), k, t) && HaltsIn(Loaded(FibLines(n)), k)
    ensures HLof(t) == ToWord(FibNumber(n))
  {
    hide *;
    FibLoaded(n);
    var s := Loaded(FibLines(n));
    var a := MainRun(n, s);
    var m;
    t, m := FibCorrect(FIB, a, n);
    BusyCompose(s, 3, a, m, t);
    k := m + 3;
    FibEnds(n, s, a, t);
    BusyHalts(s, k, t);
    BusyIsRun(s, k, t);
  }

  lemma FibEnds(n: nat, s: State, a: State, t: State)
    requires FibReturns(a, n, t) && a.mem == s.mem && TopWord(a) == 262
    requires forall k :: 0 <= k < 7 ==> s.mem[256 + k] == MainBytes(n)[k]
    ensures Halted(t) && HLof(t) == ToWord(FibNumber(n))
  {
    hide Opcode, StackKept, FibNumber, ToWord, HLof, TopWord;
    assert MainBytes(n)[6] == HALT;
    assert s.mem[256 + 6] == HALT;
  }

  // ---------- from source text to result ----------

  lemma LabelNames()
    ensures NameText(NTH) && NameText(ONE_CASE) && NameText(N_CASE)
  {
  }

  lemma FibTextual(n: nat, i: nat)
    requires n < 256 && i < 37
    ensures Textual(Stmt(n, i))
  {
    hide NameText, LabelText, Spellable, FibStmt, Stmt;
    LabelNames();
    NamesAreLabels();
    StmtSpellable(n, i);
    FibOperands(n, i);
  }

  lemma NamesAreLabels()
    ensures LabelText(NTH) && LabelText(ONE_CASE) && LabelText(N_CASE)
  {
    hide LabelText;
    LabelNames();
  }

  lemma FibOperands(n: nat, i: nat)
    requires n < 256 && i < 37
    ensures match Stmt(n, i)
            case Use(_, o) => OperandText(o)
            case UseWide(_, o) => OperandText(o)
            case PushOperand(o) => OperandText(o)
            case PopOperand(o) => OperandText(o)
            case JumpTo(_, t) => t.Lab? && t.name in {NTH, ONE_CASE, N_CASE}
            case CallTo(name) => name in {NTH, ONE_CASE, N_CASE}
            case Define(name) => name in {NTH, ONE_CASE, N_CASE}
            case Constant(_, _) | JumpExtTo(_, _) | Blank => false
            case _ => true
  {
  }

  lemma FibCodeLines(n: nat)
    requires n < 256
    ensures forall i :: 0 <= i < 37 ==> CodeLine(FibLines(n)[i])
  {
    hide Textual, Spellable, Stmt, Write, CodeLine;
    forall i | 0 <= i < 37
      ensures CodeLine(FibLines(n)[i])
    {
      FibTextual(n, i);
      TextualCode(Stmt(n, i));
    }
  }

  lemma TextualCode(st: Stmt)
    requires Textual(st)
    ensures Spellable(st) && CodeLine(Write(st))
  {
    hide Textual, Spellable, Write, Rendering.WellFormedLine;
    TextualSpellable(st);
    WrittenLine(st);
    StatementUncommented(st);
  }

  lemma FibUnindexed(n: nat, i: nat)
    requires n < 256 && i < 37
    ensures forall j :: 0 <= j < |FibLines(n)[i]| ==> FibLines(n)[i][j].sym != LabelIdx
  {
    hide Spellable, Write;
    StmtSpellable(n, i);
    StatementUnindexed(Stmt(n, i));
  }

  /** Each line has its annotation. */
  ghost predicate FibNotes(n: nat, notes: seq<Annotation>) {
    |notes| == 37 && forall i :: 0 <= i < 37 ==> Proper(FibLines(n)[i], notes[i])
  }

  lemma FibFitting(n: nat, notes: seq<Annotation>)
    requires FibNotes(n, notes)
    ensures Fitting(FibLines(n), notes)
  {
    hide Proper, FibLines, Remarked;
    forall i | 0 <= i < 37
      ensures |notes[i].gaps| == |Remarked(FibLines(n)[i], notes[i])|
    {
      ProperFits(FibLines(n)[i], notes[i]);
    }
  }

  /** The program as text: its lines with the given annotations, and notes below the last. */
  ghost function FibText(n: nat, notes: seq<Annotation>, below: seq<Rendering.Laid>): string
    requires FibNotes(n, notes)
  {
    FibFitting(n, notes);
    Rendering.RenderAll(AnnotateAll(FibLines(n), notes, below))
  }

  /** From the program's text to its result: tokenizing, assembling, loading and running it, whatever
      its indentation, spacing, comments and blank lines, also at its end, and whatever the label
      table's hash function, stops with the n-th Fibonacci number modulo 65536 in HL. */
  method RunFibonacci(text: string, hash: string -> nat, ghost n: nat, ghost notes: seq<Annotation>,
                      ghost below: seq<Rendering.Laid>)
    returns (cpu: Cpu)
    requires 1 <= n <= 64 && FibNotes(n, notes) && AllNotes(below) && text == FibText(n, notes, below)
    ensures fresh(cpu) && cpu.Valid() && Halted(cpu.Snapshot())
    ensures HLof(cpu.Snapshot()) == ToWord(FibNumber(n))
  {
    hide *;
    cpu := new Cpu();
    FibTextBytes(n, notes, below);
    var executable := AssembleText(text, hash);
    ghost var t, k := FibHalts(n);
    cpu.LoadProgram(executable, |executable|);
    LoadedIs(FibLines(n), cpu.Snapshot());
    cpu.RunCpu(k);
    RunsAgree(Loaded(FibLines(n)), k, t, cpu.Snapshot());
  }

  lemma FibTextBytes(n: nat, notes: seq<Annotation>, below: seq<Rendering.Laid>)
    requires n < 256 && FibNotes(n, notes) && AllNotes(below)
    ensures OneShot(Rendering.TokensOf(FibText(n, notes, below))) == OneShot(FibLines(n))
  {
    hide Proper, CodeLine, Rendering.TokensOf, Rendering.RenderAll, AnnotateAll, FibLines, OneShot, AllNotes, Fitting;
    FibCodeLines(n);
    FibFitting(n, notes);
    AnnotationsIgnored(FibLines(n), notes, below);
  }

  // ---------- the number the repository's program computes ----------

  /** F(m + k) from two neighbours, in k additions. */
  function FibFrom(a: nat, b: nat, k: nat): nat
    decreases k
  {
    if k == 0 then a else FibFrom(b, a + b, k - 1)
  }

  lemma {:induction false} FibFromIs(m: nat, k: nat)
    ensures FibFrom(FibNumber(m), FibNumber(m + 1), k) == FibNumber(m + k)
    decreases k
  {
    if k > 0 {
      FibFromIs(m + 1, k - 1);
    }
  }

  /** The program with the argument 35 halts with 52425 in HL, what the thirty-fifth number,
      9227465, leaves of itself. */
  lemma ThirtyFive() returns (t: State, k: nat)
    ensures |OneShot(FibLines(35))| < 65536 && FibNumber(35) == 9227465
    ensures Run(Loaded(FibLines(35)), k, t) && HaltsIn(Loaded(FibLines(35)), k) && HLof(t) == 52425
  {
    hide *;
    t, k := FibHalts(35);
    NumberThirtyFive();
  }

  lemma NumberThirtyFive()
    ensures FibNumber(35) == 9227465 && ToWord(FibNumber(35)) == 52425
  {
    hide FibNumber, FibFrom;
    FibFromIs(0, 35);
    FirstTwo();
    FiveMore(0, 1, 30);
    FiveMore(5, 8, 25);
    FiveMore(55, 89, 20);
    FiveMore(610, 987, 15);
    FiveMore(6765, 10946, 10);
    FiveMore(75025, 121393, 5);
    FiveMore(832040, 1346269, 0);
    assert FibFrom(9227465, 14930352, 0) == 9227465 by { NoMore(9227465, 14930352); }
  }

  lemma FiveMore(a: nat, b: nat, k: nat)
    ensures FibFrom(a, b, k + 5) == FibFrom(3 * a + 5 * b, 5 * a + 8 * b, k)
  {
    assert FibFrom(a, b, k + 5) == FibFrom(a + b, a + 2 * b, k + 3);
    assert FibFrom(a + b, a + 2 * b, k + 3) == FibFrom(2 * a + 3 * b, 3 * a + 5 * b, k + 1);
  }

  lemma NoMore(a: nat, b: nat)
    ensures FibFrom(a, b, 0) == a
  {
  }

  lemma FirstTwo()
    ensures FibNumber(0) == 0 && FibNumber(1) == 1
  {
  }
}
