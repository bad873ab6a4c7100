/** Control never enters the middle of an instruction: in code whose jumps go to instructions and
    whose returns go where its calls came from, every reachable PC is the first byte of an
    emitted instruction. */
module Boundaries {
  import opened Words
  import opened Isa
  import opened Machine
  import opened Encoding
  import opened Syntax
  import opened Lowering
  import opened Source
  import opened Simulation
  import opened Program
  import opened Vm

  /** Item k, or the final HALT, starts at address a. */
  ghost predicate StartsAt(items: seq<Item>, k: nat, a: nat) {
    k <= |items| && a == 256 + SizeOf(items[..k]) && (k < |items| ==> items[k].Ins?)
  }

  ghost predicate Boundary(items: seq<Item>, a: nat) { exists k :: StartsAt(items, k, a) }

  // ---------- closed code ----------

  /** Control can go on to the next item after this operation. */
  predicate FallsThrough(op: Op) {
    op != Jump(Always) && op != Ret && op != RetI && op != Halt && op != Reset
  }

  /** Jumps and calls go to boundaries, and control never falls into data. JEXT, which can go on
      inside its own operand, does not occur. */
  ghost predicate ClosedAt(env: Env, items: seq<Item>, k: nat)
    requires k < |items|
  {
    var it := items[k];
    it.Ins? ==>
      && it.op != JumpExt
      && ((it.op.Jump? || it.op.Call?) && it.arg.WordArg? ==> Boundary(items, Resolve(env, it.arg.t)))
      && (FallsThrough(it.op) && k + 1 < |items| ==> items[k + 1].Ins?)
  }

  ghost predicate Closed(env: Env, items: seq<Item>) {
    && AllWellFormed(items) && 256 + SizeOf(items) < 65536
    && Boundary(items, 256)
    && forall k :: 0 <= k < |items| ==> ClosedAt(env, items, k)
  }

  /** The instruction at PC, or the final HALT, is in memory as it was emitted. Nothing else in
      memory matters, neither data nor other instructions. */
  ghost predicate CodeIntact(env: Env, items: seq<Item>, s: State)
    requires AllWellFormed(items)
  {
    forall k: nat :: StartsAt(items, k, s.pc) ==>
      if k < |items| then CodeAt(s.mem, s.pc, ItemBytes(env, items[k])) else s.mem[s.pc] == HALT
  }

  // ---------- runs with a shadow stack ----------

  predicate Returns(op: Op) { op == Ret || op == RetI }

  /** The return addresses of the calls in progress, innermost last. */
  function ShadowStep(s: State, shadow: seq<Word>): seq<Word> {
    if Current(s) == Call then shadow + [ToWord(s.pc + 3)]
    else if Returns(Current(s)) && shadow != [] then shadow[..|shadow| - 1]
    else shadow
  }

  /** A return finds the address of the innermost call in progress on the stack. */
  ghost predicate Disciplined(s: State, shadow: seq<Word>) {
    Returns(Current(s)) ==> shadow != [] && TopWord(s) == shadow[|shadow| - 1]
  }

  /** n steps of emitted instructions that return where they were called from. */
  ghost predicate TrackedRun(env: Env, items: seq<Item>, s: State, shadow: seq<Word>, n: nat, t: State)
    requires AllWellFormed(items)
    decreases n
  {
    if n == 0 then s == t
    else && CodeIntact(env, items, s) && CanStep(s) && Disciplined(s, shadow)
         && TrackedRun(env, items, Step(s), ShadowStep(s, shadow), n - 1, t)
  }

  ghost predicate AllBoundaries(items: seq<Item>, shadow: seq<Word>) {
    forall i :: 0 <= i < |shadow| ==> Boundary(items, shadow[i])
  }

  // ---------- where an instruction leaves PC ----------

  function NextPc(op: Op, s: State): Word {
    match op
    case Halt => s.pc
    case Reset => 256
    case Jump(c) => if Holds(c, s.f) then OperandWord(s) else ToWord(s.pc + 3)
    case JumpExt => ExecJumpExt(s).pc
    case Call => OperandWord(s)
    case Ret | RetI => TopWord(s)
    case _ => ToWord(s.pc + Length(op))
  }

  lemma ExecPc(op: Op, s: State)
    requires Exists(op) && Defined(op, s)
    ensures Exec(op, s).pc == NextPc(op, s)
  {
    match op
    case Do(kind, m) => DoPc(kind, m, s);
    case UnaryHL(_) | Wide(_, _) => PairPc(op, s);
    case Push(m) => PushPc(m, s);
    case Pop(m) => PopPc(m, s);
    case Jump(_) | JumpExt | Call | Ret | RetI | Enter | Leave => ControlPc(op, s);
    case _ => PlainPc(op, s);
  }

  lemma PairPc(op: Op, s: State)
    requires Exists(op) && Defined(op, s) && (op.UnaryHL? || op.Wide?)
    ensures Exec(op, s).pc == ToWord(s.pc + Length(op))
  {
    hide WideValue, WideOperand, WideDefined, UnaryWord, UnaryWordFlags, High, Low, Length;
  }

  lemma PushPc(m: Mode, s: State)
    requires Exists(Push(m))
    ensures Exec(Push(m), s).pc == ToWord(s.pc + Length(Push(m)))
  {
    hide PushedByte, Length;
  }

  lemma ControlPc(op: Op, s: State)
    requires Defined(op, s)
    requires op.Jump? || op.JumpExt? || op.Call? || op.Ret? || op.RetI? || op.Enter? || op.Leave?
    ensures Exec(op, s).pc == NextPc(op, s)
  {
    hide Fetches, JumpDefined, JumpExtDefined, OperandWord, TopWord, HoldsExt;
  }

  lemma PlainPc(op: Op, s: State)
    requires op in {Noop, Halt, Ei, Di, Et, Dt, Clra, Reset, LoadLI, LoadHLI, AddLI, AddHLI} && Defined(op, s)
    ensures Exec(op, s).pc == NextPc(op, s)
  {
    hide Fetches, OperandWord, High, Low;
  }

  lemma DoPc(kind: Kind, m: Mode, s: State)
    requires Exists(Do(kind, m)) && Defined(Do(kind, m), s)
    ensures Exec(Do(kind, m), s).pc == ToWord(s.pc + Size(m))
  {
    hide AluResult, AluDefined, DoPlace, UnaryValue, UnaryFlags, DoFetches;
    PutKeeps(DoPlace(kind, m, s), s.acc, s, s.f);
  }

  lemma PopPc(m: Mode, s: State)
    requires Exists(Pop(m)) && Defined(Pop(m), s)
    ensures Exec(Pop(m), s).pc == ToWord(s.pc + Length(Pop(m)))
  {
    hide PlaceOf, ByteFlags;
  }

  /** The operation leaves PC behind its own operands in this state. */
  predicate GoesOn(op: Op, s: State) {
    match op
    case Halt | Reset | JumpExt | Call | Ret | RetI => false
    case Jump(c) => !Holds(c, s.f)
    case _ => true
  }

  /** What is emitted for a statement is what the CPU skips: an instruction that goes on goes on
      behind its operand bytes. */
  lemma OperandsSkipped(st: Stmt, i: nat, s: State)
    requires Legal(st) && i < |Lower(st)| && Lower(st)[i].Ins?
    requires Exists(Lower(st)[i].op) && Defined(Lower(st)[i].op, s) && GoesOn(Lower(st)[i].op, s)
    ensures Exec(Lower(st)[i].op, s).pc == ToWord(s.pc + ItemSize(Lower(st)[i]))
  {
    hide Exec, Defined, Exists, Lower, Legal, Length, Holds, ToWord;
    LowerWellFormed(st);
    ExecPc(Lower(st)[i].op, s);
    assert WellFormed(Lower(st)[i]);
    JumpLength(Lower(st)[i].op);
  }

  lemma JumpLength(op: Op)
    ensures op.Jump? ==> Length(op) == 3
  {
  }

  // ---------- one step ----------

  lemma SizeNext(items: seq<Item>, k: nat)
    requires k < |items| && AllWellFormed(items)
    ensures SizeOf(items[..k + 1]) == SizeOf(items[..k]) + ItemSize(items[k])
    ensures SizeOf(items[..k + 1]) <= SizeOf(items)
  {
    hide WellFormed, ItemSize, Encode;
    assert items[..k + 1] == items[..k] + [items[k]];
    EncodeConcat(map[], items[..k], [items[k]]);
    EncodeOne(map[], items[k]);
    assert items == items[..k + 1] + items[k + 1..];
    EncodeConcat(map[], items[..k + 1], items[k + 1..]);
  }

  /** The instruction at boundary k is held in memory there. */
  lemma HeldAt(env: Env, items: seq<Item>, k: nat, s: State)
    requires AllWellFormed(items) && CodeIntact(env, items, s) && k < |items| && items[k].Ins?
    requires s.pc == 256 + SizeOf(items[..k]) && 256 + SizeOf(items) < 65536
    ensures WellFormed(items[k]) && Holding(env, [items[k]], s)
  {
    hide ItemSize, ItemBytes, Encode, CodeAt, SizeOf;
    assert StartsAt(items, k, s.pc);
    EncodeOne(env, items[k]);
    SizeNext(items, k);
  }

  lemma HaltAtEnd(env: Env, items: seq<Item>, s: State)
    requires AllWellFormed(items) && CodeIntact(env, items, s) && s.pc == 256 + SizeOf(items)
    requires CanStep(s)
    ensures Current(s) == Halt && Step(s) == s
  {
    hide Encode, CanStep, Opcode, SizeOf;
    assert items[..|items|] == items;
    assert StartsAt(items, |items|, s.pc);
    HaltOpcode();
    StepExec(s, Halt);
    DecodeOpcode(Halt);
  }

  /** Control moves from a boundary to a boundary. */
  lemma StepStays(env: Env, items: seq<Item>, s: State, shadow: seq<Word>)
    requires Closed(env, items) && CodeIntact(env, items, s) && CanStep(s) && Disciplined(s, shadow)
    requires Boundary(items, s.pc) && AllBoundaries(items, shadow)
    ensures Boundary(items, Step(s).pc) && AllBoundaries(items, ShadowStep(s, shadow))
  {
    hide CanStep, Step, Current, CodeIntact, Boundary, ClosedAt, SizeOf;
    var k := BoundaryIndex(items, s.pc);
    if k == |items| {
      assert items[..k] == items;
      HaltAtEnd(env, items, s);
    } else {
      hide *;
      ClosedParts(env, items, k);
      HeldAt(env, items, k, s);
      InstructionStays(env, items, s, shadow, k);
    }
  }

  lemma BoundaryIndex(items: seq<Item>, a: nat) returns (k: nat)
    requires Boundary(items, a)
    ensures k <= |items| && a == 256 + SizeOf(items[..k]) && (k < |items| ==> items[k].Ins?)
  {
    k :| StartsAt(items, k, a);
  }

  lemma ClosedParts(env: Env, items: seq<Item>, k: nat)
    requires Closed(env, items) && k < |items|
    ensures AllWellFormed(items) && 256 + SizeOf(items) < 65536 && Boundary(items, 256) && ClosedAt(env, items, k)
  {
    hide Boundary, ClosedAt, WellFormed;
  }

  lemma NextBoundary(env: Env, items: seq<Item>, k: nat)
    requires AllWellFormed(items) && 256 + SizeOf(items) < 65536 && k < |items| && items[k].Ins?
    requires k + 1 < |items| ==> items[k + 1].Ins?
    ensures var a := 256 + SizeOf(items[..k]) + Length(items[k].op); a < 65536 && Boundary(items, a)
  {
    hide SizeOf, Encode, Length, ArgSize, Exists;
    SizeNext(items, k);
    if k + 1 == |items| {
      assert items[..k + 1] == items;
    }
    assert WellFormed(items[k]);
    assert StartsAt(items, k + 1, 256 + SizeOf(items[..k + 1]));
  }

  lemma InstructionStays(env: Env, items: seq<Item>, s: State, shadow: seq<Word>, k: nat)
    requires AllWellFormed(items) && 256 + SizeOf(items) < 65536 && Boundary(items, 256)
    requires k < |items| && items[k].Ins? && ClosedAt(env, items, k) && CanStep(s) && Disciplined(s, shadow)
    requires s.pc == 256 + SizeOf(items[..k]) && WellFormed(items[k]) && Holding(env, [items[k]], s)
    requires Boundary(items, s.pc) && AllBoundaries(items, shadow)
    ensures Boundary(items, Step(s).pc) && AllBoundaries(items, ShadowStep(s, shadow))
  {
    hide *;
    var it := items[k];
    FetchedOp(env, it, s);
    Fetched(env, it, s);
    ExecPc(it.op, s);
    NextPcStays(env, items, s, shadow, k);
    ShadowStays(env, items, s, shadow, k);
  }

  lemma NextPcStays(env: Env, items: seq<Item>, s: State, shadow: seq<Word>, k: nat)
    requires AllWellFormed(items) && 256 + SizeOf(items) < 65536 && Boundary(items, 256)
    requires k < |items| && items[k].Ins? && ClosedAt(env, items, k) && WellFormed(items[k])
    requires s.pc == 256 + SizeOf(items[..k]) && Boundary(items, s.pc)
    requires items[k].op == Current(s) && Disciplined(s, shadow) && AllBoundaries(items, shadow)
    requires items[k].arg.WordArg? ==> OperandWord(s) == Resolve(env, items[k].arg.t)
    ensures Boundary(items, NextPc(items[k].op, s))
  {
    hide Boundary, SizeOf, Resolve, Current, OperandWord, Length, AllWellFormed, WellFormed, TopWord, ExecJumpExt;
    var op := items[k].op;
    TargetArg(items[k]);
    if FallsThrough(op) {
      NextBoundary(env, items, k);
    }
    if Returns(op) {
      assert Boundary(items, shadow[|shadow| - 1]);
    }
  }

  lemma ShadowStays(env: Env, items: seq<Item>, s: State, shadow: seq<Word>, k: nat)
    requires AllWellFormed(items) && 256 + SizeOf(items) < 65536
    requires k < |items| && items[k].Ins? && ClosedAt(env, items, k) && WellFormed(items[k])
    requires s.pc == 256 + SizeOf(items[..k]) && items[k].op == Current(s) && AllBoundaries(items, shadow)
    ensures AllBoundaries(items, ShadowStep(s, shadow))
  {
    hide Boundary, SizeOf, Resolve, Current, Length, AllWellFormed, WellFormed;
    TargetArg(items[k]);
    if Current(s) == Call {
      NextBoundary(env, items, k);
    }
  }

  lemma FetchedOp(env: Env, it: Item, s: State)
    requires it.Ins? && WellFormed(it) && Holding(env, [it], s) && CanStep(s)
    ensures Current(s) == it.op && Exists(it.op) && Defined(it.op, s) && Step(s) == Exec(it.op, s)
  {
    hide Encode, ItemBytes, Opcode, Exists, Exec, Defined, Decode;
    HoldingOne(env, it, s);
    FetchItem(env, it, s);
    ExistsOf(it);
    DecodeOpcode(it.op);
  }

  lemma TargetArg(it: Item)
    requires it.Ins? && WellFormed(it)
    ensures it.op.Jump? || it.op.Call? ==> it.arg.WordArg? && Length(it.op) == 3
  {
  }

  /** Every reachable PC is a boundary, and so is every return address in use. */
  lemma {:induction false} RunStays(env: Env, items: seq<Item>, s: State, shadow: seq<Word>, n: nat, t: State)
    requires Closed(env, items) && TrackedRun(env, items, s, shadow, n, t)
    requires Boundary(items, s.pc) && AllBoundaries(items, shadow)
    ensures Boundary(items, t.pc)
    decreases n
  {
    hide *;
    ClosedWellFormed(env, items);
    TrackedParts(env, items, s, shadow, n, t);
    if n > 0 {
      StepStays(env, items, s, shadow);
      RunStays(env, items, Step(s), ShadowStep(s, shadow), n - 1, t);
    }
  }

  lemma ClosedWellFormed(env: Env, items: seq<Item>)
    requires Closed(env, items)
    ensures AllWellFormed(items)
  {
  }

  lemma TrackedParts(env: Env, items: seq<Item>, s: State, shadow: seq<Word>, n: nat, t: State)
    requires AllWellFormed(items) && TrackedRun(env, items, s, shadow, n, t)
    ensures n == 0 ==> s == t
    ensures n > 0 ==> && CodeIntact(env, items, s) && CanStep(s) && Disciplined(s, shadow)
                      && TrackedRun(env, items, Step(s), ShadowStep(s, shadow), n - 1, t)
  {
    hide CanStep, Step, ShadowStep, CodeIntact, Disciplined;
  }

  // ---------- label targets ----------

  /** A jump to a label lands on a boundary when the first thing emitted after the label's
      definition is an instruction. */
  lemma LabelIsBoundary(lines: seq<seq<Token>>, i: nat, name: string)
    requires i < |lines| && Defines(lines, i, name) == Some(AddressOf(lines, i))
    requires forall j :: 0 <= j < i ==> Defines(lines, j, name) == None
    requires var items, k := ItemsTo(lines, |lines|), |ItemsTo(lines, i)|; k < |items| ==> items[k].Ins?
    requires AddressOf(lines, i) < 65536
    ensures Boundary(ProgramItems(lines), Resolve(Labels(lines), Lab(name, 0)))
  {
    hide *;
    var j := LabelsMeaning(lines, |lines|, name);
    ItemsPrefix(lines, i, |lines|);
    AddressBoundary(lines, i);
    LabelsAre(lines);
    LabelWord(Labels(lines), name, AddressOf(lines, i));
  }

  lemma {:induction false} ItemsPrefix(lines: seq<seq<Token>>, i: nat, n: nat)
    requires i <= n <= |lines|
    ensures |ItemsTo(lines, i)| <= |ItemsTo(lines, n)|
    ensures ItemsTo(lines, n)[..|ItemsTo(lines, i)|] == ItemsTo(lines, i)
  {
    hide LineItems;
    if i < n {
      ItemsPrefix(lines, i, n - 1);
    }
  }

  lemma AddressBoundary(lines: seq<seq<Token>>, i: nat)
    requires i < |lines|
    requires var items, k := ItemsTo(lines, |lines|), |ItemsTo(lines, i)|;
             k <= |items| && items[..k] == ItemsTo(lines, i) && (k < |items| ==> items[k].Ins?)
    ensures Boundary(ProgramItems(lines), AddressOf(lines, i))
  {
    hide ItemsTo, SizeOf;
    assert StartsAt(ProgramItems(lines), |ItemsTo(lines, i)|, AddressOf(lines, i));
  }

  lemma LabelsAre(lines: seq<seq<Token>>)
    ensures Labels(lines) == LabelsTo(lines, |lines|)
  {
    hide LabelsTo;
  }

  // ---------- programs ----------

  /** The first thing emitted from line i on is an instruction or the final HALT. */
  ghost predicate CodeFrom(lines: Lines, i: nat)
    requires i <= |lines|
  {
    var items, k := ProgramItems(lines), |ItemsTo(lines, i)|;
    k < |items| ==> items[k].Ins?
  }

  /** Line i is the first to define the label, as the address of code. */
  ghost predicate CodeLabel(lines: Lines, i: nat, name: string) {
    && i < |lines| && ParseLine(lines[i]) == Some(Define(name))
    && (forall j :: 0 <= j < i ==> Defines(lines, j, name) == None)
    && CodeFrom(lines, i)
  }

  ghost predicate GoesToCode(lines: Lines, t: Target) {
    t.Lab? && t.offset == 0 && exists i :: CodeLabel(lines, i, t.name)
  }

  /** Control can go on to the next line. */
  predicate FallsOn(st: Stmt) {
    Executable(st) && match st
                      case Plain(op) => FallsThrough(op)
                      case JumpTo(c, _) => c != Always
                      case Return | ReturnPop(_) => false
                      case _ => true
  }

  /** Jumps and calls name labels in front of code, code does not run into data, and there is no
      JEXT. */
  ghost predicate Structured(lines: Lines, i: nat)
    requires i < |lines|
  {
    match ParseLine(lines[i])
    case None => true
    case Some(st) =>
      && !st.JumpExtTo?
      && (st.JumpTo? ==> GoesToCode(lines, st.target))
      && (st.CallTo? ==> GoesToCode(lines, Lab(st.name, 0)))
      && (FallsOn(st) ==> CodeFrom(lines, i + 1))
  }

  ghost predicate StructuredProgram(lines: Lines) {
    && AddressOf(lines, |lines|) < 65536 && CodeFrom(lines, 0)
    && forall i :: 0 <= i < |lines| ==> Structured(lines, i)
  }

  /** The line an item comes from. */
  lemma {:induction false} ItemLine(lines: Lines, n: nat, k: nat) returns (i: nat, j: nat)
    requires n <= |lines| && k < |ItemsTo(lines, n)|
    ensures i < n && j < |LineItems(lines[i])| && k == |ItemsTo(lines, i)| + j
    ensures ItemsTo(lines, n)[k] == LineItems(lines[i])[j]
    ensures |ItemsTo(lines, i + 1)| == |ItemsTo(lines, i)| + |LineItems(lines[i])|
  {
    hide LineItems;
    if k < |ItemsTo(lines, n - 1)| {
      i, j := ItemLine(lines, n - 1, k);
    } else {
      i, j := n - 1, k - |ItemsTo(lines, n - 1)|;
    }
  }

  /** What the items of one statement do to control. */
  lemma StatementControl(st: Stmt, j: nat)
    requires j < |Lower(st)| && Lower(st)[j].Ins?
    ensures var it := Lower(st)[j];
            && (it.op == JumpExt ==> st.JumpExtTo?)
            && (it.op.Jump? ==> st.JumpTo? && it.arg == WordArg(st.target))
            && (it.op.Call? ==> st.CallTo? && it.arg == WordArg(Lab(st.name, 0)))
            && (FallsThrough(it.op) && j + 1 == |Lower(st)| ==> FallsOn(st))
    ensures j + 1 < |Lower(st)| ==> Lower(st)[j + 1].Ins?
  {
  }

  lemma LabelTarget(lines: Lines, t: Target)
    requires GoesToCode(lines, t) && AddressOf(lines, |lines|) < 65536
    ensures Boundary(ProgramItems(lines), Resolve(Labels(lines), t))
  {
    hide Boundary, Resolve, Labels, AddressOf, ParseLine, ItemsTo;
    var i :| CodeLabel(lines, i, t.name);
    AddressesGrow(lines, i, |lines|);
    LabelIsBoundary(lines, i, t.name);
  }

  lemma ItemClosed(lines: Lines, k: nat)
    requires StructuredProgram(lines) && k < |ProgramItems(lines)|
    ensures ClosedAt(Labels(lines), ProgramItems(lines), k)
  {
    hide Boundary, Resolve, Labels, AddressOf, ParseLine, ItemsTo, Lower, GoesToCode, FallsOn, FallsThrough, LineItems;
    var items := ProgramItems(lines);
    var i, j := ItemLine(lines, |lines|, k);
    assert Structured(lines, i);
    var st := ItemStatement(lines, i, j);
    if items[k].Ins? {
      StatementControl(st, j);
      if items[k].op.Jump? || items[k].op.Call? {
        LabelTarget(lines, items[k].arg.t);
      }
      if k + 1 < |items| && j + 1 < |Lower(st)| {
        NextInLine(lines, i, j, k);
      }
    }
  }

  lemma ItemStatement(lines: Lines, i: nat, j: nat) returns (st: Stmt)
    requires i < |lines| && j < |LineItems(lines[i])|
    ensures ParseLine(lines[i]) == Some(st) && LineItems(lines[i]) == Lower(st)
  {
    hide ParseLine, Lower;
    st := ParseLine(lines[i]).value;
  }

  lemma NextInLine(lines: Lines, i: nat, j: nat, k: nat)
    requires i < |lines| && j + 1 < |LineItems(lines[i])| && k == |ItemsTo(lines, i)| + j
    ensures k + 1 < |ProgramItems(lines)| && ProgramItems(lines)[k + 1] == LineItems(lines[i])[j + 1]
  {
    hide LineItems;
    ItemsPrefix(lines, i + 1, |lines|);
    assert ItemsTo(lines, i + 1)[k + 1] == LineItems(lines[i])[j + 1];
  }

  /** Such a program's code is closed. */
  lemma StructuredClosed(lines: Lines)
    requires StructuredProgram(lines)
    ensures Closed(Labels(lines), ProgramItems(lines))
  {
    hide ClosedAt, Labels, ItemsTo, Structured;
    forall k | 0 <= k < |ProgramItems(lines)|
      ensures ClosedAt(Labels(lines), ProgramItems(lines), k)
    {
      ItemClosed(lines, k);
    }
    NothingBefore(lines);
    assert StartsAt(ProgramItems(lines), 0, 256);
  }

  lemma NothingBefore(lines: Lines)
    ensures ItemsTo(lines, 0) == []
  {
  }

  /** Data makes no difference to it: while the code is in memory, so is the instruction at PC. */
  lemma IntactFetch(lines: Lines, s: State)
    requires Intact(lines, s.mem)
    ensures CodeIntact(Labels(lines), ProgramItems(lines), s)
  {
    hide Labels, ItemsTo, CodeAt, ItemBytes, SizeOf;
    var env, items := Labels(lines), ProgramItems(lines);
    forall k: nat | StartsAt(items, k, s.pc)
      ensures if k < |items| then CodeAt(s.mem, s.pc, ItemBytes(env, items[k])) else s.mem[s.pc] == HALT
    {
      if k < |items| {
        ItemInMemory(lines, k, s.mem);
      } else {
        assert items[..k] == items;
      }
    }
  }

  lemma ItemInMemory(lines: Lines, k: nat, mem: Memory)
    requires Intact(lines, mem) && k < |ProgramItems(lines)| && ProgramItems(lines)[k].Ins?
    ensures CodeAt(mem, 256 + SizeOf(ProgramItems(lines)[..k]), ItemBytes(Labels(lines), ProgramItems(lines)[k]))
  {
    hide Labels, ItemsTo, CodeAt, ItemBytes, SizeOf, LineItems, Encode, ParseLine, Lower, Executable, WellFormed;
    var i, j := ItemLine(lines, |lines|, k);
    var st := ItemStatement(lines, i, j);
    CodeStatement(st, j);
    assert LineHeld(lines, i, mem);
    ItemsBefore(lines, i, j, k);
    var env, here := Labels(lines), LineItems(lines[i]);
    var a, it, b := here[..j], here[j], here[j + 1..];
    assert here == a + ([it] + b) && WellFormed(it);
    EncodeConcat(env, a, [it] + b);
    EncodeConcat(env, [it], b);
    EncodeOne(env, it);
    EncodeConcat(env, ItemsTo(lines, i), a);
    CodeSplit(mem, AddressOf(lines, i), Encode(env, a), Encode(env, [it]) + Encode(env, b));
    CodeSplit(mem, AddressOf(lines, i) + |Encode(env, a)|, Encode(env, [it]), Encode(env, b));
  }

  lemma CodeStatement(st: Stmt, j: nat)
    requires j < |Lower(st)| && Lower(st)[j].Ins?
    ensures Executable(st)
  {
  }

  lemma ItemsBefore(lines: Lines, i: nat, j: nat, k: nat)
    requires i < |lines| && j < |LineItems(lines[i])| && k == |ItemsTo(lines, i)| + j
    requires k < |ProgramItems(lines)|
    ensures ProgramItems(lines)[..k] == ItemsTo(lines, i) + LineItems(lines[i])[..j]
  {
    hide LineItems;
    ItemsPrefix(lines, i + 1, |lines|);
    assert ProgramItems(lines)[..k] == ItemsTo(lines, i + 1)[..k];
  }

  /** Assembled and loaded, it never leaves its instruction boundaries, in any run that executes what
      was emitted and returns where its calls came from. */
  lemma ProgramStays(lines: Lines, n: nat, t: State)
    requires StructuredProgram(lines) && |OneShot(lines)| < 65536
    requires TrackedRun(Labels(lines), ProgramItems(lines), Loaded(lines), [], n, t)
    ensures Boundary(ProgramItems(lines), t.pc)
  {
    hide *;
    StructuredClosed(lines);
    ClosedStart(Labels(lines), ProgramItems(lines));
    LoadedIntact(lines);
    StartAddress(lines);
    RunStays(Labels(lines), ProgramItems(lines), Loaded(lines), [], n, t);
  }

  lemma ClosedStart(env: Env, items: seq<Item>)
    requires Closed(env, items)
    ensures Boundary(items, 256) && AllBoundaries(items, [])
  {
    hide ClosedAt, Boundary;
  }
}
