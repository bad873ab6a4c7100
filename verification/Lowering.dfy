/** The code each statement is lowered to, and the layout of whole programs. */
module Lowering {
  import opened Words
  import opened Isa
  import opened Encoding
  import opened Syntax

  /** LOAD, STORE and XCH have variants that address memory directly. */
  predicate HasMemImm(kind: Kind) { kind.Load? || kind.Store? || kind.Xch? }

  function One(op: Op, arg: Arg): seq<Item> { [Ins(op, arg)] }

  /** Memory at an address known up to labels. Without a direct variant the address goes
      through HL. */
  function LowerDirect(kind: Kind, t: Target): seq<Item> {
    if HasMemImm(kind) then One(Do(kind, MemImm), WordArg(t))
    else [Ins(LoadHLI, WordArg(t)), Ins(Do(kind, MemHL), NoArg)]
  }

  function LowerMemory(kind: Kind, e: MemExpr): seq<Item> {
    match e.base
    case Absolute => LowerDirect(kind, Abs(e.disp))
    case ByHL =>
      if e.disp == 0 then One(Do(kind, MemHL), NoArg)
      else [Ins(AddHLI, WordArg(Abs(e.disp))), Ins(Do(kind, MemHL), NoArg)]
    case ByL =>
      if e.disp == 0 then One(Do(kind, MemL), NoArg)
      else [Ins(AddLI, ByteArg(Low(e.disp))), Ins(Do(kind, MemL), NoArg)]
    case ByBP => []
  }

  /** An indexed label is patched even when its displacement is zero. */
  function LowerLabelled(kind: Kind, name: string, e: MemExpr): seq<Item> {
    match e.base
    case Absolute => LowerDirect(kind, Lab(name, e.disp))
    case ByHL => [Ins(AddHLI, WordArg(Lab(name, e.disp))), Ins(Do(kind, MemHL), NoArg)]
    case ByL | ByBP => []
  }

  /** LOAD 0 and XCH 0 become CLRA; XCH with a number is a load. */
  function LowerImmediate(kind: Kind, b: Byte): seq<Item> {
    if kind.Load? || kind.Xch? then
      if b == 0 then One(Clra, NoArg) else One(Do(Load, Imm), ByteArg(b))
    else One(Do(kind, Imm), ByteArg(b))
  }

  function LowerUse(kind: Kind, o: Operand): seq<Item> {
    match o
    case Reg(m) => if m == HL then (if kind.Unary? then One(UnaryHL(kind.unary), NoArg) else [])
                   else One(Do(kind, m), NoArg)
    case Immediate(v) => LowerImmediate(kind, ToByte(v))
    case Memory(e) => LowerMemory(kind, e)
    case Labelled(name, e) => LowerLabelled(kind, name, e)
    case Local(d) => One(Do(kind, Frame), ByteArg(ToByte(d + 1)))
  }

  function RawItems(bs: seq<Byte>): (items: seq<Item>)
    ensures |items| == |bs|
  {
    seq(|bs|, i requires 0 <= i < |bs| => Raw(bs[i]))
  }

  function Lower(st: Stmt): seq<Item> {
    match st
    case Plain(op) => One(op, NoArg)
    case Use(kind, o) => LowerUse(kind, o)
    case UseWide(fn, o) =>
      if o.Immediate? then One(Wide(fn, Imm), WordArg(Abs(ToWord(o.v))))
      else if o.Reg? then One(Wide(fn, o.mode), NoArg) else []
    case JumpTo(c, t) => One(Jump(c), WordArg(t))
    case JumpExtTo(m, t) => One(JumpExt, MaskArg(m, t))
    case PushOperand(o) =>
      if o.Immediate? then One(Push(Imm), ByteArg(ToByte(o.v)))
      else if o.Reg? then One(Push(o.mode), NoArg) else []
    case PopOperand(o) => if o.Reg? then One(Pop(o.mode), NoArg) else []
    case CallTo(name) => One(Call, WordArg(Lab(name, 0)))
    case Return => One(Ret, NoArg)
    case ReturnPop(n) => One(RetI, ByteArg(n))
    case EnterFrame(n) => One(Enter, ByteArg(n))
    case Bytes(bs) => RawItems(bs)
    case Define(_) | Constant(_, _) | Blank => []
  }

  /** Accepted statements lower to instructions that exist, with operands of the right size. */
  lemma LowerWellFormed(st: Stmt)
    requires Legal(st)
    ensures AllWellFormed(Lower(st))
  {
    match st
    case Use(kind, o) => LowerUseWellFormed(kind, o);
    case _ =>
  }

  lemma LowerUseWellFormed(kind: Kind, o: Operand)
    requires Accepts(kind, o)
    ensures AllWellFormed(LowerUse(kind, o))
  {
  }

  // ---------- programs ----------

  /** What a line emits: nothing where the assembler reports an error. */
  function LineItems(line: seq<Token>): (items: seq<Item>)
    ensures AllWellFormed(items)
  {
    match ParseLine(line)
    case None => []
    case Some(st) => LowerWellFormed(st); Lower(st)
  }

  /** The code of the first n lines. */
  function ItemsTo(lines: seq<seq<Token>>, n: nat): (items: seq<Item>)
    requires n <= |lines|
    ensures AllWellFormed(items)
  {
    if n == 0 then [] else ItemsTo(lines, n - 1) + LineItems(lines[n - 1])
  }

  function ProgramItems(lines: seq<seq<Token>>): (items: seq<Item>)
    ensures AllWellFormed(items)
  {
    ItemsTo(lines, |lines|)
  }

  /** The address of line n: one page plus the sizes of all lines before it. */
  function AddressOf(lines: seq<seq<Token>>, n: nat): nat
    requires n <= |lines|
  {
    256 + SizeOf(ItemsTo(lines, n))
  }

  /** A line's effect on the label table when it is emitted at the given index: a label that is
      already there keeps its value. */
  function Bind(env: Env, line: seq<Token>, here: nat): Env {
    match ParseLine(line)
    case Some(Define(name)) => if name in env then env else env[name := here]
    case Some(Constant(name, v)) => if name in env then env else env[name := v]
    case _ => env
  }

  /** The label table after the first n lines. */
  function LabelsTo(lines: seq<seq<Token>>, n: nat): Env
    requires n <= |lines|
  {
    if n == 0 then map[] else Bind(LabelsTo(lines, n - 1), lines[n - 1], AddressOf(lines, n - 1))
  }

  /** The environment a program is assembled under. */
  function Labels(lines: seq<seq<Token>>): Env { LabelsTo(lines, |lines|) }

  /** The executable: a page of zeros, every line's bytes, and a final HALT. */
  function OneShot(lines: seq<seq<Token>>): seq<Byte> {
    Zeros(256) + Encode(Labels(lines), ProgramItems(lines)) + [HALT]
  }

  /** What pass 1 emits: the same with placeholders. */
  function PassOne(lines: seq<seq<Token>>): seq<Byte> {
    Zeros(256) + Encode(map[], ProgramItems(lines)) + [HALT]
  }

  /** The references pass 1 records. */
  function Recorded(lines: seq<seq<Token>>): seq<Ref> { Refs(ProgramItems(lines), 256) }

  // ---------- what the environment says ----------

  /** The value line i gives a label, if it defines it: its own address, or a constant. */
  function Defines(lines: seq<seq<Token>>, i: nat, name: string): Option<nat>
    requires i < |lines|
  {
    match ParseLine(lines[i])
    case Some(Define(n)) => if n == name then Some(AddressOf(lines, i)) else None
    case Some(Constant(n, v)) => if n == name then Some(v) else None
    case _ => None
  }

  /** A label has the value its first defining line gives it, and a label no line defines has
      none: i is the first defining line, or n if there is none. */
  lemma {:induction false} LabelsMeaning(lines: seq<seq<Token>>, n: nat, name: string) returns (i: nat)
    requires n <= |lines|
    ensures i <= n && forall j :: 0 <= j < i ==> Defines(lines, j, name) == None
    ensures i == n ==> name !in LabelsTo(lines, n)
    ensures i < n ==> && name in LabelsTo(lines, n)
                      && Defines(lines, i, name) == Some(LabelsTo(lines, n)[name])
  {
    hide *;
    i := 0;
    if n == 0 {
      NoLabelsYet(lines);
    } else {
      i := LabelsMeaning(lines, n - 1, name);
      BindDefines(lines, n - 1, name);
      if i == n - 1 && Defines(lines, n - 1, name) == None {
        i := n;
      }
    }
  }

  lemma NoLabelsYet(lines: seq<seq<Token>>)
    ensures LabelsTo(lines, 0) == map[]
  {
  }

  lemma BindDefines(lines: seq<seq<Token>>, i: nat, name: string)
    requires i < |lines|
    ensures var env, env', d := LabelsTo(lines, i), LabelsTo(lines, i + 1), Defines(lines, i, name);
            && (name in env' <==> name in env || d.Some?)
            && (name in env ==> env'[name] == env[name])
            && (name !in env && d.Some? ==> env'[name] == d.value)
  {
    hide ParseLine, AddressOf;
  }
}
