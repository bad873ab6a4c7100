/** The meaning of each statement of the assembly language, without opcodes: operands are
    places, addresses are numbers, and control is the address of the next line. Then the proof
    that the code a statement is lowered to does what the statement means. */
module Source {
  import opened Words
  import opened Isa
  import opened Machine
  import opened Encoding
  import opened Syntax
  import opened Lowering

  // ---------- operands ----------

  /** Where an operand is, and the state with the address registers as naming it leaves them. */
  datatype Located = Located(place: Place, state: State)

  /** Arithmetic on memory leaves the address in HL; LOAD, STORE and XCH do not. */
  function LocateDirect(kind: Kind, addr: Word, s: State): Located {
    Located(Cell(addr), if HasMemImm(kind) then s else SetHL(s, addr))
  }

  function LocateByHL(disp: Word, s: State): Located {
    var addr := ToWord(HLof(s) + disp);
    Located(Cell(addr), SetHL(s, addr))
  }

  function LocateByL(disp: Word, s: State): Located {
    var addr := ToByte(s.l + disp);
    Located(Cell(addr), s.(l := addr))
  }

  function Locate(env: Env, kind: Kind, o: Operand, s: State): Located {
    match o
    case Reg(m) => Located(PlaceOf(m, s), s)
    case Immediate(v) => Located(Value(ToByte(v)), s)
    case Memory(e) =>
      if e.base == Absolute then LocateDirect(kind, e.disp, s)
      else if e.base == ByHL then LocateByHL(e.disp, s)
      else LocateByL(e.disp, s)
    case Labelled(name, e) =>
      var w := Resolve(env, Lab(name, e.disp));
      if e.base == Absolute then LocateDirect(kind, w, s) else LocateByHL(w, s)
    case Local(d) => Located(Slot(ToByte(s.bp - 1 - d)), s)
  }

  // ---------- statements ----------

  /** LOAD and XCH of the number 0 leave the sign flag alone; any other LOAD sets it. */
  function LoadNumber(b: Byte, s: State): State {
    s.(acc := b, f := if b == 0 then s.f.(zf := true) else ZeroSign(s.f, b))
  }

  function UseMeaning(env: Env, kind: Kind, o: Operand, s: State): State
    requires UseDefined(env, kind, o, s)
  {
    if o.Immediate? && (kind.Load? || kind.Xch?) then LoadNumber(ToByte(o.v), s)
    else if o == Reg(HL) && kind.Unary? then PerformUnaryHL(kind.unary, s)
    else var at := Locate(env, kind, o, s); Perform(kind, at.place, at.state)
  }

  /** MIN with a number compares with its own opcode, 208, instead: its meaning is kept when that
      makes no difference. */
  predicate MinKept(acc: Byte, v: Byte) { v == 208 || (acc <= v && acc <= 208) }

  predicate UseDefined(env: Env, kind: Kind, o: Operand, s: State) {
    var at := Locate(env, kind, o, s);
    && Performs(kind, at.place, at.state)
    && (kind == Alu(MIN) && o.Immediate? ==> MinKept(s.acc, ToByte(o.v)))
  }

  function WideValueOf(o: Operand, s: State): Word {
    match o
    case Immediate(v) => ToWord(v)
    case Reg(m) => Get(PlaceOf(m, s), s)
    case _ => 0
  }

  function PushValue(o: Operand, s: State): Byte {
    match o
    case Immediate(v) => ToByte(v)
    case Reg(m) => PushedByte(m, s)
    case _ => 0
  }

  function PopMeaning(m: Mode, s: State): State {
    var v := Top(s);
    match m
    case FLAGS => DropByte(s).(f := ByteFlags(v))
    case BP => DropByte(s).(bp := v, f := ZeroSign(s.f, v))
    case _ => PerformPop(PlaceOf(m, s), s)
  }

  /** Statements that are executed, as opposed to data and definitions. */
  predicate Executable(st: Stmt) {
    !st.Bytes? && !st.Define? && !st.Constant? && !st.Blank?
  }

  function StmtSize(st: Stmt): nat { SizeOf(Lower(st)) }

  /** The executions of a statement that keep its meaning. A JEXT whose condition fails does not:
      the machine continues inside its operand. */
  predicate MeaningDefined(env: Env, st: Stmt, s: State) {
    && Legal(st) && Executable(st)
    && s.pc + StmtSize(st) < 65536
    && match st
       case Use(kind, o) => UseDefined(env, kind, o, s)
       case UseWide(fn, o) => WideDefined(fn, HLof(s), WideValueOf(o, s))
       case JumpExtTo(m, _) => HoldsExt(m, s.f)
       case _ => true
  }

  /** The state after the statement, executed at address `s.pc` under the given labels. */
  function Meaning(env: Env, st: Stmt, s: State): State
    requires MeaningDefined(env, st, s)
  {
    var next := s.pc + StmtSize(st);
    var t := s.(pc := next);
    match st
    case Plain(op) => Exec(op, s)
    case Use(kind, o) => UseMeaning(env, kind, o, s).(pc := next)
    case UseWide(fn, o) => PerformWide(fn, WideValueOf(o, s), t)
    case JumpTo(c, target) => if Holds(c, s.f) then s.(pc := Resolve(env, target)) else t
    case JumpExtTo(_, target) => s.(pc := Resolve(env, target))
    case PushOperand(o) => PerformPush(PushValue(o, s), t)
    case PopOperand(o) => PopMeaning(o.mode, t)
    case CallTo(name) => PushWord(next, s).(pc := Resolve(env, Lab(name, 0)))
    case Return => ExecRet(s, 0)
    case ReturnPop(n) => ExecRet(s, n)
    case EnterFrame(n) =>
      var u := PushByte(s.bp, t);
      u.(bp := u.sp, sp := ToByte(u.sp + n))
  }

  // ---------- code in memory ----------

  ghost predicate CodeAt(mem: Memory, a: nat, bytes: seq<Byte>) {
    && a + |bytes| <= 65536
    && forall i :: 0 <= i < |bytes| ==> mem[a + i] == bytes[i]
  }

  lemma CodeSplit(mem: Memory, a: nat, x: seq<Byte>, y: seq<Byte>)
    requires CodeAt(mem, a, x + y)
    ensures CodeAt(mem, a, x) && CodeAt(mem, a + |x|, y)
  {
    assert forall i :: 0 <= i < |x| ==> (x + y)[i] == x[i];
    assert forall i :: 0 <= i < |y| ==> (x + y)[|x| + i] == y[i];
  }

  /** What executing an instruction sees of its encoding. */
  lemma FetchItem(env: Env, it: Item, s: State)
    requires it.Ins? && WellFormed(it) && CodeAt(s.mem, s.pc, ItemBytes(env, it))
    requires s.pc + ItemSize(it) < 65536
    ensures s.mem[s.pc] == Opcode(it.op)
    ensures it.arg.ByteArg? ==> OperandByte(s, 0) == it.arg.b
    ensures it.arg.WordArg? ==> OperandWord(s) == Resolve(env, it.arg.t)
    ensures it.arg.MaskArg? ==> && OperandByte(s, 0) == it.arg.mask
                                && Join(OperandByte(s, 1), OperandByte(s, 2)) == Resolve(env, it.arg.t)
    ensures Fetches(s, Length(it.op))
  {
    hide Opcode, Resolve, TargetBytes, Join;
    if it.arg.WordArg? || it.arg.MaskArg? {
      TargetWord(env, it.arg.t);
    }
    var bs := ItemBytes(env, it);
    assert s.mem[s.pc + 0] == bs[0];
    if it.arg.ByteArg? {
      assert s.mem[s.pc + 1] == bs[1];
    } else if it.arg.WordArg? {
      assert s.mem[s.pc + 1] == bs[1] && s.mem[s.pc + 2] == bs[2];
    } else if it.arg.MaskArg? {
      assert s.mem[s.pc + 1] == bs[1] && s.mem[s.pc + 2] == bs[2] && s.mem[s.pc + 3] == bs[3];
    }
  }
}
