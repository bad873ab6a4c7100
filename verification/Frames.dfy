/** Call and frame discipline: well-bracketed traces of PUSH and POP, CALL and RET, ENTER and
    LEAVE restore the stack and frame pointers, return behind their calls, and leave the stack
    below them alone, although the 256-byte stack wraps around. */
module Frames {
  import opened Words
  import opened Isa
  import opened Machine
  import opened Syntax

  // ---------- traces ----------

  /** A stretch of execution by its nesting. A call drops the argument bytes below its return
      address; an argument is evaluated, pushed, and dropped by a call in the rest. A procedure
      is called, enters a frame with the given locals, leaves it, and returns. */
  datatype Trace =
    | Nothing
    | Quiet
    | FrameStore
    | Then(first: Trace, second: Trace)
    | Saved(body: Trace)
    | Argument(value: Trace, rest: Trace)
    | Called(dropped: Byte, body: Trace)
    | Framed(locals: Byte, body: Trace)
    | Procedure(dropped: Byte, locals: Byte, body: Trace)

  /** Bytes below the stack pointer at the start that the trace takes off. */
  function Drops(tr: Trace): int {
    match tr
    case Then(_, b) => Drops(b)
    case Argument(_, b) => Drops(b) - 1
    case Called(k, _) => k
    case Procedure(k, _, _) => k
    case _ => 0
  }

  predicate WellBracketed(tr: Trace) {
    match tr
    case Then(a, b) => WellBracketed(a) && WellBracketed(b) && Drops(a) == 0
    case Saved(b) => WellBracketed(b) && Drops(b) == 0
    case Argument(a, b) => WellBracketed(a) && WellBracketed(b) && Drops(a) == 0 && Drops(b) >= 1
    case Called(_, b) => WellBracketed(b) && Drops(b) == 0
    case Framed(_, b) => WellBracketed(b) && Drops(b) == 0
    case Procedure(_, _, b) => WellBracketed(b) && Drops(b) == 0
    case _ => true
  }

  function Max(a: int, b: int): int { if a < b then b else a }

  /** Bytes above the stack pointer at the start that the trace uses. */
  function Depth(tr: Trace): int {
    match tr
    case Nothing | Quiet | FrameStore => 0
    case Then(a, b) => Max(Depth(a), Depth(b))
    case Saved(b) => 1 + Depth(b)
    case Argument(a, b) => Max(Depth(a), 1 + Depth(b))
    case Called(_, b) => 2 + Depth(b)
    case Framed(n, b) => 1 + n + Depth(b)
    case Procedure(_, n, b) => 3 + n + Depth(b)
  }

  lemma {:induction false} DepthNat(tr: Trace)
    ensures Depth(tr) >= 0
    decreases tr
  {
    match tr
    case Then(a, _) => DepthNat(a);
    case Saved(b) => DepthNat(b);
    case Argument(a, _) => DepthNat(a);
    case Called(_, b) => DepthNat(b);
    case Framed(_, b) => DepthNat(b);
    case Procedure(_, _, b) => DepthNat(b);
    case _ =>
  }

  // ---------- following a trace ----------

  /** Leaves the stack, the stack pointer and the frame pointer alone. */
  predicate Harmless(op: Op) {
    match op
    case Do(kind, m) => m != Frame || kind.Load? || kind.Alu?
    case Push(_) | Pop(_) | Call | Ret | RetI | Enter | Leave | Reset => false
    case _ => true
  }

  /** Writes the stack byte its operand addresses. */
  predicate WritesFrame(op: Op) { op.Do? && op.mode == Frame && !Harmless(op) }

  /** The operand bytes of the frame's arguments and locals: j + 4 for the argument j from the
      last, 1 - i modulo 256 for local i. */
  predicate InFrame(b: Byte, args: nat, locals: nat) {
    4 <= b < 4 + args || (b == 0 && locals > 0) || 256 - locals < b
  }

  function Stepped(s: State, ok: bool): Option<State> {
    if ok && CanStep(s) then Some(Step(s)) else None
  }

  /** A return that drops k bytes. */
  predicate ReturnsDropping(s: State, k: nat) {
    (Current(s) == Ret && k == 0) || (Current(s) == RetI && OperandByte(s, 0) == k)
  }

  function Next(tr: Trace, r: Option<State>, args: nat, locals: nat): Option<State>
    decreases tr, 1
  {
    if r.None? then None else Follow(tr, r.value, args, locals)
  }

  /** The end of the trace if execution from s follows it, each step defined, with stores to the
      arguments and locals of the innermost frame only. */
  function Follow(tr: Trace, s: State, args: nat, locals: nat): Option<State>
    decreases tr, 0
  {
    match tr
    case Nothing => Some(s)
    case Quiet => Stepped(s, Harmless(Current(s)))
    case FrameStore => Stepped(s, WritesFrame(Current(s)) && InFrame(OperandByte(s, 0), args, locals))
    case Then(a, b) => Next(b, Follow(a, s, args, locals), args, locals)
    case Saved(b) => (
      match Next(b, Stepped(s, Current(s).Push?), args, locals)
      case None => None
      case Some(u) => Stepped(u, Current(u).Pop? && (Current(u) == Pop(BP) ==> Current(s) == Push(BP))))
    case Argument(a, b) => (
      match Follow(a, s, args, locals)
      case None => None
      case Some(u) => Next(b, Stepped(u, Current(u).Push?), args, locals))
    case Called(k, b) => (
      match Next(b, Stepped(s, Current(s) == Call), args, locals)
      case None => None
      case Some(u) => Stepped(u, ReturnsDropping(u, k)))
    case Framed(n, b) => (
      match Next(b, Stepped(s, Current(s) == Enter && OperandByte(s, 0) == n), 0, n)
      case None => None
      case Some(u) => Stepped(u, Current(u) == Leave))
    case Procedure(k, n, b) => (
      match Stepped(s, Current(s) == Call)
      case None => None
      case Some(e) => (
        match Next(b, Stepped(e, Current(e) == Enter && OperandByte(e, 0) == n), k, n)
        case None => None
        case Some(u) => (
          match Stepped(u, Current(u) == Leave)
          case None => None
          case Some(r) => Stepped(r, ReturnsDropping(r, k)))))
  }

  // ---------- positions ----------

  // A stack position is an integer, standing for the byte at its remainder modulo 256. Within
  // any 256 consecutive positions different positions stand for different bytes.

  function ByteAt(stack: Stack, x: int): Byte { stack[ToByte(x)] }

  function Set(stack: Stack, x: int, v: Byte): Stack { stack[ToByte(x) := v] }

  lemma SetAt(stack: Stack, x: int, v: Byte, y: int)
    requires -256 < x - y < 256
    ensures ByteAt(Set(stack, x, v), y) == if x == y then v else ByteAt(stack, y)
  {
  }

  /** The argument and local bytes of the frame at position b. */
  datatype Scope = Scope(b: int, args: nat, locals: nat)

  predicate InScope(sc: Scope, x: int) {
    sc.b - 3 - sc.args <= x < sc.b - 3 || sc.b <= x < sc.b + sc.locals
  }

  /** Nothing from lo up to hi changes, besides the frame's arguments and locals. */
  ghost predicate Unchanged(before: Stack, after: Stack, lo: int, hi: int, sc: Scope) {
    forall x :: lo <= x < hi && !InScope(sc, x) ==> ByteAt(after, x) == ByteAt(before, x)
  }

  /** The trace has room above position lo, and the frame lies between lo and the trace. */
  predicate Fits(tr: Trace, z: int, lo: int, sc: Scope) {
    && WellBracketed(tr)
    && lo <= z - Drops(tr) && z + Depth(tr) <= lo + 256
    && (sc.args > 0 ==> lo <= sc.b - 3 - sc.args)
    && (sc.locals > 0 ==> lo <= sc.b)
    && (sc.args + sc.locals > 0 ==> sc.b + sc.locals <= z - Drops(tr))
  }

  predicate Stands(s: State, z: int, sc: Scope) { s.sp == ToByte(z) && s.bp == ToByte(sc.b) }

  // ---------- single steps ----------

  lemma QuietStep(s: State)
    requires CanStep(s) && Harmless(Current(s))
    ensures var t := Step(s); t.stack == s.stack && t.sp == s.sp && t.bp == s.bp
  {
    hide *;
    StepIs(s);
    QuietExec(Current(s), s);
  }

  lemma QuietExec(op: Op, s: State)
    requires Exists(op) && Defined(op, s) && Harmless(op)
    ensures var t := Exec(op, s); t.stack == s.stack && t.sp == s.sp && t.bp == s.bp
  {
    if op.Do? {
      hide *;
      QuietDo(op.kind, op.mode, s);
    } else {
      hide AluResult, AluDefined, WideValue, WideDefined, WideOperand, Holds, HoldsExt, OperandWord, Fetches,
           UnaryWord, UnaryWordFlags, High, Low;
    }
  }

  lemma QuietDo(kind: Kind, m: Mode, s: State)
    requires Exists(Do(kind, m)) && Defined(Do(kind, m), s) && Harmless(Do(kind, m))
    ensures var t := Exec(Do(kind, m), s); t.stack == s.stack && t.sp == s.sp && t.bp == s.bp
  {
    hide AluResult, AluDefined, UnaryValue, UnaryFlags, DoFetches, OperandWord, OperandByte, ZeroSign;
  }

  lemma StoreStep(s: State) returns (v: Byte)
    requires CanStep(s) && WritesFrame(Current(s))
    ensures var t := Step(s); t.stack == Set(s.stack, s.bp - OperandByte(s, 0), v) && t.sp == s.sp && t.bp == s.bp
  {
    hide *;
    StepIs(s);
    v := StoreExec(Current(s), s);
  }

  lemma StoreExec(op: Op, s: State) returns (v: Byte)
    requires Exists(op) && Defined(op, s) && WritesFrame(op)
    ensures var t := Exec(op, s);
            t.stack == Set(s.stack, s.bp - OperandByte(s, 0), v) && t.sp == s.sp && t.bp == s.bp
  {
    hide UnaryValue, UnaryFlags, DoFetches, OperandByte, ZeroSign;
    v := Exec(op, s).stack[ToByte(s.bp - OperandByte(s, 0))];
  }

  lemma PushStep(s: State) returns (v: Byte)
    requires CanStep(s) && Current(s).Push?
    ensures var t := Step(s); t.stack == Set(s.stack, s.sp, v) && t.sp == ToByte(s.sp + 1) && t.bp == s.bp
    ensures Current(s) == Push(BP) ==> v == s.bp
  {
    hide *;
    StepIs(s);
    v := PushExec(Current(s), s);
  }

  lemma PushExec(op: Op, s: State) returns (v: Byte)
    requires Exists(op) && Defined(op, s) && op.Push?
    ensures var t := Exec(op, s); t.stack == Set(s.stack, s.sp, v) && t.sp == ToByte(s.sp + 1) && t.bp == s.bp
    ensures op == Push(BP) ==> v == s.bp
  {
    hide FlagsByte, PlaceOf, ZeroSign, Get;
    v := PushedByte(op.pushed, s);
  }

  lemma PopStep(s: State)
    requires CanStep(s) && Current(s).Pop?
    ensures var t := Step(s); t.stack == s.stack && t.sp == ToByte(s.sp - 1)
    ensures Step(s).bp == if Current(s) == Pop(BP) then ByteAt(s.stack, s.sp - 1) else s.bp
  {
    hide *;
    StepIs(s);
    PopExec(Current(s), s);
  }

  lemma PopExec(op: Op, s: State)
    requires Exists(op) && Defined(op, s) && op.Pop?
    ensures var t := Exec(op, s); t.stack == s.stack && t.sp == ToByte(s.sp - 1)
    ensures Exec(op, s).bp == if op == Pop(BP) then ByteAt(s.stack, s.sp - 1) else s.bp
  {
    hide ByteFlags, OperandWord, OperandByte, ZeroSign, Fetches;
  }

  lemma CallStep(s: State)
    requires CanStep(s) && Current(s) == Call
    ensures var t, w := Step(s), ToWord(s.pc + 3);
            && t.stack == Set(Set(s.stack, s.sp, High(w)), s.sp + 1, Low(w))
            && t.sp == ToByte(s.sp + 2) && t.bp == s.bp
  {
    hide *;
    StepIs(s);
    CallExec(s);
    PushedWord(ToWord(s.pc + 3), s);
  }

  lemma CallExec(s: State)
    requires Exists(Call) && Defined(Call, s)
    ensures Exec(Call, s) == PushWord(ToWord(s.pc + 3), s).(pc := OperandWord(s))
  {
    hide PushWord, OperandWord, Fetches, ToWord;
  }

  lemma PushedWord(w: Word, s: State)
    ensures var t := PushWord(w, s);
            && t.stack == Set(Set(s.stack, s.sp, High(w)), s.sp + 1, Low(w))
            && t.sp == ToByte(s.sp + 2) && t.bp == s.bp
  {
    hide High, Low;
  }

  lemma ReturnStep(s: State, k: Byte)
    requires CanStep(s) && ReturnsDropping(s, k)
    ensures var t := Step(s);
            && t.stack == s.stack && t.sp == ToByte(s.sp - 2 - k) && t.bp == s.bp
            && t.pc == Join(ByteAt(s.stack, s.sp - 2), ByteAt(s.stack, s.sp - 1))
  {
    hide *;
    StepIs(s);
    ReturnExec(Current(s), s, k);
    WhichReturn(s, k);
  }

  lemma WhichReturn(s: State, k: Byte)
    requires ReturnsDropping(s, k)
    ensures (Current(s) == Ret && k == 0) || (Current(s) == RetI && OperandByte(s, 0) == k)
  {
    hide Current;
  }

  lemma ReturnExec(op: Op, s: State, k: Byte)
    requires Exists(op) && Defined(op, s)
    ensures (op == Ret && k == 0) || (op == RetI && OperandByte(s, 0) == k) ==>
              var t := Exec(op, s);
              && t.stack == s.stack && t.sp == ToByte(s.sp - 2 - k) && t.bp == s.bp
              && t.pc == Join(ByteAt(s.stack, s.sp - 2), ByteAt(s.stack, s.sp - 1))
  {
    if op == Ret || op == RetI {
      hide Join;
    } else {
      hide *;
    }
  }

  lemma EnterStep(s: State)
    requires CanStep(s) && Current(s) == Enter
    ensures var t := Step(s);
            && t.stack == Set(s.stack, s.sp, s.bp)
            && t.bp == ToByte(s.sp + 1) && t.sp == ToByte(s.sp + 1 + OperandByte(s, 0))
  {
    hide *;
    StepIs(s);
    EnterExec(s);
  }

  lemma EnterExec(s: State)
    requires Exists(Enter) && Defined(Enter, s)
    ensures var t := Exec(Enter, s);
            && t.stack == Set(s.stack, s.sp, s.bp)
            && t.bp == ToByte(s.sp + 1) && t.sp == ToByte(s.sp + 1 + OperandByte(s, 0))
  {
    hide Fetches;
  }

  lemma LeaveStep(s: State)
    requires CanStep(s) && Current(s) == Leave
    ensures var t := Step(s); t.stack == s.stack && t.sp == ToByte(s.bp - 1) && t.bp == ByteAt(s.stack, s.bp - 1)
  {
    hide *;
    StepIs(s);
    LeaveExec(s);
  }

  lemma LeaveExec(s: State)
    requires Exists(Leave) && Defined(Leave, s)
    ensures var t := Exec(Leave, s);
            t.stack == s.stack && t.sp == ToByte(s.bp - 1) && t.bp == ByteAt(s.stack, s.bp - 1)
  {
  }

  // ---------- where calls return ----------

  predicate EndsAt(r: Option<State>, w: Word) { r.Some? && r.value.pc == w }

  predicate LandsFrom(tr: Trace, r: Option<State>, args: nat, locals: nat)
    decreases tr, 1
  {
    r.Some? && Lands(tr, r.value, args, locals)
  }

  /** Every return in the trace lands on the instruction behind its call. */
  predicate Lands(tr: Trace, s: State, args: nat, locals: nat)
    decreases tr, 0
  {
    match tr
    case Then(a, b) => Lands(a, s, args, locals) && LandsFrom(b, Follow(a, s, args, locals), args, locals)
    case Saved(b) => LandsFrom(b, Stepped(s, true), args, locals)
    case Argument(a, b) =>
      && Lands(a, s, args, locals)
      && Follow(a, s, args, locals).Some?
      && LandsFrom(b, Stepped(Follow(a, s, args, locals).value, true), args, locals)
    case Called(_, b) =>
      LandsFrom(b, Stepped(s, true), args, locals) && EndsAt(Follow(tr, s, args, locals), ToWord(s.pc + 3))
    case Framed(n, b) => LandsFrom(b, Stepped(s, true), 0, n)
    case Procedure(k, n, b) =>
      && Stepped(s, true).Some?
      && LandsFrom(b, Stepped(Stepped(s, true).value, true), k, n)
      && EndsAt(Follow(tr, s, args, locals), ToWord(s.pc + 3))
    case _ => true
  }

  // ---------- taking a trace apart ----------

  lemma ThenParts(a: Trace, b: Trace, s: State, args: nat, locals: nat) returns (u: State)
    requires Follow(Then(a, b), s, args, locals).Some?
    ensures Follow(a, s, args, locals) == Some(u)
    ensures Follow(b, u, args, locals) == Follow(Then(a, b), s, args, locals)
    ensures Lands(a, s, args, locals) && Lands(b, u, args, locals) ==> Lands(Then(a, b), s, args, locals)
  {
    u := Follow(a, s, args, locals).value;
  }

  lemma SavedParts(b: Trace, s: State, args: nat, locals: nat) returns (u: State)
    requires Follow(Saved(b), s, args, locals).Some?
    ensures CanStep(s) && Current(s).Push? && Follow(b, Step(s), args, locals) == Some(u)
    ensures CanStep(u) && Current(u).Pop? && (Current(u) == Pop(BP) ==> Current(s) == Push(BP))
    ensures Follow(Saved(b), s, args, locals) == Some(Step(u))
    ensures Lands(b, Step(s), args, locals) ==> Lands(Saved(b), s, args, locals)
  {
    hide CanStep, Step, Current;
    u := Follow(b, Step(s), args, locals).value;
  }

  lemma ArgumentParts(a: Trace, b: Trace, s: State, args: nat, locals: nat) returns (u: State)
    requires Follow(Argument(a, b), s, args, locals).Some?
    ensures Follow(a, s, args, locals) == Some(u) && CanStep(u) && Current(u).Push?
    ensures Follow(b, Step(u), args, locals) == Follow(Argument(a, b), s, args, locals)
    ensures Lands(a, s, args, locals) && Lands(b, Step(u), args, locals) ==> Lands(Argument(a, b), s, args, locals)
  {
    hide CanStep, Step, Current;
    u := Follow(a, s, args, locals).value;
  }

  lemma CalledParts(k: Byte, b: Trace, s: State, args: nat, locals: nat) returns (u: State)
    requires Follow(Called(k, b), s, args, locals).Some?
    ensures CanStep(s) && Current(s) == Call && Follow(b, Step(s), args, locals) == Some(u)
    ensures CanStep(u) && ReturnsDropping(u, k) && Follow(Called(k, b), s, args, locals) == Some(Step(u))
    ensures Lands(b, Step(s), args, locals) && Step(u).pc == ToWord(s.pc + 3) ==> Lands(Called(k, b), s, args, locals)
  {
    hide CanStep, Step, Current, ReturnsDropping;
    u := Follow(b, Step(s), args, locals).value;
  }

  lemma FramedParts(n: Byte, b: Trace, s: State, args: nat, locals: nat) returns (u: State)
    requires Follow(Framed(n, b), s, args, locals).Some?
    ensures CanStep(s) && Current(s) == Enter && OperandByte(s, 0) == n
    ensures Follow(b, Step(s), 0, n) == Some(u) && CanStep(u) && Current(u) == Leave
    ensures Follow(Framed(n, b), s, args, locals) == Some(Step(u))
    ensures Lands(b, Step(s), 0, n) ==> Lands(Framed(n, b), s, args, locals)
  {
    hide CanStep, Step, Current, OperandByte;
    u := Follow(b, Step(s), 0, n).value;
  }

  lemma ProcedureParts(k: Byte, n: Byte, b: Trace, s: State, args: nat, locals: nat)
    returns (e: State, u: State, r: State)
    requires Follow(Procedure(k, n, b), s, args, locals).Some?
    ensures CanStep(s) && Current(s) == Call && e == Step(s)
    ensures CanStep(e) && Current(e) == Enter && OperandByte(e, 0) == n
    ensures Follow(b, Step(e), k, n) == Some(u)
    ensures CanStep(u) && Current(u) == Leave && r == Step(u)
    ensures CanStep(r) && ReturnsDropping(r, k) && Follow(Procedure(k, n, b), s, args, locals) == Some(Step(r))
    ensures Lands(b, Step(e), k, n) && Step(r).pc == ToWord(s.pc + 3)
        ==> Lands(Procedure(k, n, b), s, args, locals)
  {
    hide CanStep, Step, Current, OperandByte, ReturnsDropping;
    e := Step(s);
    u := Follow(b, Step(e), k, n).value;
    r := Step(u);
  }

  // ---------- unchanged bytes ----------

  lemma UnchangedTrans(a: Stack, b: Stack, c: Stack, lo: int, hi: int, hi': int, sc: Scope)
    requires Unchanged(a, b, lo, hi, sc) && Unchanged(b, c, lo, hi', sc) && hi <= hi'
    ensures Unchanged(a, c, lo, hi, sc)
  {
    hide InScope, ByteAt;
  }

  lemma SetUnchanged(stack: Stack, y: int, v: Byte, lo: int, hi: int, sc: Scope)
    requires hi <= y < lo + 256
    ensures Unchanged(stack, Set(stack, y, v), lo, hi, sc)
  {
    hide InScope, Set, ByteAt;
    forall x | lo <= x < hi
      ensures ByteAt(Set(stack, y, v), x) == ByteAt(stack, x)
    {
      SetAt(stack, y, v, x);
    }
  }

  lemma OtherScope(a: Stack, b: Stack, lo: int, hi: int, hi': int, sc: Scope, sc': Scope)
    requires Unchanged(a, b, lo, hi', sc) && hi <= hi'
    requires forall x :: lo <= x < hi ==> !InScope(sc, x)
    ensures Unchanged(a, b, lo, hi, sc')
  {
    hide ByteAt;
  }

  lemma Same(stack: Stack, p: int, q: int, v: Byte)
    requires ToByte(p) == ToByte(q)
    ensures Set(stack, p, v) == Set(stack, q, v) && ByteAt(stack, p) == ByteAt(stack, q)
  {
  }

  lemma Shift(p: int, z: int, d: int)
    requires p == ToByte(z)
    ensures ToByte(p + d) == ToByte(z + d)
  {
    hide ToByte;
    WrapSum(z, d);
  }

  // ---------- the discipline, construct by construct ----------

  /** What a trace leaves behind: the stack pointer less what it drops, the same frame pointer, the
      bytes below, and every call returned from. */
  predicate Balanced(tr: Trace, s: State, z: int, sc: Scope, t: State) {
    t.sp == ToByte(z - Drops(tr)) && t.bp == s.bp && Lands(tr, s, sc.args, sc.locals)
  }

  ghost predicate Restores(tr: Trace, s: State, z: int, lo: int, sc: Scope, t: State) {
    Balanced(tr, s, z, sc, t) && Unchanged(s.stack, t.stack, lo, z - Drops(tr), sc)
  }

  lemma PushAt(s: State, z: int, sc: Scope) returns (v: Byte)
    requires Stands(s, z, sc) && CanStep(s) && Current(s).Push?
    ensures Step(s).stack == Set(s.stack, z, v) && Stands(Step(s), z + 1, sc) && Step(s).bp == s.bp
    ensures Current(s) == Push(BP) ==> v == s.bp
  {
    hide CanStep, Step, Current, ToByte, Set;
    v := PushStep(s);
    Shift(s.sp, z, 0);
    Shift(s.sp, z, 1);
    Same(s.stack, s.sp, z, v);
  }

  lemma QuietKeeps(s: State, z: int, lo: int, sc: Scope)
    requires Stands(s, z, sc) && Follow(Quiet, s, sc.args, sc.locals).Some?
    ensures Restores(Quiet, s, z, lo, sc, Follow(Quiet, s, sc.args, sc.locals).value)
  {
    hide CanStep, Step, Current, Harmless, ToByte, InScope, ByteAt;
    QuietStep(s);
  }

  /** The position a permitted store writes. */
  lemma StorePosition(b: Byte, sc: Scope) returns (x: int)
    requires InFrame(b, sc.args, sc.locals)
    ensures InScope(sc, x) && ToByte(sc.b - b) == ToByte(x)
    ensures sc.b - 3 - sc.args <= x < sc.b - 3 || (sc.locals > 0 && sc.b <= x < sc.b + sc.locals)
  {
    if 4 <= b < 4 + sc.args || b == 0 {
      x := sc.b - b;
    } else {
      x := sc.b + 256 - b;
      WholeTurns(sc.b - b, 1);
    }
  }

  lemma StoreKeeps(s: State, z: int, lo: int, sc: Scope)
    requires Fits(FrameStore, z, lo, sc) && Stands(s, z, sc) && Follow(FrameStore, s, sc.args, sc.locals).Some?
    ensures Restores(FrameStore, s, z, lo, sc, Follow(FrameStore, s, sc.args, sc.locals).value)
  {
    hide CanStep, Step, Current, WritesFrame, ToByte, InScope, ByteAt, OperandByte, Set, InFrame;
    var v := StoreStep(s);
    var b := OperandByte(s, 0);
    Shift(s.bp, sc.b, -(b as int));
    var x := StorePosition(b, sc);
    Same(s.stack, s.bp - b, x, v);
    StoreInScope(s.stack, x, v, z, lo, sc);
  }

  lemma StoreInScope(stack: Stack, x: int, v: Byte, z: int, lo: int, sc: Scope)
    requires InScope(sc, x) && Fits(FrameStore, z, lo, sc)
    requires sc.b - 3 - sc.args <= x < sc.b - 3 || (sc.locals > 0 && sc.b <= x < sc.b + sc.locals)
    ensures Unchanged(stack, Set(stack, x, v), lo, z, sc)
  {
    hide Set, ByteAt, InScope;
    forall y | lo <= y < z && !InScope(sc, y)
      ensures ByteAt(Set(stack, x, v), y) == ByteAt(stack, y)
    {
      SetAt(stack, x, v, y);
    }
  }

  lemma {:induction false} DropsNat(tr: Trace)
    requires WellBracketed(tr)
    ensures Drops(tr) >= 0
    decreases tr
  {
    match tr
    case Then(_, b) => DropsNat(b);
    case _ =>
  }

  lemma ThenFits(a: Trace, b: Trace, z: int, lo: int, sc: Scope)
    requires Fits(Then(a, b), z, lo, sc)
    ensures Fits(a, z, lo, sc) && Fits(b, z, lo, sc) && Drops(a) == 0 && Drops(Then(a, b)) == Drops(b)
  {
    DropsNat(b);
  }

  lemma ThenKeeps(a: Trace, b: Trace, s: State, u: State, t: State, z: int, lo: int, sc: Scope)
    requires Fits(Then(a, b), z, lo, sc) && Stands(s, z, sc)
    requires Restores(a, s, z, lo, sc, u) && Restores(b, u, z, lo, sc, t)
    requires Lands(Then(a, b), s, sc.args, sc.locals)
    ensures Restores(Then(a, b), s, z, lo, sc, t)
  {
    hide Lands, Unchanged, Depth, WellBracketed, ToByte;
    ThenFits(a, b, z, lo, sc);
    DropsNat(b);
    Narrower(s.stack, u.stack, lo, z - Drops(b), z, sc);
    UnchangedTrans(s.stack, u.stack, t.stack, lo, z - Drops(b), z - Drops(b), sc);
  }

  lemma Narrower(a: Stack, b: Stack, lo: int, hi: int, hi': int, sc: Scope)
    requires Unchanged(a, b, lo, hi', sc) && hi <= hi'
    ensures Unchanged(a, b, lo, hi, sc)
  {
    hide InScope, ByteAt;
  }

  /** A body that started on the given stack, with the stack pointer at y, has been followed. */
  ghost predicate Continues(s: State, stack: Stack, u: State, b: Trace, y: int, lo: int, sc: Scope) {
    u.sp == ToByte(y - Drops(b)) && u.bp == s.bp && Unchanged(stack, u.stack, lo, y - Drops(b), sc)
  }

  lemma SavedFits(b: Trace, z: int, lo: int, sc: Scope)
    requires Fits(Saved(b), z, lo, sc)
    ensures Fits(b, z + 1, lo, sc) && Drops(b) == 0 && !InScope(sc, z) && lo <= z < lo + 256
  {
    DepthNat(b);
  }

  lemma SavedKeeps(b: Trace, s: State, u: State, t: State, v: Byte, z: int, lo: int, sc: Scope)
    requires Fits(Saved(b), z, lo, sc) && Stands(s, z, sc)
    requires Continues(s, Set(s.stack, z, v), u, b, z + 1, lo, sc)
    requires t.stack == u.stack && t.sp == ToByte(u.sp - 1) && Lands(Saved(b), s, sc.args, sc.locals)
    requires t.bp == s.bp || (t.bp == ByteAt(u.stack, u.sp - 1) && v == s.bp)
    ensures Restores(Saved(b), s, z, lo, sc, t)
  {
    hide Lands, ToByte, Depth, WellBracketed, ByteAt, Set, InScope;
    SavedFits(b, z, lo, sc);
    Shift(u.sp, z + 1, -1);
    Same(u.stack, u.sp - 1, z, v);
    SetAt(s.stack, z, v, z);
    SetUnchanged(s.stack, z, v, lo, z, sc);
    UnchangedTrans(s.stack, Set(s.stack, z, v), u.stack, lo, z, z + 1, sc);
  }

  lemma ArgumentFits(a: Trace, b: Trace, z: int, lo: int, sc: Scope)
    requires Fits(Argument(a, b), z, lo, sc)
    ensures Fits(a, z, lo, sc) && Fits(b, z + 1, lo, sc) && Drops(a) == 0 && Drops(Argument(a, b)) == Drops(b) - 1 >= 0
    ensures lo <= z < lo + 256
  {
    DepthNat(b);
  }

  lemma ArgumentKeeps(a: Trace, b: Trace, s: State, u: State, t: State, v: Byte, z: int, lo: int, sc: Scope)
    requires Fits(Argument(a, b), z, lo, sc) && Stands(s, z, sc)
    requires Restores(a, s, z, lo, sc, u)
    requires Continues(s, Set(u.stack, z, v), t, b, z + 1, lo, sc)
    requires Lands(Argument(a, b), s, sc.args, sc.locals)
    ensures Restores(Argument(a, b), s, z, lo, sc, t)
  {
    hide Lands, ToByte, Depth, WellBracketed, ByteAt, Set, InScope, Unchanged;
    ArgumentFits(a, b, z, lo, sc);
    var hi := z + 1 - Drops(b);
    Narrower(s.stack, u.stack, lo, hi, z, sc);
    SetUnchanged(u.stack, z, v, lo, hi, sc);
    UnchangedTrans(s.stack, u.stack, Set(u.stack, z, v), lo, hi, hi, sc);
    UnchangedTrans(s.stack, Set(u.stack, z, v), t.stack, lo, hi, hi, sc);
  }

  lemma CallAt(s: State, z: int, sc: Scope)
    requires Stands(s, z, sc) && CanStep(s) && Current(s) == Call
    ensures var w := ToWord(s.pc + 3); Step(s).stack == Set(Set(s.stack, z, High(w)), z + 1, Low(w))
    ensures Stands(Step(s), z + 2, sc) && Step(s).bp == s.bp
  {
    hide CanStep, Step, Current, ToByte, Set, High, Low, ToWord;
    var w := ToWord(s.pc + 3);
    CallStep(s);
    Shift(s.sp, z, 0);
    Shift(s.sp, z, 1);
    Shift(s.sp, z, 2);
    Same(s.stack, s.sp, z, High(w));
    Same(Set(s.stack, z, High(w)), s.sp + 1, z + 1, Low(w));
  }

  lemma ReturnAt(s: State, z: int, k: Byte, w: Word)
    requires s.sp == ToByte(z + 2) && CanStep(s) && ReturnsDropping(s, k)
    requires ByteAt(s.stack, z) == High(w) && ByteAt(s.stack, z + 1) == Low(w)
    ensures var t := Step(s); t.stack == s.stack && t.sp == ToByte(z - k) && t.bp == s.bp && t.pc == w
  {
    hide CanStep, Step, Current, ToByte, ByteAt, ReturnsDropping;
    ReturnStep(s, k);
    Shift(s.sp, z + 2, -2 - k);
    Shift(s.sp, z + 2, -2);
    Shift(s.sp, z + 2, -1);
    Same(s.stack, s.sp - 2, z, 0);
    Same(s.stack, s.sp - 1, z + 1, 0);
  }

  lemma CalledFits(k: Byte, b: Trace, z: int, lo: int, sc: Scope)
    requires Fits(Called(k, b), z, lo, sc)
    ensures Fits(b, z + 2, lo, sc) && Drops(b) == 0 && lo <= z - k && z + 2 <= lo + 256
    ensures !InScope(sc, z) && !InScope(sc, z + 1)
  {
    DepthNat(b);
  }

  /** Two bytes pushed below a body are still there after it. */
  lemma TwoKept(stack: Stack, z: int, a: Byte, b: Byte, after: Stack, lo: int, hi: int, sc: Scope)
    requires lo <= hi <= z && z + 2 <= lo + 256 && !InScope(sc, z) && !InScope(sc, z + 1)
    requires Unchanged(Set(Set(stack, z, a), z + 1, b), after, lo, z + 2, sc)
    ensures ByteAt(after, z) == a && ByteAt(after, z + 1) == b
    ensures Unchanged(stack, after, lo, hi, sc)
  {
    hide InScope, Set, ByteAt;
    var m := Set(stack, z, a);
    var m' := Set(m, z + 1, b);
    SetAt(stack, z, a, z);
    SetAt(m, z + 1, b, z);
    SetAt(m, z + 1, b, z + 1);
    SetUnchanged(stack, z, a, lo, hi, sc);
    SetUnchanged(m, z + 1, b, lo, hi, sc);
    UnchangedTrans(stack, m, m', lo, hi, hi, sc);
    UnchangedTrans(stack, m', after, lo, hi, z + 2, sc);
  }

  lemma CalledKeeps(k: Byte, b: Trace, s: State, u: State, z: int, lo: int, sc: Scope)
    requires Fits(Called(k, b), z, lo, sc) && Stands(s, z, sc) && CanStep(s) && Current(s) == Call
    requires Restores(b, Step(s), z + 2, lo, sc, u) && CanStep(u) && ReturnsDropping(u, k)
    ensures Step(u).pc == ToWord(s.pc + 3)
    ensures Lands(Called(k, b), s, sc.args, sc.locals) ==> Restores(Called(k, b), s, z, lo, sc, Step(u))
  {
    hide Lands, ToByte, Depth, WellBracketed, ByteAt, Set, InScope, Unchanged, CanStep, Step, Current, ReturnsDropping,
         High, Low, ToWord;
    CalledFits(k, b, z, lo, sc);
    CallAt(s, z, sc);
    var w := ToWord(s.pc + 3);
    TwoKept(s.stack, z, High(w), Low(w), u.stack, lo, z - k, sc);
    ReturnAt(u, z, k, w);
  }

  lemma EnterAt(s: State, z: int, sc: Scope)
    requires Stands(s, z, sc) && CanStep(s) && Current(s) == Enter
    ensures var n, t := OperandByte(s, 0), Step(s);
            && t.stack == Set(s.stack, z, s.bp)
            && t.bp == ToByte(z + 1) && t.sp == ToByte(z + 1 + n)
  {
    hide CanStep, Step, Current, ToByte, Set, OperandByte;
    EnterStep(s);
    Shift(s.sp, z, 0);
    Shift(s.sp, z, 1);
    Shift(s.sp, z, 1 + OperandByte(s, 0));
    Same(s.stack, s.sp, z, s.bp);
  }

  lemma LeaveAt(s: State, z: int, v: Byte)
    requires s.bp == ToByte(z + 1) && CanStep(s) && Current(s) == Leave && ByteAt(s.stack, z) == v
    ensures var t := Step(s); t.stack == s.stack && t.sp == ToByte(z) && t.bp == v
  {
    hide CanStep, Step, Current, ToByte, ByteAt;
    LeaveStep(s);
    Shift(s.bp, z + 1, -1);
    Same(s.stack, s.bp - 1, z, 0);
  }

  lemma FramedFits(n: Byte, b: Trace, z: int, lo: int, sc: Scope)
    requires Fits(Framed(n, b), z, lo, sc)
    ensures Fits(b, z + 1 + n, lo, Scope(z + 1, 0, n)) && Drops(b) == 0
    ensures lo <= z && z + 1 + n <= lo + 256 && !InScope(Scope(z + 1, 0, n), z)
    ensures var sc' := Scope(z + 1, 0, n); forall x :: lo <= x < z ==> !InScope(sc', x)
  {
    DepthNat(b);
  }

  lemma FramedKeeps(n: Byte, b: Trace, s: State, u: State, z: int, lo: int, sc: Scope)
    requires Fits(Framed(n, b), z, lo, sc) && Stands(s, z, sc)
    requires CanStep(s) && Current(s) == Enter && OperandByte(s, 0) == n
    requires Restores(b, Step(s), z + 1 + n, lo, Scope(z + 1, 0, n), u) && CanStep(u) && Current(u) == Leave
    requires Lands(Framed(n, b), s, sc.args, sc.locals)
    ensures Restores(Framed(n, b), s, z, lo, sc, Step(u))
  {
    hide Lands, ToByte, Depth, WellBracketed, ByteAt, Set, InScope, Unchanged, CanStep, Step, Current, OperandByte;
    var sc' := Scope(z + 1, 0, n);
    FramedFits(n, b, z, lo, sc);
    EnterAt(s, z, sc);
    OneKept(s.stack, z, s.bp, u.stack, lo, z + 1 + n, sc');
    LeaveAt(u, z, s.bp);
    OtherScope(s.stack, u.stack, lo, z, z, sc', sc);
  }

  lemma OneKept(stack: Stack, z: int, a: Byte, after: Stack, lo: int, hi: int, sc: Scope)
    requires lo <= z < hi && hi <= lo + 256 && !InScope(sc, z)
    requires Unchanged(Set(stack, z, a), after, lo, hi, sc)
    ensures ByteAt(after, z) == a && Unchanged(stack, after, lo, z, sc)
  {
    hide InScope, Set, ByteAt;
    SetAt(stack, z, a, z);
    SetUnchanged(stack, z, a, lo, z, sc);
    UnchangedTrans(stack, Set(stack, z, a), after, lo, z, hi, sc);
  }

  lemma ProcedureFits(k: Byte, n: Byte, b: Trace, z: int, lo: int, sc: Scope)
    requires Fits(Procedure(k, n, b), z, lo, sc)
    ensures Fits(b, z + 3 + n, lo, Scope(z + 3, k, n)) && Drops(b) == 0
    ensures lo <= z - k && z + 3 + n <= lo + 256
    ensures var sc' := Scope(z + 3, k, n);
            && !InScope(sc', z) && !InScope(sc', z + 1) && !InScope(sc', z + 2)
            && forall x :: lo <= x < z - k ==> !InScope(sc', x)
  {
    DepthNat(b);
  }

  lemma ProcedureKeeps(k: Byte, n: Byte, b: Trace, s: State, e: State, u: State, r: State,
                       z: int, lo: int, sc: Scope)
    requires Fits(Procedure(k, n, b), z, lo, sc) && Stands(s, z, sc)
    requires CanStep(s) && Current(s) == Call && e == Step(s)
    requires CanStep(e) && Current(e) == Enter && OperandByte(e, 0) == n
    requires Restores(b, Step(e), z + 3 + n, lo, Scope(z + 3, k, n), u)
    requires CanStep(u) && Current(u) == Leave && r == Step(u) && CanStep(r) && ReturnsDropping(r, k)
    ensures Step(r).pc == ToWord(s.pc + 3)
    ensures Lands(Procedure(k, n, b), s, sc.args, sc.locals)
        ==> Restores(Procedure(k, n, b), s, z, lo, sc, Step(r))
  {
    hide Lands, ToByte, Depth, WellBracketed, ByteAt, Set, InScope, Unchanged, CanStep, Step, Current, OperandByte,
         ReturnsDropping, High, Low, ToWord;
    var sc', w := Scope(z + 3, k, n), ToWord(s.pc + 3);
    ProcedureFits(k, n, b, z, lo, sc);
    CallAt(s, z, sc);
    EnterAt(e, z + 2, sc);
    OneKept(e.stack, z + 2, s.bp, u.stack, lo, z + 3 + n, sc');
    TwoKept(s.stack, z, High(w), Low(w), u.stack, lo, z - k, sc');
    LeaveAt(u, z + 2, s.bp);
    ReturnAt(r, z, k, w);
    OtherScope(s.stack, u.stack, lo, z - k, z - k, sc', sc);
  }

  // ---------- the discipline ----------

  /** Call and frame discipline at any nesting: a well-bracketed trace that fits the 256-byte stack
      restores the stack pointer less the argument bytes it drops, restores the frame pointer,
      returns behind every call, and leaves every byte below unchanged, apart from stores to the
      arguments and locals of the frame it runs in. */
  lemma {:induction false} Discipline(tr: Trace, s: State, z: int, lo: int, sc: Scope) returns (t: State)
    requires Fits(tr, z, lo, sc) && Stands(s, z, sc) && Follow(tr, s, sc.args, sc.locals).Some?
    ensures Follow(tr, s, sc.args, sc.locals) == Some(t)
    ensures Restores(tr, s, z, lo, sc, t)
    decreases tr
  {
    hide *;
    t := Follow(tr, s, sc.args, sc.locals).value;
    match tr
    case Nothing => NothingKeeps(s, z, lo, sc);
    case Quiet => QuietKeeps(s, z, lo, sc);
    case FrameStore => StoreKeeps(s, z, lo, sc);
    case Then(a, b) =>
      ThenFits(a, b, z, lo, sc);
      var u := ThenParts(a, b, s, sc.args, sc.locals);
      var u' := Discipline(a, s, z, lo, sc);
      RestoresParts(a, s, z, lo, sc, u);
      StandsAgain(s, u, z, z, sc);
      var t' := Discipline(b, u, z, lo, sc);
      RestoresParts(b, u, z, lo, sc, t);
      ThenKeeps(a, b, s, u, t, z, lo, sc);
    case Saved(b) =>
      SavedFits(b, z, lo, sc);
      var u := SavedParts(b, s, sc.args, sc.locals);
      var v := PushAt(s, z, sc);
      var u' := Discipline(b, Step(s), z + 1, lo, sc);
      RestoresParts(b, Step(s), z + 1, lo, sc, u);
      PopStep(u);
      SavedBody(b, s, u, v, z, lo, sc);
      SavedKeeps(b, s, u, t, v, z, lo, sc);
    case Argument(a, b) =>
      ArgumentFits(a, b, z, lo, sc);
      var u := ArgumentParts(a, b, s, sc.args, sc.locals);
      var u' := Discipline(a, s, z, lo, sc);
      RestoresParts(a, s, z, lo, sc, u);
      StandsAgain(s, u, z, z, sc);
      var v := PushAt(u, z, sc);
      var t' := Discipline(b, Step(u), z + 1, lo, sc);
      RestoresParts(b, Step(u), z + 1, lo, sc, t);
      ArgumentBody(b, s, u, t, v, z, lo, sc);
      ArgumentKeeps(a, b, s, u, t, v, z, lo, sc);
    case Called(k, b) =>
      CalledFits(k, b, z, lo, sc);
      var u := CalledParts(k, b, s, sc.args, sc.locals);
      CallAt(s, z, sc);
      var u' := Discipline(b, Step(s), z + 2, lo, sc);
      RestoresParts(b, Step(s), z + 2, lo, sc, u);
      CalledKeeps(k, b, s, u, z, lo, sc);
    case Framed(n, b) =>
      FramedFits(n, b, z, lo, sc);
      var u := FramedParts(n, b, s, sc.args, sc.locals);
      EnterAt(s, z, sc);
      InNewFrame(Step(s), z + 1, 0, n);
      var u' := Discipline(b, Step(s), z + 1 + n, lo, Scope(z + 1, 0, n));
      RestoresParts(b, Step(s), z + 1 + n, lo, Scope(z + 1, 0, n), u);
      FramedKeeps(n, b, s, u, z, lo, sc);
    case Procedure(k, n, b) =>
      ProcedureFits(k, n, b, z, lo, sc);
      var e, u, r := ProcedureParts(k, n, b, s, sc.args, sc.locals);
      CallAt(s, z, sc);
      EnterAt(e, z + 2, sc);
      InNewFrame(Step(e), z + 3, k, n);
      var u' := Discipline(b, Step(e), z + 3 + n, lo, Scope(z + 3, k, n));
      RestoresParts(b, Step(e), z + 3 + n, lo, Scope(z + 3, k, n), u);
      ProcedureKeeps(k, n, b, s, e, u, r, z, lo, sc);
  }

  lemma NothingKeeps(s: State, z: int, lo: int, sc: Scope)
    requires Stands(s, z, sc)
    ensures Follow(Nothing, s, sc.args, sc.locals) == Some(s) && Restores(Nothing, s, z, lo, sc, s)
  {
    hide ToByte, InScope, ByteAt;
  }

  lemma RestoresParts(tr: Trace, s: State, z: int, lo: int, sc: Scope, t: State)
    requires Restores(tr, s, z, lo, sc, t)
    ensures t.bp == s.bp && Lands(tr, s, sc.args, sc.locals)
    ensures Drops(tr) == 0 ==> t.sp == ToByte(z)
  {
    hide Lands, Unchanged, ToByte, Drops;
  }

  lemma StandsAgain(s: State, t: State, z: int, y: int, sc: Scope)
    requires Stands(s, z, sc) && t.bp == s.bp && t.sp == ToByte(y)
    ensures Stands(t, y, sc)
  {
    hide ToByte;
  }

  lemma InNewFrame(s: State, b: int, args: nat, n: Byte)
    requires s.bp == ToByte(b) && s.sp == ToByte(b + n)
    ensures Stands(s, b + n, Scope(b, args, n))
  {
    hide ToByte;
  }

  lemma SavedBody(b: Trace, s: State, u: State, v: Byte, z: int, lo: int, sc: Scope)
    requires CanStep(s) && Step(s).stack == Set(s.stack, z, v) && Step(s).bp == s.bp
    requires Restores(b, Step(s), z + 1, lo, sc, u)
    ensures Continues(s, Set(s.stack, z, v), u, b, z + 1, lo, sc)
  {
    hide Lands, Unchanged, ToByte, Drops, Step, CanStep, Set;
  }

  lemma ArgumentBody(b: Trace, s: State, u: State, t: State, v: Byte, z: int, lo: int, sc: Scope)
    requires CanStep(u) && Step(u).stack == Set(u.stack, z, v) && Step(u).bp == u.bp && u.bp == s.bp
    requires Restores(b, Step(u), z + 1, lo, sc, t)
    ensures Continues(s, Set(u.stack, z, v), t, b, z + 1, lo, sc)
  {
    hide Lands, Unchanged, ToByte, Drops, Step, CanStep, Set;
  }

  /** For a trace outside any frame: the stack pointer and the frame pointer are restored, and of
      the 256 bytes only the first Depth above the stack pointer can have changed. */
  lemma WholeTrace(tr: Trace, s: State) returns (t: State)
    requires WellBracketed(tr) && Drops(tr) == 0 && Depth(tr) <= 256 && Follow(tr, s, 0, 0).Some?
    ensures Follow(tr, s, 0, 0) == Some(t) && t.sp == s.sp && t.bp == s.bp && Lands(tr, s, 0, 0)
    ensures forall i :: 0 <= i < 256 && ToByte(i - s.sp) >= Depth(tr) ==> t.stack[i] == s.stack[i]
  {
    hide Follow, Lands, Depth, WellBracketed, Drops, ToByte, Unchanged, InScope;
    var sc := Scope(s.bp, 0, 0);
    DepthNat(tr);
    BytesThemselves(s.sp);
    BytesThemselves(s.bp);
    t := Discipline(tr, s, s.sp, s.sp + Depth(tr) - 256, sc);
    forall i | 0 <= i < 256 && ToByte(i - s.sp) >= Depth(tr)
      ensures t.stack[i] == s.stack[i]
    {
      Below(s, t, i, Depth(tr), sc);
    }
  }

  lemma Below(s: State, t: State, i: nat, depth: nat, sc: Scope)
    requires i < 256 && sc.args == sc.locals == 0 && ToByte(i - s.sp) >= depth
    requires Unchanged(s.stack, t.stack, s.sp + depth - 256, s.sp, sc)
    ensures t.stack[i] == s.stack[i]
  {
    var x := s.sp + ToByte(i - s.sp) - 256;
    assert ToByte(x) == i;
    assert ByteAt(t.stack, x) == ByteAt(s.stack, x);
  }

  /** A trace that is followed is a run of the machine. */
  lemma {:induction false} TraceRuns(tr: Trace, s: State, args: nat, locals: nat) returns (n: nat)
    requires Follow(tr, s, args, locals).Some?
    ensures Run(s, n, Follow(tr, s, args, locals).value)
    decreases tr
  {
    hide *;
    match tr
    case Nothing => n := 0; RunsNowhere(s, args, locals);
    case Quiet => n := 1; RunsOne(tr, s, args, locals);
    case FrameStore => n := 1; RunsOne(tr, s, args, locals);
    case Then(a, b) =>
      var u := ThenParts(a, b, s, args, locals);
      var m := TraceRuns(a, s, args, locals);
      var k := TraceRuns(b, u, args, locals);
      n := m + k;
      RunsCompose(s, m, u, k, Follow(b, u, args, locals).value);
    case Saved(b) =>
      var u := SavedParts(b, s, args, locals);
      var m := TraceRuns(b, Step(s), args, locals);
      n := Around(s, m, u);
    case Argument(a, b) =>
      var u := ArgumentParts(a, b, s, args, locals);
      var m := TraceRuns(a, s, args, locals);
      var k := TraceRuns(b, Step(u), args, locals);
      n := m + 1 + k;
      RunExtends(s, m, u);
      RunsCompose(s, m + 1, Step(u), k, Follow(b, Step(u), args, locals).value);
    case Called(k, b) =>
      var u := CalledParts(k, b, s, args, locals);
      var m := TraceRuns(b, Step(s), args, locals);
      n := Around(s, m, u);
    case Framed(k, b) =>
      var u := FramedParts(k, b, s, args, locals);
      var m := TraceRuns(b, Step(s), 0, k);
      n := Around(s, m, u);
    case Procedure(k, l, b) =>
      var e, u, r := ProcedureParts(k, l, b, s, args, locals);
      var m := TraceRuns(b, Step(e), k, l);
      var i := Around(e, m, u);
      n := Around(s, i, r);
  }

  lemma RunsNowhere(s: State, args: nat, locals: nat)
    ensures Follow(Nothing, s, args, locals) == Some(s) && Run(s, 0, s)
  {
  }

  lemma RunsOne(tr: Trace, s: State, args: nat, locals: nat)
    requires (tr.Quiet? || tr.FrameStore?) && Follow(tr, s, args, locals).Some?
    ensures Run(s, 1, Follow(tr, s, args, locals).value)
  {
    hide CanStep, Step, Harmless, WritesFrame, InFrame, Current, OperandByte;
    assert Run(Step(s), 0, Step(s));
  }

  /** One step before and one after a run. */
  lemma Around(s: State, m: nat, u: State) returns (n: nat)
    requires CanStep(s) && Run(Step(s), m, u) && CanStep(u)
    ensures Run(s, n, Step(u))
  {
    hide CanStep, Step;
    RunExtends(Step(s), m, u);
    n := m + 2;
  }
}
