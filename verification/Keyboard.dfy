/** The keyboard protocol: `write_input` on the render thread fills the ring buffer that
    `get_keyboard` of programs/keyboard.casm drains on the CPU thread. Single accesses of the
    producer and single CPU instructions interleave in any order. */
module Keyboard {
  import opened Words
  import opened Isa
  import opened Machine
  import opened RingBuffer

  // ---------- the routine ----------

  const KEY_SIZE := 31

  /** Byte k of get_keyboard assembled at address g. */
  function KeyByte(g: Word, k: nat): Byte
    requires g + 31 < 65536
  {
    match k
    case 0 => Opcode(Do(Load, MemImm)) case 1 => High(READ_IDX) case 2 => Low(READ_IDX)
    case 3 => Opcode(LoadHLI) case 4 => High(WRITE_IDX) case 5 => Low(WRITE_IDX)
    case 6 => Opcode(Do(Alu(CMP), MemHL))
    case 7 => Opcode(Jump(IfZero)) case 8 => High(g + 29) case 9 => Low(g + 29)
    case 10 => Opcode(Do(Store, L))
    case 11 => Opcode(Clra)
    case 12 => Opcode(Do(Store, H))
    case 13 => Opcode(AddHLI) case 14 => High(RINGBUF) case 15 => Low(RINGBUF)
    case 16 => Opcode(Do(Load, MemHL))
    case 17 => Opcode(Push(Acc))
    case 18 => Opcode(Do(Load, MemImm)) case 19 => High(READ_IDX) case 20 => Low(READ_IDX)
    case 21 => Opcode(Do(Unary(INC), Acc))
    case 22 => Opcode(Do(Alu(AND), Imm)) case 23 => 15
    case 24 => Opcode(Do(Store, MemImm)) case 25 => High(READ_IDX) case 26 => Low(READ_IDX)
    case 27 => Opcode(Pop(Acc))
    case 28 => Opcode(Ret)
    // buf_empty
    case 29 => Opcode(Clra)
    case _ => Opcode(Ret)
  }

  /** The routine lies clear of the ring buffer and of the end of memory. */
  predicate Placed(g: Word) { g + KEY_SIZE <= WRITE_IDX || (FRAME_BUFFER <= g && g + KEY_SIZE < 65536) }

  ghost predicate KeyCode(mem: Memory, g: Word) {
    Placed(g) && forall k :: 0 <= k < KEY_SIZE ==> mem[g + k] == KeyByte(g, k)
  }

  predicate Inside(g: Word, pc: Word) { g <= pc < g + KEY_SIZE }

  // ---------- the producer ----------

  /** Where a call of `write_input` stands. */
  datatype Producer = Idle | Checking(key: Byte) | Writing(key: Byte) | Publishing(key: Byte)

  predicate Full(mem: Memory) { Next(mem[WRITE_IDX]) == mem[READ_IDX] }

  function Next(i: Byte): Byte { ((i as int) + 1) % 16 }

  function WriteSlot(mem: Memory, key: Byte): Memory { mem[RINGBUF + mem[WRITE_IDX] := key] }

  function Publish(mem: Memory): Memory { mem[WRITE_IDX := Next(mem[WRITE_IDX])] }

  // ---------- the system ----------

  /** The routine's caller: where to return and the stack pointer at entry. */
  datatype Caller = Caller(ret: Word, sp: Byte)

  /** The keys that entered the buffer, that were dropped, and that `get_keyboard` returned. */
  datatype System = System(cpu: State, producer: Producer, caller: Caller,
                           accepted: seq<Byte>, dropped: seq<Byte>, returned: seq<Byte>)

  /** A key press starts a call of `write_input`, whose three accesses follow; an instruction of the
      routine; or anything the rest of the program does. */
  datatype Action = Press(key: Byte) | Check | Fill | Release | Instruction | Client(after: State)

  /** The rest of the program leaves the buffer and the routine's code alone and enters the routine
      at its first instruction only, with a return address outside it. */
  ghost predicate ClientMay(g: Word, s: State, t: State) {
    && !Inside(g, s.pc) && KeyCode(t.mem, g)
    && (forall a :: WRITE_IDX <= a < FRAME_BUFFER ==> t.mem[a] == s.mem[a])
    && (Inside(g, t.pc) ==> t.pc == g && !Inside(g, TopWord(t)))
  }

  ghost predicate Enabled(g: Word, y: System, a: Action) {
    match a
    case Press(_) => y.producer.Idle?
    case Check => y.producer.Checking?
    case Fill => y.producer.Writing?
    case Release => y.producer.Publishing?
    case Instruction => Inside(g, y.cpu.pc) && CanStep(y.cpu)
    case Client(t) => ClientMay(g, y.cpu, t)
  }

  function WithMem(y: System, mem: Memory): System { y.(cpu := y.cpu.(mem := mem)) }

  function Apply(g: Word, y: System, a: Action): System
    requires Enabled(g, y, a)
  {
    match a
    case Press(k) => y.(producer := Checking(k))
    case Check =>
      if Full(y.cpu.mem) then y.(producer := Idle, dropped := y.dropped + [y.producer.key])
      else y.(producer := Writing(y.producer.key))
    case Fill => WithMem(y, WriteSlot(y.cpu.mem, y.producer.key)).(producer := Publishing(y.producer.key))
    case Release =>
      WithMem(y, Publish(y.cpu.mem)).(producer := Idle, accepted := y.accepted + [y.producer.key])
    case Instruction =>
      y.(cpu := Step(y.cpu),
         returned := if y.cpu.pc == g + 28 then y.returned + [y.cpu.acc] else y.returned)
    case Client(t) => y.(cpu := t, caller := Caller(TopWord(t), t.sp))
  }

  ghost predicate Runs(g: Word, y: System, actions: seq<Action>, z: System)
    decreases |actions|
  {
    if actions == [] then y == z
    else Enabled(g, y, actions[0]) && Runs(g, Apply(g, y, actions[0]), actions[1..], z)
  }

  // ---------- the invariant ----------

  /** What the routine knows at each of its instructions, with read index r and queue q. */
  predicate Knows(o: int, s: State, r: Byte, q: seq<Byte>) {
    match o
    case 0 => true
    case 3 => s.acc == r
    case 6 => s.acc == r && HLof(s) == WRITE_IDX
    case 7 => s.acc == r && (!s.f.zf ==> q != [])
    case 10 => s.acc == r && q != []
    case 11 => s.l == r && q != []
    case 12 => s.l == r && q != [] && s.acc == 0
    case 13 => s.l == r && q != [] && s.h == 0
    case 16 => HLof(s) == RINGBUF + r && q != []
    case 17 => q != [] && s.acc == q[0]
    case 18 => q != [] && Top(s) == q[0]
    case 21 => q != [] && Top(s) == q[0] && s.acc == r
    case 22 => q != [] && Top(s) == q[0] && s.acc == r + 1
    case 24 => q != [] && Top(s) == q[0] && s.acc == Next(r)
    case 27 | 28 | 29 => true
    case 30 => s.acc == 0
    case _ => false
  }

  /** The key taken from the buffer and not yet returned. */
  function Held(o: int, s: State): seq<Byte> {
    if o == 27 then [Top(s)] else if o == 28 then [s.acc] else []
  }

  /** The return address is where the call put it, below the saved key if there is one. */
  predicate Returnable(o: int, s: State, c: Caller) {
    && s.sp == ToByte(c.sp + (if 18 <= o <= 27 then 1 else 0))
    && Join(s.stack[ToByte(c.sp - 2)], s.stack[ToByte(c.sp - 1)]) == c.ret
  }

  predicate InRoutine(g: Word, s: State, c: Caller, q: seq<Byte>) {
    Inside(g, s.pc) ==>
      && !Inside(g, c.ret)
      && Knows(s.pc - g, s, s.mem[READ_IDX], q)
      && Returnable(s.pc - g, s, c)
  }

  /** The keys in transit in the routine. */
  function InHand(g: Word, s: State): seq<Byte> { Held(s.pc - g, s) }

  predicate ProducerOk(p: Producer, mem: Memory, q: seq<Byte>) {
    && (p.Writing? || p.Publishing? ==> |q| < 15)
    && (p.Publishing? ==> mem[RINGBUF + mem[WRITE_IDX]] == p.key)
  }

  ghost predicate Inv(g: Word, y: System) {
    var q := Queue(y.cpu.mem);
    && KeyCode(y.cpu.mem, g) && RingOk(y.cpu.mem)
    && ProducerOk(y.producer, y.cpu.mem, q)
    && InRoutine(g, y.cpu, y.caller, q)
    && y.accepted == y.returned + InHand(g, y.cpu) + q
  }

  // ---------- the producer's steps ----------

  /** The queue keeping or growing at its end does not disturb the routine. */
  lemma KnowsMore(o: int, s: State, t: State, r: Byte, q: seq<Byte>, q': seq<Byte>)
    requires Knows(o, s, r, q) && t == s.(mem := t.mem)
    requires |q| <= |q'| && q'[..|q|] == q
    ensures Knows(o, t, r, q') && Held(o, t) == Held(o, s)
  {
    assert q != [] ==> q'[0] == q[0];
  }

  lemma CodeKept(g: Word, mem: Memory, mem': Memory)
    requires KeyCode(mem, g)
    requires forall a :: 0 <= a < 65536 && !(WRITE_IDX <= a < FRAME_BUFFER) ==> mem'[a] == mem[a]
    ensures KeyCode(mem', g)
  {
    hide KeyByte;
  }

  // ---------- the routine's steps ----------

  ghost predicate AtKey(g: Word, s: State, k: nat) { k < KEY_SIZE && KeyCode(s.mem, g) && s.pc == g + k }

  lemma KeyBytes(g: Word, s: State, k: nat)
    requires AtKey(g, s, k)
    ensures g + KEY_SIZE < 65536
    ensures s.mem[s.pc] == KeyByte(g, k)
    ensures k + 1 < KEY_SIZE ==> OperandByte(s, 0) == KeyByte(g, k + 1)
    ensures k + 2 < KEY_SIZE ==> OperandByte(s, 1) == KeyByte(g, k + 2)
  {
    hide KeyByte;
  }

  /** Registers other than those an instruction is about. */
  predicate SameStack(s: State, t: State) { t.sp == s.sp && t.bp == s.bp && t.stack == s.stack }

  lemma LoadCell(g: Word, s: State, k: nat, a: Word) returns (t: State)
    requires AtKey(g, s, k) && k + 2 < KEY_SIZE && KeyByte(g, k) == Opcode(Do(Load, MemImm))
    requires KeyByte(g, k + 1) == High(a) && KeyByte(g, k + 2) == Low(a)
    ensures CanStep(s) && t == Step(s)
    ensures t.pc == g + k + 3 && t.acc == s.mem[a] && t.mem == s.mem && SameStack(s, t)
    ensures t.h == s.h && t.l == s.l
  {
    hide KeyByte, Opcode, KeyCode, CanStep, Step, OperandWord, Exec, Defined;
    KeyBytes(g, s, k);
    WordOperand(s, a);
    ExecLoadCell(s, g + k + 3);
    t := Exec(Do(Load, MemImm), s);
    StepExec(s, Do(Load, MemImm));
  }

  lemma ExecLoadCell(s: State, next: Word)
    requires s.pc + 3 == next
    ensures Defined(Do(Load, MemImm), s)
    ensures var t := Exec(Do(Load, MemImm), s);
            && t.pc == next && t.acc == s.mem[OperandWord(s)] && t.mem == s.mem && SameStack(s, t)
            && t.h == s.h && t.l == s.l
  {
    hide OperandWord, ZeroSign;
  }

  lemma StoreCell(g: Word, s: State, k: nat, a: Word) returns (t: State)
    requires AtKey(g, s, k) && k + 2 < KEY_SIZE && KeyByte(g, k) == Opcode(Do(Store, MemImm))
    requires KeyByte(g, k + 1) == High(a) && KeyByte(g, k + 2) == Low(a)
    ensures CanStep(s) && t == Step(s)
    ensures t.pc == g + k + 3 && t.mem == s.mem[a := s.acc] && SameStack(s, t) && t.acc == s.acc
  {
    hide KeyByte, Opcode, KeyCode, CanStep, Step, ZeroSign;
    KeyBytes(g, s, k);
    t := Exec(Do(Store, MemImm), s);
    StepExec(s, Do(Store, MemImm));
  }

  lemma PairLoad(g: Word, s: State, k: nat, a: Word) returns (t: State)
    requires AtKey(g, s, k) && k + 2 < KEY_SIZE && KeyByte(g, k) == Opcode(LoadHLI)
    requires KeyByte(g, k + 1) == High(a) && KeyByte(g, k + 2) == Low(a)
    ensures CanStep(s) && t == Step(s)
    ensures t.pc == g + k + 3 && HLof(t) == a && t.mem == s.mem && SameStack(s, t) && t.acc == s.acc
  {
    hide KeyByte, Opcode, KeyCode, CanStep, Step, HLof, OperandWord, Exec, Defined;
    KeyBytes(g, s, k);
    WordOperand(s, a);
    ExecPairLoad(s, g + k + 3);
    t := Exec(LoadHLI, s);
    StepExec(s, LoadHLI);
  }

  lemma ExecPairLoad(s: State, next: Word)
    requires s.pc + 3 == next
    ensures Defined(LoadHLI, s)
    ensures var t := Exec(LoadHLI, s);
            t.pc == next && HLof(t) == OperandWord(s) && t.mem == s.mem && SameStack(s, t) && t.acc == s.acc
  {
    hide HLof, SetHL, OperandWord;
    PairSet(Advance(s, 3), OperandWord(s));
  }

  lemma PairAdd(g: Word, s: State, k: nat, a: Word) returns (t: State)
    requires AtKey(g, s, k) && k + 2 < KEY_SIZE && KeyByte(g, k) == Opcode(AddHLI)
    requires KeyByte(g, k + 1) == High(a) && KeyByte(g, k + 2) == Low(a)
    ensures CanStep(s) && t == Step(s)
    ensures t.pc == g + k + 3 && HLof(t) == ToWord(HLof(s) + a) && t.mem == s.mem && SameStack(s, t)
  {
    hide KeyByte, Opcode, KeyCode, CanStep, Step, HLof, SetHL, ToWord, OperandWord, Exec;
    KeyBytes(g, s, k);
    WordOperand(s, a);
    ExecPairAdd(s, g + k + 3);
    t := Exec(AddHLI, s);
    StepExec(s, AddHLI);
  }

  lemma WordOperand(s: State, a: Word)
    requires OperandByte(s, 0) == High(a) && OperandByte(s, 1) == Low(a)
    ensures OperandWord(s) == a
  {
  }

  lemma ExecPairAdd(s: State, next: Word)
    requires s.pc + 3 == next
    ensures Defined(AddHLI, s)
    ensures var t := Exec(AddHLI, s);
            && t.pc == next && HLof(t) == ToWord(HLof(s) + OperandWord(s)) && t.mem == s.mem && SameStack(s, t)
  {
    hide HLof, SetHL, OperandWord;
    PairSet(Advance(s, 3), ToWord(HLof(s) + OperandWord(s)));
  }

  lemma PairSet(s: State, w: Word)
    ensures var t := SetHL(s, w);
            HLof(t) == w && t.pc == s.pc && t.mem == s.mem && SameStack(s, t) && t.acc == s.acc
  {
  }

  lemma CompareCell(g: Word, s: State, k: nat) returns (t: State)
    requires AtKey(g, s, k) && KeyByte(g, k) == Opcode(Do(Alu(CMP), MemHL))
    ensures CanStep(s) && t == Step(s)
    ensures t.pc == g + k + 1 && t.acc == s.acc && t.f.zf == (s.acc == s.mem[HLof(s)])
    ensures t.mem == s.mem && SameStack(s, t)
  {
    hide KeyByte, Opcode, KeyCode, CanStep, Step, HLof;
    KeyBytes(g, s, k);
    t := Exec(Do(Alu(CMP), MemHL), s);
    StepExec(s, Do(Alu(CMP), MemHL));
  }

  lemma JumpZero(g: Word, s: State, k: nat, a: Word) returns (t: State)
    requires AtKey(g, s, k) && k + 2 < KEY_SIZE && KeyByte(g, k) == Opcode(Jump(IfZero))
    requires KeyByte(g, k + 1) == High(a) && KeyByte(g, k + 2) == Low(a)
    ensures CanStep(s) && t == Step(s)
    ensures t == s.(pc := if s.f.zf then a else ToWord(s.pc + 3))
  {
    hide KeyByte, Opcode, KeyCode, CanStep, Step;
    KeyBytes(g, s, k);
    t := Exec(Jump(IfZero), s);
    StepExec(s, Jump(IfZero));
  }

  lemma StoreHalf(g: Word, s: State, k: nat, m: Mode) returns (t: State)
    requires AtKey(g, s, k) && m in {H, L} && KeyByte(g, k) == Opcode(Do(Store, m))
    ensures CanStep(s) && t == Step(s)
    ensures t.pc == g + k + 1 && t.mem == s.mem && SameStack(s, t) && t.acc == s.acc
    ensures t.h == (if m == H then s.acc else s.h) && t.l == (if m == L then s.acc else s.l)
  {
    hide KeyByte, Opcode, KeyCode, CanStep, Step, ZeroSign;
    KeyBytes(g, s, k);
    t := Exec(Do(Store, m), s);
    StepExec(s, Do(Store, m));
  }

  lemma Clear(g: Word, s: State, k: nat) returns (t: State)
    requires AtKey(g, s, k) && KeyByte(g, k) == Opcode(Clra)
    ensures CanStep(s) && t == Step(s)
    ensures t.pc == g + k + 1 && t.acc == 0 && t.mem == s.mem && SameStack(s, t)
    ensures t.h == s.h && t.l == s.l
  {
    hide KeyByte, Opcode, KeyCode, CanStep, Step;
    KeyBytes(g, s, k);
    t := Exec(Clra, s);
    StepExec(s, Clra);
  }

  lemma LoadAtPair(g: Word, s: State, k: nat) returns (t: State)
    requires AtKey(g, s, k) && KeyByte(g, k) == Opcode(Do(Load, MemHL))
    ensures CanStep(s) && t == Step(s)
    ensures t.pc == g + k + 1 && t.acc == s.mem[HLof(s)] && t.mem == s.mem && SameStack(s, t)
  {
    hide KeyByte, Opcode, KeyCode, CanStep, Step, HLof, ZeroSign;
    KeyBytes(g, s, k);
    t := Exec(Do(Load, MemHL), s);
    StepExec(s, Do(Load, MemHL));
  }

  lemma PushAcc(g: Word, s: State, k: nat) returns (t: State)
    requires AtKey(g, s, k) && KeyByte(g, k) == Opcode(Push(Acc))
    ensures CanStep(s) && t == Step(s)
    ensures t.pc == g + k + 1 && t.mem == s.mem
    ensures t.sp == ToByte(s.sp + 1) && t.stack == s.stack[s.sp := s.acc]
  {
    hide KeyByte, Opcode, KeyCode, CanStep, Step, ZeroSign;
    KeyBytes(g, s, k);
    t := Exec(Push(Acc), s);
    StepExec(s, Push(Acc));
  }

  lemma PopAcc(g: Word, s: State, k: nat) returns (t: State)
    requires AtKey(g, s, k) && KeyByte(g, k) == Opcode(Pop(Acc))
    ensures CanStep(s) && t == Step(s)
    ensures t.pc == g + k + 1 && t.mem == s.mem && t.acc == Top(s)
    ensures t.sp == ToByte(s.sp - 1) && t.stack == s.stack
  {
    hide KeyByte, Opcode, KeyCode, CanStep, Step, ZeroSign;
    KeyBytes(g, s, k);
    t := Exec(Pop(Acc), s);
    StepExec(s, Pop(Acc));
  }

  lemma Increment(g: Word, s: State, k: nat) returns (t: State)
    requires AtKey(g, s, k) && KeyByte(g, k) == Opcode(Do(Unary(INC), Acc))
    ensures CanStep(s) && t == Step(s)
    ensures t.pc == g + k + 1 && t.acc == ToByte(s.acc + 1) && t.mem == s.mem && SameStack(s, t)
  {
    hide KeyByte, Opcode, KeyCode, CanStep, Step, ZeroSign;
    KeyBytes(g, s, k);
    t := Exec(Do(Unary(INC), Acc), s);
    StepExec(s, Do(Unary(INC), Acc));
  }

  lemma MaskIndex(g: Word, s: State, k: nat) returns (t: State)
    requires AtKey(g, s, k) && k + 1 < KEY_SIZE && KeyByte(g, k) == Opcode(Do(Alu(AND), Imm))
    requires KeyByte(g, k + 1) == 15
    ensures CanStep(s) && t == Step(s)
    ensures t.pc == g + k + 2 && t.acc == s.acc % 16 && t.mem == s.mem && SameStack(s, t)
  {
    hide KeyByte, Opcode, KeyCode, CanStep, Step, ZeroSign, And, Pow2;
    KeyBytes(g, s, k);
    Sixteen();
    MaskIsMod(s.acc, 4);
    t := Exec(Do(Alu(AND), Imm), s);
    StepExec(s, Do(Alu(AND), Imm));
  }

  lemma Sixteen()
    ensures Pow2(4) == 16
  {
  }

  lemma Return(g: Word, s: State, k: nat) returns (t: State)
    requires AtKey(g, s, k) && KeyByte(g, k) == Opcode(Ret)
    ensures CanStep(s) && t == Step(s)
    ensures t == s.(pc := TopWord(s), sp := ToByte(s.sp - 2))
  {
    hide KeyByte, Opcode, KeyCode, CanStep, Step, TopWord;
    KeyBytes(g, s, k);
    t := Exec(Ret, s);
    StepExec(s, Ret);
  }

  // ---------- the routine as a whole ----------

  /** A step to byte k of the routine that leaves memory alone and knows what it needs to there. */
  predicate Goes(g: Word, s: State, t: State, k: int, c: Caller, q: seq<Byte>) {
    && t.pc == g + k && t.mem == s.mem && Knows(k, t, s.mem[READ_IDX], q) && Returnable(k, t, c)
    && Held(k, t) == []
  }

  predicate Here(g: Word, s: State, k: int, c: Caller, q: seq<Byte>) {
    Knows(k, s, s.mem[READ_IDX], q) && Returnable(k, s, c)
  }

  lemma StepsFrom0(g: Word, s: State, c: Caller, q: seq<Byte>)
    requires AtKey(g, s, 0) && Here(g, s, 0, c, q)
    ensures CanStep(s) && Goes(g, s, Step(s), 3, c, q)
  {
    hide KeyCode, CanStep, Step, Opcode, High, Low;
    var t := LoadCell(g, s, 0, READ_IDX);
  }

  lemma StepsFrom3(g: Word, s: State, c: Caller, q: seq<Byte>)
    requires AtKey(g, s, 3) && Here(g, s, 3, c, q)
    ensures CanStep(s) && Goes(g, s, Step(s), 6, c, q)
  {
    hide KeyCode, CanStep, Step, Opcode, High, Low, HLof;
    var t := PairLoad(g, s, 3, WRITE_IDX);
  }

  lemma StepsFrom6(g: Word, s: State, c: Caller)
    requires AtKey(g, s, 6) && Here(g, s, 6, c, Queue(s.mem)) && RingOk(s.mem)
    ensures CanStep(s) && Goes(g, s, Step(s), 7, c, Queue(s.mem))
  {
    hide KeyCode, CanStep, Step, Opcode, High, Low, HLof, Queue;
    var t := CompareCell(g, s, 6);
    EmptyIff(s.mem);
  }

  lemma StepsFrom7(g: Word, s: State, c: Caller, q: seq<Byte>)
    requires AtKey(g, s, 7) && Here(g, s, 7, c, q)
    ensures CanStep(s) && Goes(g, s, Step(s), if s.f.zf then 29 else 10, c, q)
  {
    hide KeyCode, CanStep, Step, Opcode, High, Low;
    KeyBytes(g, s, 7);
    var t := JumpZero(g, s, 7, g + 29);
  }

  lemma StepsFrom10(g: Word, s: State, c: Caller, q: seq<Byte>)
    requires AtKey(g, s, 10) && Here(g, s, 10, c, q)
    ensures CanStep(s) && Goes(g, s, Step(s), 11, c, q)
  {
    hide KeyCode, CanStep, Step, Opcode, High, Low;
    KeyBytes(g, s, 10);
    var t := StoreHalf(g, s, 10, L);
  }

  lemma StepsFrom11(g: Word, s: State, c: Caller, q: seq<Byte>)
    requires AtKey(g, s, 11) && Here(g, s, 11, c, q)
    ensures CanStep(s) && Goes(g, s, Step(s), 12, c, q)
  {
    hide KeyCode, CanStep, Step, Opcode, High, Low;
    KeyBytes(g, s, 11);
    var t := Clear(g, s, 11);
  }

  lemma StepsFrom12(g: Word, s: State, c: Caller, q: seq<Byte>)
    requires AtKey(g, s, 12) && Here(g, s, 12, c, q)
    ensures CanStep(s) && Goes(g, s, Step(s), 13, c, q)
  {
    hide KeyCode, CanStep, Step, Opcode, High, Low;
    KeyBytes(g, s, 12);
    var t := StoreHalf(g, s, 12, H);
  }

  lemma StepsFrom13(g: Word, s: State, c: Caller, q: seq<Byte>)
    requires AtKey(g, s, 13) && Here(g, s, 13, c, q) && s.mem[READ_IDX] < 16
    ensures CanStep(s) && Goes(g, s, Step(s), 16, c, q)
  {
    hide KeyCode, CanStep, Step, Opcode, High, Low;
    KeyBytes(g, s, 13);
    var t := PairAdd(g, s, 13, RINGBUF);
  }

  lemma StepsFrom16(g: Word, s: State, c: Caller)
    requires AtKey(g, s, 16) && Here(g, s, 16, c, Queue(s.mem)) && RingOk(s.mem)
    ensures CanStep(s) && Goes(g, s, Step(s), 17, c, Queue(s.mem))
  {
    hide KeyCode, CanStep, Step, Opcode, High, Low, HLof, Queue;
    KeyBytes(g, s, 16);
    HeadOfQueue(s.mem);
    var t := LoadAtPair(g, s, 16);
  }

  lemma StepsFrom17(g: Word, s: State, c: Caller, q: seq<Byte>)
    requires AtKey(g, s, 17) && Here(g, s, 17, c, q)
    ensures CanStep(s) && Goes(g, s, Step(s), 18, c, q)
  {
    hide KeyCode, CanStep, Step, Opcode, High, Low;
    KeyBytes(g, s, 17);
    var t := PushAcc(g, s, 17);
  }

  lemma StepsFrom18(g: Word, s: State, c: Caller, q: seq<Byte>)
    requires AtKey(g, s, 18) && Here(g, s, 18, c, q)
    ensures CanStep(s) && Goes(g, s, Step(s), 21, c, q)
  {
    hide KeyCode, CanStep, Step, Opcode, High, Low;
    KeyBytes(g, s, 18);
    var t := LoadCell(g, s, 18, READ_IDX);
  }

  lemma StepsFrom21(g: Word, s: State, c: Caller, q: seq<Byte>)
    requires AtKey(g, s, 21) && Here(g, s, 21, c, q) && s.mem[READ_IDX] < 16
    ensures CanStep(s) && Goes(g, s, Step(s), 22, c, q)
  {
    hide KeyCode, CanStep, Step, Opcode, High, Low;
    KeyBytes(g, s, 21);
    var t := Increment(g, s, 21);
  }

  lemma StepsFrom22(g: Word, s: State, c: Caller, q: seq<Byte>)
    requires AtKey(g, s, 22) && Here(g, s, 22, c, q)
    ensures CanStep(s) && Goes(g, s, Step(s), 24, c, q)
  {
    hide KeyCode, CanStep, Step, Opcode, High, Low;
    KeyBytes(g, s, 22);
    var t := MaskIndex(g, s, 22);
  }

  /** The store that takes the oldest key out of the buffer. */
  lemma StepsFrom24(g: Word, s: State, c: Caller, q: seq<Byte>)
    requires AtKey(g, s, 24) && Here(g, s, 24, c, q)
    ensures CanStep(s)
    ensures var t := Step(s);
            && t.pc == g + 27 && t.mem == s.mem[READ_IDX := Next(s.mem[READ_IDX])]
            && Returnable(27, t, c) && q != [] && Held(27, t) == [q[0]]
  {
    hide KeyCode, CanStep, Step, Opcode, High, Low;
    KeyBytes(g, s, 24);
    var t := StoreCell(g, s, 24, READ_IDX);
  }

  lemma StepsFrom27(g: Word, s: State, c: Caller)
    requires AtKey(g, s, 27) && Returnable(27, s, c)
    ensures CanStep(s)
    ensures var t := Step(s);
            t.pc == g + 28 && t.mem == s.mem && Returnable(28, t, c) && Held(28, t) == Held(27, s)
  {
    hide KeyCode, CanStep, Step, Opcode, High, Low, Returnable, Top;
    KeyBytes(g, s, 27);
    var t := PopAcc(g, s, 27);
    DropsKey(s, t, c);
  }

  lemma DropsKey(s: State, t: State, c: Caller)
    requires Returnable(27, s, c) && t.sp == ToByte(s.sp - 1) && t.stack == s.stack
    ensures Returnable(28, t, c)
  {
    hide ToByte, Join;
    WrapSum(c.sp + 1, -1);
  }

  lemma StepsFrom29(g: Word, s: State, c: Caller, q: seq<Byte>)
    requires AtKey(g, s, 29) && Here(g, s, 29, c, q)
    ensures CanStep(s) && Goes(g, s, Step(s), 30, c, q)
  {
    hide KeyCode, CanStep, Step, Opcode, High, Low;
    KeyBytes(g, s, 29);
    var t := Clear(g, s, 29);
  }

  lemma Leaves(g: Word, s: State, k: nat, c: Caller)
    requires (k == 28 || k == 30) && AtKey(g, s, k) && Returnable(k, s, c)
    ensures CanStep(s)
    ensures var t := Step(s); t == s.(pc := c.ret, sp := ToByte(c.sp - 2))
  {
    hide KeyCode, CanStep, Step, Opcode, High, Low, Returnable, TopWord;
    KeyBytes(g, s, k);
    var t := Return(g, s, k);
    ReturnsTo(s, k, c);
  }

  lemma ReturnsTo(s: State, k: nat, c: Caller)
    requires (k == 28 || k == 30) && Returnable(k, s, c)
    ensures TopWord(s) == c.ret && s.sp == c.sp
  {
    hide Join;
  }

  /** What one instruction of the routine does to the system. */
  ghost predicate Advances(g: Word, s: State, t: State, c: Caller) {
    && KeyCode(t.mem, g) && RingOk(t.mem)
    && InRoutine(g, t, c, Queue(t.mem))
    && InHand(g, s) + Queue(s.mem)
         == (if s.pc == g + 28 then [s.acc] else []) + InHand(g, t) + Queue(t.mem)
    && (if s.pc == g + 24 then t.mem == s.mem[READ_IDX := Next(s.mem[READ_IDX])] && Queue(s.mem) != []
        else t.mem == s.mem)
    && (if Inside(g, t.pc) then t.pc > s.pc
        else && (s.pc == g + 28 || (s.pc == g + 30 && s.acc == 0))
             && t == s.(pc := c.ret, sp := ToByte(c.sp - 2)))
  }

  lemma GoesAdvances(g: Word, s: State, t: State, k: int, c: Caller)
    requires KeyCode(s.mem, g) && RingOk(s.mem) && Goes(g, s, t, k, c, Queue(s.mem))
    requires Inside(g, s.pc) && s.pc < g + k < g + KEY_SIZE && InHand(g, s) == []
    requires s.pc != g + 24 && s.pc != g + 28 && !Inside(g, c.ret)
    ensures Advances(g, s, t, c)
  {
    hide KeyCode, RingOk, Queue, Returnable, Knows, Held;
  }

  lemma TakesKey(g: Word, s: State, t: State, c: Caller)
    requires KeyCode(s.mem, g) && RingOk(s.mem) && s.pc == g + 24 && !Inside(g, c.ret) && Queue(s.mem) != []
    requires t.pc == g + 27 && t.mem == s.mem[READ_IDX := Next(s.mem[READ_IDX])]
    requires Returnable(27, t, c) && Held(27, t) == [Queue(s.mem)[0]]
    ensures Advances(g, s, t, c)
  {
    hide KeyCode, RingOk, Queue, Returnable;
    IndexConsumed(s.mem);
    CodeKept(g, s.mem, t.mem);
  }

  lemma PopsKey(g: Word, s: State, t: State, c: Caller)
    requires KeyCode(s.mem, g) && RingOk(s.mem) && s.pc == g + 27 && !Inside(g, c.ret)
    requires t.pc == g + 28 && t.mem == s.mem && Returnable(28, t, c) && Held(28, t) == Held(27, s)
    ensures Advances(g, s, t, c)
  {
    hide KeyCode, RingOk, Queue, Returnable;
  }

  lemma Hands(g: Word, s: State, k: nat, c: Caller)
    requires k in {28, 30} && KeyCode(s.mem, g) && RingOk(s.mem) && s.pc == g + k && !Inside(g, c.ret)
    requires Knows(k, s, s.mem[READ_IDX], Queue(s.mem))
    ensures Advances(g, s, s.(pc := c.ret, sp := ToByte(c.sp - 2)), c)
  {
    hide KeyCode, RingOk, Queue, Returnable;
  }

  /** Every instruction of the routine is defined and keeps the protocol. */
  lemma InstructionAdvances(g: Word, s: State, c: Caller)
    requires KeyCode(s.mem, g) && RingOk(s.mem) && Inside(g, s.pc) && InRoutine(g, s, c, Queue(s.mem))
    ensures CanStep(s) && Advances(g, s, Step(s), c)
  {
    hide KeyCode, CanStep, Step, Queue, Advances, Returnable, Goes;
    var q := Queue(s.mem);
    var k: nat := s.pc - g;
    match k
    case 0 => StepsFrom0(g, s, c, q); GoesAdvances(g, s, Step(s), 3, c);
    case 3 => StepsFrom3(g, s, c, q); GoesAdvances(g, s, Step(s), 6, c);
    case 6 => StepsFrom6(g, s, c); GoesAdvances(g, s, Step(s), 7, c);
    case 7 => StepsFrom7(g, s, c, q); GoesAdvances(g, s, Step(s), if s.f.zf then 29 else 10, c);
    case 10 => StepsFrom10(g, s, c, q); GoesAdvances(g, s, Step(s), 11, c);
    case 11 => StepsFrom11(g, s, c, q); GoesAdvances(g, s, Step(s), 12, c);
    case 12 => StepsFrom12(g, s, c, q); GoesAdvances(g, s, Step(s), 13, c);
    case 13 => StepsFrom13(g, s, c, q); GoesAdvances(g, s, Step(s), 16, c);
    case 16 => StepsFrom16(g, s, c); GoesAdvances(g, s, Step(s), 17, c);
    case 17 => StepsFrom17(g, s, c, q); GoesAdvances(g, s, Step(s), 18, c);
    case 18 => StepsFrom18(g, s, c, q); GoesAdvances(g, s, Step(s), 21, c);
    case 21 => StepsFrom21(g, s, c, q); GoesAdvances(g, s, Step(s), 22, c);
    case 22 => StepsFrom22(g, s, c, q); GoesAdvances(g, s, Step(s), 24, c);
    case 24 => StepsFrom24(g, s, c, q); TakesKey(g, s, Step(s), c);
    case 27 => StepsFrom27(g, s, c); PopsKey(g, s, Step(s), c);
    case 28 => Leaves(g, s, 28, c); Hands(g, s, 28, c);
    case 29 => StepsFrom29(g, s, c, q); GoesAdvances(g, s, Step(s), 30, c);
    case 30 => Leaves(g, s, 30, c); Hands(g, s, 30, c);
    case _ =>
  }

  // ---------- every step keeps the invariant ----------

  lemma CheckKeeps(g: Word, y: System)
    requires Inv(g, y) && y.producer.Checking?
    ensures Inv(g, Apply(g, y, Check))
  {
    hide KeyCode, Queue, InRoutine, InHand;
    FullIff(y.cpu.mem);
  }

  lemma FillKeeps(g: Word, y: System)
    requires Inv(g, y) && y.producer.Writing?
    ensures Inv(g, Apply(g, y, Fill)) && Queue(Apply(g, y, Fill).cpu.mem) == Queue(y.cpu.mem)
  {
    hide KeyCode, Queue, Knows, Held, Returnable;
    var s, mem' := y.cpu, WriteSlot(y.cpu.mem, y.producer.key);
    SlotWritten(s.mem, y.producer.key);
    CodeKept(g, s.mem, mem');
    if Inside(g, s.pc) {
      KnowsMore(s.pc - g, s, s.(mem := mem'), s.mem[READ_IDX], Queue(s.mem), Queue(s.mem));
      SameReturn(s.pc - g, s, mem', y.caller);
    } else {
      NothingHeld(s.pc - g, s);
      NothingHeld(s.pc - g, s.(mem := mem'));
    }
  }

  lemma NothingHeld(o: int, s: State)
    requires !(0 <= o < KEY_SIZE)
    ensures Held(o, s) == []
  {
  }

  lemma SameReturn(o: int, s: State, mem': Memory, c: Caller)
    requires Returnable(o, s, c)
    ensures Returnable(o, s.(mem := mem'), c)
  {
  }

  /** Publishing the index is the moment the key enters the queue. */
  lemma ReleaseKeeps(g: Word, y: System)
    requires Inv(g, y) && y.producer.Publishing?
    ensures Inv(g, Apply(g, y, Release))
    ensures Queue(Apply(g, y, Release).cpu.mem) == Queue(y.cpu.mem) + [y.producer.key]
  {
    hide KeyCode, Queue, Knows, Held, Returnable;
    var s, mem' := y.cpu, Publish(y.cpu.mem);
    IndexPublished(s.mem);
    CodeKept(g, s.mem, mem');
    if Inside(g, s.pc) {
      KnowsMore(s.pc - g, s, s.(mem := mem'), s.mem[READ_IDX], Queue(s.mem), Queue(mem'));
      SameReturn(s.pc - g, s, mem', y.caller);
    } else {
      NothingHeld(s.pc - g, s);
      NothingHeld(s.pc - g, s.(mem := mem'));
    }
  }

  lemma InstructionKeeps(g: Word, y: System)
    requires Inv(g, y) && Inside(g, y.cpu.pc)
    ensures Enabled(g, y, Instruction)
    ensures Inv(g, Apply(g, y, Instruction)) && Advances(g, y.cpu, Step(y.cpu), y.caller)
  {
    hide KeyCode, Queue, InRoutine, InHand, CanStep, Step;
    InstructionAdvances(g, y.cpu, y.caller);
    var t := Step(y.cpu);
    ConsumerSpares(g, y, t);
    var out := if y.cpu.pc == g + 28 then [y.cpu.acc] else [];
    Regroup(y.returned, InHand(g, y.cpu), Queue(y.cpu.mem), out, InHand(g, t), Queue(t.mem));
  }

  lemma Regroup(returned: seq<Byte>, hand: seq<Byte>, q: seq<Byte>, out: seq<Byte>, hand': seq<Byte>, q': seq<Byte>)
    requires hand + q == out + hand' + q'
    ensures returned + hand + q == (returned + out) + hand' + q'
    ensures out == [] ==> returned + out == returned
  {
    assert returned + hand + q == returned + (hand + q);
    assert (returned + out) + hand' + q' == returned + (out + hand' + q');
  }

  /** The consumer's store spares the slot being filled, and makes room. */
  lemma ConsumerSpares(g: Word, y: System, t: State)
    requires Inv(g, y) && Advances(g, y.cpu, t, y.caller)
    ensures ProducerOk(y.producer, t.mem, Queue(t.mem))
  {
    hide KeyCode, Queue, InRoutine, InHand;
    if y.cpu.pc == g + 24 {
      IndexConsumed(y.cpu.mem);
    }
  }

  lemma ClientKeeps(g: Word, y: System, t: State)
    requires Inv(g, y) && ClientMay(g, y.cpu, t)
    ensures Inv(g, Apply(g, y, Client(t))) && Queue(t.mem) == Queue(y.cpu.mem)
  {
    hide KeyCode, Queue, Held, Knows, Returnable;
    QueueFrame(y.cpu.mem, t.mem);
    NothingHeld(y.cpu.pc - g, y.cpu);
    Entering(g, t);
    assert RINGBUF + y.cpu.mem[WRITE_IDX] < FRAME_BUFFER;
  }

  lemma Entering(g: Word, t: State)
    requires Inside(g, t.pc) ==> t.pc == g
    ensures InHand(g, t) == []
    ensures Inside(g, t.pc) ==>
              && Knows(t.pc - g, t, t.mem[READ_IDX], Queue(t.mem))
              && Returnable(t.pc - g, t, Caller(TopWord(t), t.sp))
  {
    hide Queue, Returnable;
    EnteringCaller(t);
  }

  lemma EnteringCaller(t: State)
    ensures Returnable(0, t, Caller(TopWord(t), t.sp))
  {
    hide Join;
  }

  lemma EveryActionKeeps(g: Word, y: System, a: Action)
    requires Inv(g, y) && Enabled(g, y, a)
    ensures Inv(g, Apply(g, y, a))
  {
    hide KeyCode, Queue, InRoutine, InHand, CanStep, Step, ClientMay;
    match a
    case Press(_) =>
    case Check => CheckKeeps(g, y);
    case Fill => FillKeeps(g, y);
    case Release => ReleaseKeeps(g, y);
    case Instruction => InstructionKeeps(g, y);
    case Client(t) => ClientKeeps(g, y, t);
  }

  // ---------- the main results ----------

  /** The protocol before any key: both indices 0, control outside the routine. */
  ghost predicate Start(g: Word, y: System) {
    && KeyCode(y.cpu.mem, g) && y.cpu.mem[WRITE_IDX] == y.cpu.mem[READ_IDX] == 0
    && !Inside(g, y.cpu.pc) && y.producer == Idle
    && y.accepted == y.dropped == y.returned == []
  }

  lemma StartsInv(g: Word, y: System)
    requires Start(g, y)
    ensures Inv(g, y)
  {
    hide KeyCode, Queue;
    EmptyIff(y.cpu.mem);
  }

  lemma {:induction false} RunKeeps(g: Word, y: System, actions: seq<Action>, z: System)
    requires Inv(g, y) && Runs(g, y, actions, z)
    ensures Inv(g, z)
    decreases |actions|
  {
    hide Inv, Apply, Enabled;
    if actions != [] {
      EveryActionKeeps(g, y, actions[0]);
      RunKeeps(g, Apply(g, y, actions[0]), actions[1..], z);
    }
  }

  /** Under every interleaving, the keys returned so far are the first keys accepted, in order and
      each once; the others are the one in hand and the at most fifteen in the buffer. */
  lemma KeysInOrder(g: Word, y: System, actions: seq<Action>, z: System)
    requires Start(g, y) && Runs(g, y, actions, z)
    ensures z.accepted == z.returned + InHand(g, z.cpu) + Queue(z.cpu.mem)
    ensures |z.returned| <= |z.accepted| <= |z.returned| + 16
    ensures z.accepted[..|z.returned|] == z.returned
  {
    hide Runs, Start, Queue, KeyCode, RingOk, ProducerOk, InRoutine;
    StartsInv(g, y);
    RunKeeps(g, y, actions, z);
  }

  /** Each action is a step of a fifteen-element FIFO queue or leaves it alone: publishing enqueues
      and never overflows, the routine's store dequeues and never underflows. */
  lemma RefinesFifo(g: Word, y: System, a: Action)
    requires Inv(g, y) && Enabled(g, y, a)
    ensures var q, q', z := Queue(y.cpu.mem), Queue(Apply(g, y, a).cpu.mem), Apply(g, y, a);
            if a == Release then |q| < 15 && q' == q + [y.producer.key] && z.accepted == y.accepted + [y.producer.key]
            else if a == Instruction && y.cpu.pc == g + 24 then
              q != [] && q' == q[1..] && InHand(g, z.cpu) == [q[0]] && z.accepted == y.accepted
            else q' == q && z.accepted == y.accepted
  {
    hide KeyCode, Queue, InRoutine, CanStep, Step, ClientMay, InHand, RingOk;
    match a
    case Press(_) =>
    case Check =>
    case Fill => FillKeeps(g, y);
    case Release => ReleaseKeeps(g, y);
    case Instruction =>
      InstructionKeeps(g, y);
      if y.cpu.pc == g + 24 { Dequeues(g, y); }
    case Client(t) => ClientKeeps(g, y, t);
  }

  lemma Dequeues(g: Word, y: System)
    requires Inv(g, y) && y.cpu.pc == g + 24 && CanStep(y.cpu) && Advances(g, y.cpu, Step(y.cpu), y.caller)
    ensures Queue(y.cpu.mem) != [] && Queue(Step(y.cpu).mem) == Queue(y.cpu.mem)[1..]
    ensures InHand(g, Step(y.cpu)) == [Queue(y.cpu.mem)[0]]
  {
    hide KeyCode, Queue, CanStep, Step;
    var s := y.cpu;
    StepsFrom24(g, s, y.caller, Queue(s.mem));
    IndexConsumed(s.mem);
  }

  /** A key is dropped exactly when the buffer holds fifteen. */
  lemma DropsOnlyWhenFull(g: Word, y: System)
    requires Inv(g, y) && y.producer.Checking?
    ensures var z := Apply(g, y, Check);
            if |Queue(y.cpu.mem)| == 15 then z.dropped == y.dropped + [y.producer.key] && z.producer == Idle
            else z.dropped == y.dropped && z.producer == Writing(y.producer.key)
  {
    hide KeyCode, Queue, InRoutine, InHand;
    FullIff(y.cpu.mem);
  }

  /** When the routine reads a slot, the slot is not one the producer is filling or has yet to
      publish. */
  lemma NoTornRead(g: Word, y: System)
    requires Inv(g, y) && y.cpu.pc == g + 16
    ensures HLof(y.cpu) != RINGBUF + y.cpu.mem[WRITE_IDX]
    ensures RINGBUF <= HLof(y.cpu) < FRAME_BUFFER
    ensures y.cpu.mem[HLof(y.cpu)] == Queue(y.cpu.mem)[0]
  {
    hide KeyCode, Queue;
    HeadOfQueue(y.cpu.mem);
    WriteSlotFree(y.cpu.mem, 0);
  }

  /** Neither side writes outside the index bytes and the slots, so never into the frame buffer. */
  lemma WritesStayInRing(g: Word, y: System, a: Action, at: Word)
    requires Inv(g, y) && Enabled(g, y, a) && !a.Client? && !(WRITE_IDX <= at < FRAME_BUFFER)
    ensures Apply(g, y, a).cpu.mem[at] == y.cpu.mem[at]
  {
    hide KeyCode, Queue, InRoutine, InHand, CanStep, Step;
    if a == Instruction {
      InstructionKeeps(g, y);
    }
  }

  /** The routine says "no key" only when it compared the indices of an empty buffer. */
  lemma EmptyIsTrue(g: Word, y: System)
    requires Inv(g, y) && y.cpu.pc == g + 6
    ensures CanStep(y.cpu) && Step(y.cpu).f.zf == (Queue(y.cpu.mem) == [])
  {
    hide KeyCode, Queue, CanStep, Step, HLof;
    var t := CompareCell(g, y.cpu, 6);
    EmptyIff(y.cpu.mem);
  }

  // ---------- the routine returns ----------

  /** In any stretch of a run without a client step, every instruction moves the routine forward,
      so it returns within as many of them as it has bytes left, whatever the producer does
      meanwhile. */
  lemma {:induction false} ReturnsSoon(g: Word, y: System, actions: seq<Action>, z: System)
    requires Inv(g, y) && Inside(g, y.cpu.pc) && Runs(g, y, actions, z)
    requires forall i :: 0 <= i < |actions| ==> !actions[i].Client?
    ensures Instructions(actions) <= KEY_SIZE - (y.cpu.pc - g)
    ensures if Inside(g, z.cpu.pc) then z.cpu.pc >= y.cpu.pc + Instructions(actions)
            else z.cpu.pc == y.caller.ret && z.cpu.sp == ToByte(y.caller.sp - 2)
    decreases |actions|
  {
    hide Inv, Apply, Enabled, Advances, ToByte;
    if actions != [] {
      var a, x := actions[0], Apply(g, y, actions[0]);
      EveryActionKeeps(g, y, a);
      MovesOn(g, y, a);
      if Inside(g, x.cpu.pc) {
        ReturnsSoon(g, x, actions[1..], z);
      } else {
        StaysOut(g, x, actions[1..], z);
      }
    }
  }

  function Instructions(actions: seq<Action>): nat
    decreases |actions|
  {
    if actions == [] then 0
    else (if actions[0] == Instruction then 1 else 0) + Instructions(actions[1..])
  }

  lemma MovesOn(g: Word, y: System, a: Action)
    requires Inv(g, y) && Inside(g, y.cpu.pc) && Enabled(g, y, a) && !a.Client?
    ensures var x := Apply(g, y, a);
            && x.caller == y.caller
            && (if a != Instruction then x.cpu.pc == y.cpu.pc && x.cpu.sp == y.cpu.sp
                else if Inside(g, x.cpu.pc) then x.cpu.pc > y.cpu.pc
                else x.cpu.pc == y.caller.ret && x.cpu.sp == ToByte(y.caller.sp - 2))
  {
    hide KeyCode, Queue, InRoutine, InHand, CanStep, Step;
    if a == Instruction {
      InstructionKeeps(g, y);
    }
  }

  /** Out of the routine, only the producer moves. */
  lemma {:induction false} StaysOut(g: Word, y: System, actions: seq<Action>, z: System)
    requires !Inside(g, y.cpu.pc) && Runs(g, y, actions, z)
    requires forall i :: 0 <= i < |actions| ==> !actions[i].Client?
    ensures z.cpu.pc == y.cpu.pc && z.cpu.sp == y.cpu.sp && Instructions(actions) == 0
    decreases |actions|
  {
    hide CanStep, Step, KeyCode;
    if actions != [] {
      StaysOut(g, Apply(g, y, actions[0]), actions[1..], z);
    }
  }
}
