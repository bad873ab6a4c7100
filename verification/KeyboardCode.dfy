/** The lines of get_keyboard in programs/keyboard.casm assemble to the bytes the protocol proof
    is about, wherever the routine ends up. */
module KeyboardCode {
  import opened Words
  import opened Isa
  import opened Encoding
  import opened Syntax
  import opened Lowering
  import opened Simulation
  import opened Spelling
  import opened RingBuffer
  import opened Keyboard

  const READ_NAME := "read_idx"
  const WRITE_NAME := "write_idx"
  const RING_NAME := "ringbuf"
  const EMPTY_NAME := "buf_empty"

  function Direct(kind: Kind, name: string): Stmt { Use(kind, Labelled(name, MemExpr(Absolute, 0))) }

  /** Statement i of the routine. */
  function KeyStmt(i: nat): Stmt {
    match i
    case 0 => Direct(Load, READ_NAME)
    case 1 => Direct(Alu(CMP), WRITE_NAME)
    case 2 => JumpTo(IfZero, Lab(EMPTY_NAME, 0))
    case 3 => Use(Store, Reg(L))
    case 4 => Use(Load, Immediate(0))
    case 5 => Use(Store, Reg(H))
    case 6 => Use(Load, Labelled(RING_NAME, MemExpr(ByHL, 0)))
    case 7 => PushOperand(Reg(Acc))
    case 8 => Direct(Load, READ_NAME)
    case 9 => Use(Unary(INC), Reg(Acc))
    case 10 => Use(Alu(AND), Immediate(15))
    case 11 => Direct(Store, READ_NAME)
    case 12 => PopOperand(Reg(Acc))
    case 13 => Return
    case 14 => Define(EMPTY_NAME)
    case 15 => Use(Load, Immediate(0))
    case _ => Return
  }

  function KeyOffset(i: nat): nat {
    match i
    case 0 => 0 case 1 => 3 case 2 => 7 case 3 => 10 case 4 => 11 case 5 => 12 case 6 => 13 case 7 => 17
    case 8 => 18 case 9 => 21 case 10 => 22 case 11 => 24 case 12 => 27 case 13 => 28 case 14 => 29
    case 15 => 29 case 16 => 30 case _ => 31
  }

  function KeySlice(g: Word, a: nat, b: nat): seq<Byte>
    requires g + 31 < 65536 && a <= b
  {
    seq<Byte>(b - a, j requires 0 <= j < b - a => KeyByte(g, a + j))
  }

  /** The buffer's constants, and the routine at address g. */
  ghost predicate KeyEnv(env: Env, g: Word) {
    && g + KEY_SIZE < 65536
    && READ_NAME in env && env[READ_NAME] == READ_IDX
    && WRITE_NAME in env && env[WRITE_NAME] == WRITE_IDX
    && RING_NAME in env && env[RING_NAME] == RINGBUF
    && EMPTY_NAME in env && env[EMPTY_NAME] == g + 29
  }

  lemma ResolvesTo(env: Env, name: string, a: Word)
    requires name in env && env[name] == a
    ensures TargetBytes(env, Lab(name, 0)) == WordBytes(a)
  {
    hide ToByte, High, Low, TargetBytes;
    TargetWord(env, Lab(name, 0));
    AddBytesExact(0, a);
    WrapSum(a, 0);
    WordsThemselves(a);
    JoinParts(TargetBytes(env, Lab(name, 0))[0], TargetBytes(env, Lab(name, 0))[1]);
  }

  ghost predicate KeyEmits(env: Env, g: Word, i: nat)
    requires g + 31 < 65536
  {
    && Spellable(KeyStmt(i)) && KeyOffset(i) <= KeyOffset(i + 1)
    && AllWellFormed(Lower(KeyStmt(i)))
    && Encode(env, Lower(KeyStmt(i))) == KeySlice(g, KeyOffset(i), KeyOffset(i + 1))
  }

  lemma SliceOf(g: Word, a: nat)
    requires g + 31 < 65536
    ensures KeySlice(g, a, a + 1) == [KeyByte(g, a)]
    ensures KeySlice(g, a, a + 2) == [KeyByte(g, a), KeyByte(g, a + 1)]
    ensures KeySlice(g, a, a + 3) == [KeyByte(g, a), KeyByte(g, a + 1), KeyByte(g, a + 2)]
    ensures KeySlice(g, a, a + 4) == [KeyByte(g, a), KeyByte(g, a + 1), KeyByte(g, a + 2), KeyByte(g, a + 3)]
  {
    hide KeyByte;
  }

  /** One instruction's bytes. */
  lemma OneEncoded(env: Env, op: Op, arg: Arg)
    requires Exists(op) && Length(op) == 1 + ArgSize(arg)
    ensures AllWellFormed([Ins(op, arg)])
    ensures Encode(env, [Ins(op, arg)]) == [Opcode(op)] + ArgBytes(env, arg)
  {
    hide Opcode, Exists, Length, Encode, ArgBytes;
    EncodeOne(env, Ins(op, arg));
  }

  lemma PlainKeys(env: Env, g: Word, i: nat)
    requires KeyEnv(env, g) && i in {3, 4, 5, 7, 9, 12, 13, 15, 16}
    ensures KeyEmits(env, g, i)
  {
    hide Encode, High, Low, TargetBytes, Opcode, KeySlice;
    var op := match i
              case 3 => Do(Store, L) case 4 => Clra case 5 => Do(Store, H) case 7 => Push(Acc)
              case 9 => Do(Unary(INC), Acc) case 12 => Pop(Acc) case 13 => Ret case 15 => Clra case _ => Ret;
    SliceOf(g, KeyOffset(i));
    OneEncoded(env, op, NoArg);
  }

  lemma MaskKey(env: Env, g: Word)
    requires KeyEnv(env, g)
    ensures KeyEmits(env, g, 10)
  {
    hide Encode, High, Low, TargetBytes, Opcode, KeySlice;
    SliceOf(g, KeyOffset(10));
    OneEncoded(env, Do(Alu(AND), Imm), ByteArg(15));
  }

  lemma WordKeys(env: Env, g: Word, i: nat)
    requires KeyEnv(env, g) && i in {0, 2, 8, 11}
    ensures KeyEmits(env, g, i)
  {
    hide Encode, High, Low, TargetBytes, Opcode, KeySlice;
    var op := if i == 2 then Jump(IfZero) else if i == 11 then Do(Store, MemImm) else Do(Load, MemImm);
    var name := if i == 2 then EMPTY_NAME else READ_NAME;
    ResolvesTo(env, name, if i == 2 then g + 29 else READ_IDX);
    SliceOf(g, KeyOffset(i));
    OneEncoded(env, op, WordArg(Lab(name, 0)));
  }

  lemma PairKeys(env: Env, g: Word, i: nat)
    requires KeyEnv(env, g) && i in {1, 6}
    ensures KeyEmits(env, g, i)
  {
    hide Encode, High, Low, TargetBytes, Opcode, KeySlice;
    var name := if i == 1 then WRITE_NAME else RING_NAME;
    ResolvesTo(env, name, if i == 1 then WRITE_IDX else RINGBUF);
    var a := Ins(if i == 1 then LoadHLI else AddHLI, WordArg(Lab(name, 0)));
    var b := Ins(Do(if i == 1 then Alu(CMP) else Load, MemHL), NoArg);
    SliceOf(g, KeyOffset(i));
    EncodeTwo(env, a, b);
  }

  lemma LabelKey(env: Env, g: Word)
    requires KeyEnv(env, g)
    ensures KeyEmits(env, g, 14)
  {
    hide KeyByte;
  }

  function KeyItems(n: nat): seq<Item> {
    if n == 0 then [] else KeyItems(n - 1) + Lower(KeyStmt(n - 1))
  }

  lemma SlicesJoin(g: Word, a: nat, b: nat, c: nat)
    requires g + 31 < 65536 && a <= b <= c
    ensures KeySlice(g, a, c) == KeySlice(g, a, b) + KeySlice(g, b, c)
  {
    hide KeyByte;
  }

  lemma RoomFor(env: Env, g: Word)
    requires KeyEnv(env, g)
    ensures g + 31 < 65536
  {
  }

  lemma EachEmits(env: Env, g: Word, i: nat)
    requires KeyEnv(env, g) && i < 17
    ensures g + 31 < 65536 && KeyEmits(env, g, i)
  {
    hide *;
    RoomFor(env, g);
    if i in {0, 2, 8, 11} {
      WordKeys(env, g, i);
    } else if i in {1, 6} {
      PairKeys(env, g, i);
    } else if i == 10 {
      MaskKey(env, g);
    } else if i == 14 {
      LabelKey(env, g);
    } else {
      PlainKeys(env, g, i);
    }
  }

  lemma {:induction false} KeyBytesUpto(env: Env, g: Word, n: nat)
    requires KeyEnv(env, g) && n <= 17
    ensures g + 31 < 65536 && AllWellFormed(KeyItems(n))
    ensures Encode(env, KeyItems(n)) == KeySlice(g, 0, KeyOffset(n))
  {
    hide Encode, KeyByte, KeySlice, KeyStmt, Lower, Spellable, KeyOffset;
    if n == 0 {
      NoKeys(env, g);
    } else {
      KeyBytesUpto(env, g, n - 1);
      EachEmits(env, g, n - 1);
      EncodeConcat(env, KeyItems(n - 1), Lower(KeyStmt(n - 1)));
      SlicesJoin(g, 0, KeyOffset(n - 1), KeyOffset(n));
    }
  }

  lemma NoKeys(env: Env, g: Word)
    requires g + 31 < 65536
    ensures Encode(env, KeyItems(0)) == KeySlice(g, 0, KeyOffset(0))
  {
  }

  /** Under any labels that give the buffer its constants and put buf_empty where it falls, the
      lines assemble to the routine. */
  lemma KeyboardAssembled(env: Env, g: Word)
    requires KeyEnv(env, g)
    ensures AllWellFormed(KeyItems(17)) && |Encode(env, KeyItems(17))| == KEY_SIZE
    ensures forall k :: 0 <= k < KEY_SIZE ==> Encode(env, KeyItems(17))[k] == KeyByte(g, k)
  {
    hide Encode, KeyItems, KeyByte;
    KeyBytesUpto(env, g, 17);
  }
}
