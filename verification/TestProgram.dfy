/** programs/test.casm as it stands, from its token lines: assembled and loaded, it counts for ever
    in its own data line. */
module TestProgram {
  import opened Words
  import opened Isa
  import opened Machine
  import opened Encoding
  import opened Syntax
  import opened Lowering
  import opened Source
  import opened Program
  import opened Spelling
  import opened Vm
  import opened Carry
  import opened Counter
  import opened DataLines
  import opened CountingLoop

  const MAIN := "main"
  const COUNTER := "counter"

  /** Line i, but for line 16, a CMP without its operand. */
  function TestStmt(i: nat): Stmt {
    match i
    case 0 => Plain(Et)
    case 1 => Define(MAIN)
    case 2 => Use(Unary(INC), CounterByte(COUNTER, 2))
    case 3 => Use(Load, Immediate(0))
    case 4 => Use(Alu(ADC), CounterByte(COUNTER, 1))
    case 5 => Use(Store, CounterByte(COUNTER, 1))
    case 6 => Use(Load, Immediate(0))
    case 7 => Use(Alu(ADC), CounterByte(COUNTER, 0))
    case 8 => Use(Store, CounterByte(COUNTER, 0))
    case 9 => Use(Load, CounterByte(COUNTER, 0))
    case 10 => PushOperand(Reg(Acc))
    case 11 => Use(Load, CounterByte(COUNTER, 1))
    case 12 => PushOperand(Reg(Acc))
    case 13 => Use(Load, CounterByte(COUNTER, 2))
    case 14 => PushOperand(Reg(Acc))
    case 15 => Use(Load, CounterByte(COUNTER, 0))
    case 17 => PopOperand(Reg(Acc))
    case 18 => PopOperand(Reg(Acc))
    case 19 => PopOperand(Reg(Acc))
    case 20 => JumpTo(Always, Lab(MAIN, 0))
    case 21 => Define(COUNTER)
    case 22 => Bytes([255, 255, 254])
    case _ => Blank
  }

  function TestLine(i: nat): seq<Token> {
    if i == 16 then [Mark(AluSym(CMP))] else TestSpellable(i); Write(TestStmt(i))
  }

  lemma TestSpellable(i: nat)
    ensures Spellable(TestStmt(i))
  {
  }

  function TestLines(): (lines: Lines)
    ensures |lines| == 23
  {
    seq(23, i requires 0 <= i < 23 => TestLine(i))
  }

  lemma TestParse(i: nat)
    requires i < 23
    ensures ParseLine(TestLines()[i]) == if i == 16 then None else Some(TestStmt(i))
  {
    hide TestStmt, Write, Spellable, ParseLine;
    if i == 16 {
      NoOperand();
    } else {
      TestSpellable(i);
      StatementRoundTrip(TestStmt(i));
    }
  }

  /** A mnemonic without its operand is an error. */
  lemma NoOperand()
    ensures ParseLine([Mark(AluSym(CMP))]) == None
  {
  }

  // ---------- addresses ----------

  /** Where line i starts. */
  function Start(i: nat): nat {
    match i
    case 0 => 256 case 1 => 257 case 2 => 257 case 3 => 261 case 4 => 262 case 5 => 266 case 6 => 269 case 7 => 270
    case 8 => 274 case 9 => 277 case 10 => 280 case 11 => 281 case 12 => 284 case 13 => 285 case 14 => 288
    case 15 => 289 case 16 => 292 case 17 => 292 case 18 => 293 case 19 => 294 case 20 => 295 case 21 => 298
    case 22 => 298
    case _ => 301
  }

  /** An access through a label is one instruction with a direct operand, or two through HL. */
  lemma DirectSize(kind: Kind, name: string, d: Word)
    ensures SizeOf(Lower(Use(kind, CounterByte(name, d)))) == if HasMemImm(kind) then 3 else 4
  {
    hide SizeOf;
    var items := Lower(Use(kind, CounterByte(name, d)));
    OneSize(items[0]);
    if !HasMemImm(kind) {
      TwoSize(items[0], items[1]);
    }
  }

  lemma OneSize(it: Item)
    ensures SizeOf([it]) == ItemSize(it)
  {
    assert [it][1..] == [];
  }

  lemma TwoSize(a: Item, b: Item)
    ensures SizeOf([a, b]) == ItemSize(a) + ItemSize(b)
  {
    OneSize(b);
    assert [a, b][1..] == [b];
  }

  lemma StatementSize(i: nat)
    requires i < 23 && i != 16
    ensures Start(i) + SizeOf(Lower(TestStmt(i))) == Start(i + 1)
  {
    hide SizeOf, Lower;
    match TestStmt(i) {
      case Use(kind, Labelled(_, e)) => DirectSize(kind, COUNTER, e.disp);
      case Bytes(bs) => ThreeBytes(map[], 255, 255, 254);
      case _ => OtherSize(i);
    }
  }

  lemma OtherSize(i: nat)
    requires i < 23 && i != 16 && i != 22
    requires !TestStmt(i).Use? || !TestStmt(i).operand.Labelled?
    ensures Start(i) + SizeOf(Lower(TestStmt(i))) == Start(i + 1)
  {
    hide SizeOf;
    if Lower(TestStmt(i)) == [] {
      NoSize();
    } else {
      OneSize(Lower(TestStmt(i))[0]);
    }
  }

  lemma NoSize()
    ensures SizeOf([]) == 0
  {
  }

  lemma ThreeBytes(env: Env, x: Byte, y: Byte, z: Byte)
    ensures AllWellFormed(Lower(Bytes([x, y, z]))) && Encode(env, Lower(Bytes([x, y, z]))) == [x, y, z]
  {
    hide Encode;
    assert Lower(Bytes([x, y, z])) == [Raw(x), Raw(y), Raw(z)];
    EncodeThree(env, x, y, z);
  }

  lemma EncodeThree(env: Env, x: Byte, y: Byte, z: Byte)
    ensures Encode(env, [Raw(x), Raw(y), Raw(z)]) == [x, y, z]
  {
    hide Encode;
    EncodeRaw(env, x);
    EncodeRaw(env, y);
    EncodeRaw(env, z);
    EncodeConcat(env, [Raw(x)], [Raw(y)]);
    EncodeConcat(env, [Raw(x)] + [Raw(y)], [Raw(z)]);
    assert [Raw(x)] + [Raw(y)] + [Raw(z)] == [Raw(x), Raw(y), Raw(z)];
  }

  lemma EncodeRaw(env: Env, b: Byte)
    ensures AllWellFormed([Raw(b)]) && Encode(env, [Raw(b)]) == [b]
  {
    assert [Raw(b)][1..] == [];
  }

  lemma {:induction false} TestAddress(i: nat)
    requires i <= 23
    ensures AddressOf(TestLines(), i) == Start(i)
    decreases i
  {
    hide AddressOf, TestLine, SizeOf, TestStmt, Lower, ParseLine;
    if i == 0 {
      StartAddress(TestLines());
    } else {
      var k := i - 1;
      TestAddress(k);
      AddressNext(TestLines(), k);
      TestParse(k);
      if k == 16 {
        NothingEmitted(TestLines()[k]);
      } else {
        LineItemsIs(TestLines()[k]);
        StatementSize(k);
      }
    }
  }

  lemma NothingEmitted(line: seq<Token>)
    requires ParseLine(line) == None
    ensures LineItems(line) == [] && SizeOf(LineItems(line)) == 0
  {
    hide ParseLine;
  }

  // ---------- labels ----------

  /** The value line j gives a label. */
  lemma TestDefines(j: nat, name: string)
    requires j < 23
    ensures Defines(TestLines(), j, name) ==
      if j == 1 && name == MAIN then Some(257) else if j == 21 && name == COUNTER then Some(298) else None
  {
    hide TestLine, AddressOf, ParseLine;
    TestParse(j);
    TestAddress(j);
  }

  lemma TestLabel(name: string, i: nat)
    requires i < 23 && Defines(TestLines(), i, name).Some?
    ensures name in Labels(TestLines()) && Some(Labels(TestLines())[name]) == Defines(TestLines(), i, name)
  {
    hide Labels, Defines, TestLines;
    var k := LabelsMeaning(TestLines(), 23, name);
    TestDefines(i, name);
    if k < 23 {
      TestDefines(k, name);
    }
    LabelsAll(TestLines());
  }

  lemma LabelsAll(lines: Lines)
    ensures Labels(lines) == LabelsTo(lines, |lines|)
  {
    hide LabelsTo;
  }

  lemma TestLabels()
    ensures At(Labels(TestLines()), COUNTER, 298, 3)
    ensures Resolve(Labels(TestLines()), Lab(MAIN, 0)) == 257
  {
    hide Labels, TestLines, Resolve;
    var env := Labels(TestLines());
    TestDefines(1, MAIN);
    TestLabel(MAIN, 1);
    LabelWord(env, MAIN, 257);
    TestDefines(21, COUNTER);
    TestLabel(COUNTER, 21);
    forall i: Word | i < 3
      ensures Resolve(env, Lab(COUNTER, i)) == 298 + i
    {
      NearLabel(env, COUNTER, i);
    }
  }

  lemma NearLabel(env: Env, name: string, i: Word)
    requires i < 3 && name in env && env[name] == 298
    ensures Resolve(env, Lab(name, i)) == 298 + i
  {
    hide AddBytes;
    AddBytesExact(i, 298);
    NearWord(i);
  }

  lemma NearWord(i: Word)
    requires i < 3
    ensures Low(i) + 298 % 256 < 256 && ToWord(i + 298) == 298 + i
  {
  }

  // ---------- the loop ----------

  lemma TestSpelled()
    ensures Spelled(TestLines(), 2, CounterLines(COUNTER, 3)) && |CounterLines(COUNTER, 3)| == 7
  {
    hide TestLine, ParseLine, TestLines;
    var sts := CounterLines(COUNTER, 3);
    CounterOfThree();
    forall i | 0 <= i < |sts|
      ensures ParseLine(TestLines()[2 + i]) == Some(sts[i])
    {
      TestParse(2 + i);
    }
  }

  lemma CounterOfThree()
    ensures CounterLines(COUNTER, 3)
         == [TestStmt(2), TestStmt(3), TestStmt(4), TestStmt(5), TestStmt(6), TestStmt(7), TestStmt(8)]
  {
    assert CarryLines(COUNTER, 2) == [TestStmt(3), TestStmt(4), TestStmt(5)] + CarryLines(COUNTER, 1);
    assert CarryLines(COUNTER, 1) == [TestStmt(6), TestStmt(7), TestStmt(8)] + CarryLines(COUNTER, 0);
  }

  lemma TestQuiet(i: nat)
    requires 9 <= i < 20
    ensures QuietLine(TestLines()[i])
  {
    hide TestLine, ParseLine, TestLines, LineItems;
    TestParse(i);
    if i == 16 {
      NothingEmitted(TestLines()[i]);
    }
  }

  lemma TestData()
    ensures CounterIsData(TestLines(), COUNTER, 298, 3)
  {
    hide TestLine, ParseLine, TestLines, At, AddressOf;
    TestLabels();
    TestParse(22);
    TestAddress(22);
    TestAddress(23);
    forall a: nat | 298 <= a < 301
      ensures IsData(TestLines(), a)
    {
      assert DataAt(TestLines(), 22, a);
    }
  }

  lemma TestLoops()
    ensures Loops(TestLines(), 2, 20, MAIN, COUNTER, 298, 3)
  {
    hide TestLine, ParseLine, TestLines, AddressOf, Spelled, CounterIsData, QuietLine, Resolve, Labels, CounterLines;
    TestSpelled();
    TestData();
    TestLabels();
    TestParse(20);
    TestAddress(2);
    forall i | 9 <= i < 20
      ensures QuietLine(TestLines()[i])
    {
      TestQuiet(i);
    }
  }

  // ---------- from the loaded program on ----------

  lemma TestSmall()
    ensures |OneShot(TestLines())| == 302
  {
    hide TestLines, ItemsTo, Labels, Encode, SizeOf;
    TestAddress(23);
  }

  lemma InterruptsOn(env: Env, s: State)
    requires s.pc == 256
    ensures MeaningDefined(env, Plain(Et), s)
    ensures Meaning(env, Plain(Et), s).mem == s.mem && Meaning(env, Plain(Et), s).pc == 257
  {
  }

  /** The data line holds the initial count. */
  lemma InitialCount(mem: Memory)
    requires CodeAt(mem, 256, Image(TestLines()))
    ensures Count(mem, 298, 3) == 0xfffffe
  {
    hide TestLines, ParseLine, AddressOf, Image, Encode, Count, Labels, Lower;
    TestParse(22);
    LineItemsIs(TestLines()[22]);
    ThreeBytes(Labels(TestLines()), 255, 255, 254);
    TestAddress(22);
    LineInMemory(TestLines(), 22, mem);
    CountOfThree(mem);
  }

  lemma CountOfThree(mem: Memory)
    requires CodeAt(mem, 298, [255, 255, 254])
    ensures Count(mem, 298, 3) == 0xfffffe
  {
    var bytes: seq<Byte> := [255, 255, 254];
    assert mem[298 + 0] == bytes[0] && mem[298 + 1] == bytes[1] && mem[298 + 2] == bytes[2];
    assert Count(mem, 298, 1) == 255;
    assert Count(mem, 298, 2) == 0xffff;
  }

  lemma ThreeDigits()
    ensures Pow256(3) == 0x1000000
  {
    assert Pow256(1) == 256;
    assert Pow256(2) == 65536;
  }

  /** Assembled and loaded, the program goes around its loop any number of times; after r rounds the
      three bytes of its data line hold 0xfffffe + r modulo 2^24. */
  lemma TestCounts(r: nat) returns (m: nat, k: nat, t: State)
    ensures |OneShot(TestLines())| < 65536
    ensures SourceRun(TestLines(), Loaded(TestLines()), m, t) && Run(Loaded(TestLines()), k, t) && k >= m > r
    ensures Count(t.mem, 298, 3) == (0xfffffe + r) % 0x1000000
  {
    hide *;
    TestSmall();
    var lines, s := TestLines(), Loaded(TestLines());
    LoadedIntact(lines);
    var u := InterruptLine(s);
    ImageLoaded(lines);
    InitialCount(s.mem);
    TestLoops();
    m, t := CountsForever(lines, 2, 20, MAIN, COUNTER, 298, 3, u, r);
    SourceRunsCompose(lines, s, 1, u, m, t);
    m := 1 + m;
    ThreeDigits();
    k := ProgramSim(lines, s, m, t);
  }

  lemma InterruptLine(s: State) returns (u: State)
    requires Intact(TestLines(), s.mem) && s.pc == AddressOf(TestLines(), 0)
    ensures SourceRun(TestLines(), s, 1, u) && u.mem == s.mem && u.pc == AddressOf(TestLines(), 2)
  {
    hide TestLines, AddressOf, ParseLine, Intact, Meaning, MeaningDefined, Labels, SourceRun, CanFollow, Follow;
    TestAddress(0);
    TestAddress(2);
    TestParse(0);
    InterruptsOn(Labels(TestLines()), s);
    LineFollows(TestLines(), 0, s);
    u := Follow(TestLines(), s);
    FollowedRun(TestLines(), s);
  }
}
