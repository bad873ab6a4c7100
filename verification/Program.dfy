/** Whole programs: a source-level run from line to line, and the machine run that follows it. */
module Program {
  import opened Words
  import opened Isa
  import opened Machine
  import opened Encoding
  import opened Syntax
  import opened Lowering
  import opened Source
  import opened Simulation

  type Lines = seq<seq<Token>>

  /** The bytes from PROGRAM_START on. */
  function Image(lines: Lines): seq<Byte> {
    Encode(Labels(lines), ProgramItems(lines)) + [HALT]
  }

  /** The code of line i is in memory as it was emitted. */
  ghost predicate LineHeld(lines: Lines, i: nat, mem: Memory)
    requires i < |lines|
  {
    CodeAt(mem, AddressOf(lines, i), Encode(Labels(lines), LineItems(lines[i])))
  }

  /** Line i holds a statement that is executed: not data, a definition, or nothing. */
  predicate IsCode(lines: Lines, i: nat)
    requires i < |lines|
  {
    ParseLine(lines[i]).Some? && Executable(ParseLine(lines[i]).value)
  }

  /** All code is in memory as it was emitted, and so is the final HALT. Data lines may hold
      anything. */
  ghost predicate Intact(lines: Lines, mem: Memory) {
    && AddressOf(lines, |lines|) < 65536
    && mem[AddressOf(lines, |lines|)] == HALT
    && forall i :: 0 <= i < |lines| && IsCode(lines, i) ==> LineHeld(lines, i, mem)
  }

  // ---------- lines and addresses ----------

  /** The line that emits code at address a, among the first n: control at a executes it. */
  function FindLine(lines: Lines, a: nat, n: nat): (r: Option<nat>)
    requires n <= |lines|
    ensures r.Some? ==> r.value < n
  {
    if n == 0 then None
    else if AddressOf(lines, n - 1) == a && LineItems(lines[n - 1]) != [] then Some(n - 1)
    else FindLine(lines, a, n - 1)
  }

  lemma {:induction false} FindLineMeaning(lines: Lines, a: nat, n: nat)
    requires n <= |lines|
    ensures var i := FindLine(lines, a, n);
            i.Some? ==> AddressOf(lines, i.value) == a && LineItems(lines[i.value]) != []
    ensures FindLine(lines, a, n).None? ==>
              forall i :: 0 <= i < n && AddressOf(lines, i) == a ==> LineItems(lines[i]) == []
  {
    hide AddressOf, LineItems;
    if n > 0 {
      FindLineMeaning(lines, a, n - 1);
    }
  }

  /** The next line starts where the code of a line ends. */
  lemma AddressNext(lines: Lines, i: nat)
    requires i < |lines|
    ensures AddressOf(lines, i + 1) == AddressOf(lines, i) + SizeOf(LineItems(lines[i]))
  {
    hide LineItems, SizeOf;
    EncodeConcat(map[], ItemsTo(lines, i), LineItems(lines[i]));
  }

  lemma {:induction false} AddressesGrow(lines: Lines, i: nat, k: nat)
    requires i <= k <= |lines|
    ensures AddressOf(lines, i) <= AddressOf(lines, k)
    decreases k
  {
    hide AddressOf;
    if i < k {
      AddressesGrow(lines, i, k - 1);
      AddressNext(lines, k - 1);
    }
  }

  /** Control at the address of a line that emits something is at that line. */
  lemma LineFound(lines: Lines, i: nat)
    requires i < |lines| && LineItems(lines[i]) != []
    ensures FindLine(lines, AddressOf(lines, i), |lines|) == Some(i)
  {
    hide AddressOf, LineItems, FindLine;
    var a := AddressOf(lines, i);
    FindLineMeaning(lines, a, |lines|);
    var k := FindLine(lines, a, |lines|).value;
    LineTakesRoom(lines, i);
    LineTakesRoom(lines, k);
    if k < i {
      AddressesGrow(lines, k + 1, i);
    } else if i < k {
      AddressesGrow(lines, i + 1, k);
    }
  }

  lemma LineTakesRoom(lines: Lines, i: nat)
    requires i < |lines| && LineItems(lines[i]) != []
    ensures AddressOf(lines, i) < AddressOf(lines, i + 1)
  {
    hide AddressOf, LineItems;
    AddressNext(lines, i);
  }

  /** The code of line i lies between the code of the lines before it and of those after it. */
  lemma {:induction false} ItemsAround(lines: Lines, i: nat, n: nat) returns (rest: seq<Item>)
    requires i < n <= |lines|
    ensures AllWellFormed(rest)
    ensures ItemsTo(lines, n) == ItemsTo(lines, i) + LineItems(lines[i]) + rest
  {
    hide LineItems, WellFormed;
    if i == n - 1 {
      rest := [];
    } else {
      rest := ItemsAround(lines, i, n - 1);
      rest := rest + LineItems(lines[n - 1]);
    }
  }

  lemma ImageOfLine(lines: Lines, i: nat) returns (post: seq<Byte>)
    requires i < |lines|
    ensures Image(lines) == Encode(Labels(lines), ItemsTo(lines, i))
                            + Encode(Labels(lines), LineItems(lines[i])) + post
    ensures |post| >= 1
  {
    hide *;
    var env, before, here := Labels(lines), ItemsTo(lines, i), LineItems(lines[i]);
    var rest := ItemsAround(lines, i, |lines|);
    EncodeConcat(env, before, here);
    EncodeConcat(env, before + here, rest);
    ImageIs(lines);
    post := Encode(env, rest) + [HALT];
  }

  lemma ImageIs(lines: Lines)
    ensures Image(lines) == Encode(Labels(lines), ItemsTo(lines, |lines|)) + [HALT]
  {
    hide Encode, Labels, ItemsTo;
  }

  /** With the whole image in memory, so is the code of each line. */
  lemma LineInMemory(lines: Lines, i: nat, mem: Memory)
    requires i < |lines| && CodeAt(mem, 256, Image(lines))
    ensures LineHeld(lines, i, mem)
  {
    hide Encode, Labels, ItemsTo, LineItems, Image;
    var post := ImageOfLine(lines, i);
    var a, b := Encode(Labels(lines), ItemsTo(lines, i)), Encode(Labels(lines), LineItems(lines[i]));
    assert a + b + post == a + (b + post);
    CodeSplit(mem, 256, a, b + post);
    CodeSplit(mem, 256 + |a|, b, post);
  }

  /** And the appended HALT right after the last line. */
  lemma EndInMemory(lines: Lines, mem: Memory)
    requires CodeAt(mem, 256, Image(lines))
    ensures AddressOf(lines, |lines|) < 65536 && mem[AddressOf(lines, |lines|)] == HALT
  {
    hide Encode, Labels, ItemsTo, Image;
    ImageIs(lines);
    var code := Encode(Labels(lines), ItemsTo(lines, |lines|));
    CodeSplit(mem, 256, code, [HALT]);
    assert [HALT][0] == HALT;
  }

  lemma ImageIntact(lines: Lines, mem: Memory)
    requires CodeAt(mem, 256, Image(lines))
    ensures Intact(lines, mem)
  {
    hide Image, LineHeld, AddressOf, IsCode;
    EndInMemory(lines, mem);
    forall i | 0 <= i < |lines|
      ensures LineHeld(lines, i, mem)
    {
      LineInMemory(lines, i, mem);
    }
  }

  // ---------- source-level runs ----------

  /** The program can be followed for one more line: control is at a line that can be executed, its
      code is in memory as it was emitted, and executing it keeps its meaning. Nothing else in
      memory matters, neither data nor the code of other lines. */
  ghost predicate CanFollow(lines: Lines, s: State) {
    && var i := FindLine(lines, s.pc, |lines|);
       && i.Some? && LineHeld(lines, i.value, s.mem)
       && var st := ParseLine(lines[i.value]);
          st.Some? && MeaningDefined(Labels(lines), st.value, s)
  }

  ghost function Follow(lines: Lines, s: State): State
    requires CanFollow(lines, s)
  {
    var i := FindLine(lines, s.pc, |lines|).value;
    Meaning(Labels(lines), ParseLine(lines[i]).value, s)
  }

  /** n lines, each executed by its meaning, lead from s to t. */
  ghost predicate SourceRun(lines: Lines, s: State, n: nat, t: State)
    decreases n
  {
    if n == 0 then s == t else CanFollow(lines, s) && SourceRun(lines, Follow(lines, s), n - 1, t)
  }

  /** One line is one or two instructions. */
  lemma FollowSim(lines: Lines, s: State) returns (k: nat)
    requires CanFollow(lines, s)
    ensures 1 <= k <= 2 && Run(s, k, Follow(lines, s))
    ensures k == 2 ==> CanStep(s) && !Halted(Step(s))
  {
    var i := FindLine(lines, s.pc, |lines|).value;
    hide *;
    k := LineSim(lines, i, s);
    if k == 2 {
      LineMiddle(lines, i, s);
    }
  }

  lemma LineSim(lines: Lines, i: nat, s: State) returns (k: nat)
    requires CanFollow(lines, s) && FindLine(lines, s.pc, |lines|) == Some(i)
    ensures 1 <= k <= 2 && k == |LineItems(lines[i])| && Run(s, k, Follow(lines, s))
  {
    hide Run, Meaning, MeaningDefined, ParseLine, Labels, Encode, Lower, AddressOf, FindLine, LineItems, Image;
    FindLineMeaning(lines, s.pc, |lines|);
    var env, st := Labels(lines), ParseLine(lines[i]).value;
    LineItemsIs(lines[i]);
    LowerLength(env, st, s);
    MeaningFits(env, st, s);
    hide CanFollow, Follow;
    StatementSim(env, st, s);
    k := |Lower(st)|;
  }

  lemma LineItemsIs(line: seq<Token>)
    requires ParseLine(line).Some?
    ensures LineItems(line) == Lower(ParseLine(line).value)
  {
    hide ParseLine, Lower;
  }

  lemma MeaningFits(env: Env, st: Stmt, s: State)
    requires MeaningDefined(env, st, s)
    ensures Legal(st) && s.pc + SizeOf(Lower(st)) < 65536
  {
    hide Lower, SizeOf, Legal;
  }

  lemma LowerLength(env: Env, st: Stmt, s: State)
    requires MeaningDefined(env, st, s)
    ensures |Lower(st)| <= 2
  {
  }

  /** Compiler correctness: however long the source-level run, the machine follows it, in at most
      twice as many steps. */
  lemma {:induction false} ProgramSim(lines: Lines, s: State, n: nat, t: State) returns (m: nat)
    requires SourceRun(lines, s, n, t)
    ensures n <= m <= 2 * n && Run(s, m, t)
    decreases n
  {
    if n == 0 {
      hide *;
      RunZero(lines, s, t);
      m := 0;
    } else {
      hide *;
      SourceRunStep(lines, s, n, t);
      var u := Follow(lines, s);
      var k := FollowSim(lines, s);
      m := ProgramSim(lines, u, n - 1, t);
      RunsCompose(s, k, u, m, t);
      m := k + m;
    }
  }

  lemma RunZero(lines: Lines, s: State, t: State)
    requires SourceRun(lines, s, 0, t)
    ensures Run(s, 0, t)
  {
  }

  lemma SourceRunStep(lines: Lines, s: State, n: nat, t: State)
    requires n > 0 && SourceRun(lines, s, n, t)
    ensures CanFollow(lines, s) && SourceRun(lines, Follow(lines, s), n - 1, t)
  {
    hide CanFollow, Follow;
  }

  // ---------- halting ----------

  /** Control is at a HALT line, or past the last line at the HALT appended there. */
  ghost predicate AtHalt(lines: Lines, s: State) {
    (s.pc == AddressOf(lines, |lines|) && s.mem[s.pc] == HALT) || AtHaltLine(lines, s)
  }

  ghost predicate AtHaltLine(lines: Lines, s: State) {
    var i := FindLine(lines, s.pc, |lines|);
    i.Some? && LineHeld(lines, i.value, s.mem) && ParseLine(lines[i.value]) == Some(Plain(Halt))
  }

  /** The source-level counterpart of the CPU's loop: the program is followed for exactly n lines
      before control is at a HALT again. */
  ghost predicate SourceHaltsIn(lines: Lines, s: State, n: nat)
    decreases n
  {
    && n > 0
    && CanFollow(lines, s)
    && if AtHalt(lines, Follow(lines, s)) then n == 1 else SourceHaltsIn(lines, Follow(lines, s), n - 1)
  }

  lemma FirstOpcode(lines: Lines, i: nat, s: State)
    requires FindLine(lines, s.pc, |lines|) == Some(i) && LineHeld(lines, i, s.mem)
    requires LineItems(lines[i]) != [] && LineItems(lines[i])[0].Ins?
    ensures Exists(LineItems(lines[i])[0].op)
    ensures s.mem[s.pc] == Opcode(LineItems(lines[i])[0].op)
  {
    hide AddressOf, FindLine, LineItems, Labels, Opcode, Encode, Exists;
    FindLineMeaning(lines, s.pc, |lines|);
    FirstByte(Labels(lines), LineItems(lines[i]));
  }

  lemma FirstByte(env: Env, items: seq<Item>)
    requires AllWellFormed(items) && items != [] && items[0].Ins?
    ensures Exists(items[0].op) && |Encode(env, items)| > 0 && Encode(env, items)[0] == Opcode(items[0].op)
  {
    hide Opcode, ArgBytes, Exists, Length;
    assert WellFormed(items[0]);
  }

  /** Only HALT has the opcode of HALT. */
  lemma HaltOnly(op: Op)
    requires Exists(op) && Opcode(op) == HALT
    ensures op == Halt
  {
    hide Opcode, Decode, Exists;
    HaltOpcode();
    DecodeOpcode(op);
    DecodeOpcode(Halt);
  }

  lemma LowerShape(env: Env, st: Stmt, s: State)
    requires MeaningDefined(env, st, s)
    ensures forall i :: 0 <= i < |Lower(st)| ==> Lower(st)[i].Ins?
    ensures |Lower(st)| > 0 && (st != Plain(Halt) ==> Lower(st)[0].op != Halt)
    ensures |Lower(st)| == 2 ==> && Lower(st)[0].op in {LoadHLI, AddHLI, AddLI}
                                 && Lower(st)[1].op.Do? && Lower(st)[1].arg == NoArg
  {
  }

  /** At a line that can be executed the machine is at a HALT exactly if the line is one. */
  lemma HaltedIffHaltLine(lines: Lines, s: State)
    requires CanFollow(lines, s)
    ensures Halted(s) <==> AtHaltLine(lines, s)
  {
    var i := FindLine(lines, s.pc, |lines|).value;
    var st := ParseLine(lines[i]).value;
    hide Encode, AddressOf, FindLine, LineItems, Labels, Opcode, ParseLine, Lower, MeaningDefined, LineHeld, Exists;
    LowerShape(Labels(lines), st, s);
    FindLineMeaning(lines, s.pc, |lines|);
    LineItemsIs(lines[i]);
    FirstOpcode(lines, i, s);
    HaltOpcode();
    if Halted(s) {
      HaltOnly(Lower(st)[0].op);
    }
  }

  lemma AtHaltIsHalted(lines: Lines, s: State)
    requires AtHalt(lines, s)
    ensures Halted(s)
  {
    if AtHaltLine(lines, s) {
      hide Encode, AddressOf, FindLine, Labels, Opcode, LineHeld, ParseLine;
      var i := FindLine(lines, s.pc, |lines|).value;
      FindLineMeaning(lines, s.pc, |lines|);
      LineItemsIs(lines[i]);
      FirstOpcode(lines, i, s);
      HaltOpcode();
    }
  }

  /** The machine is halted exactly at HALT lines and past the last line. */
  lemma HaltedIffAtHalt(lines: Lines, s: State)
    requires CanFollow(lines, s) || (Intact(lines, s.mem) && s.pc == AddressOf(lines, |lines|))
    ensures Halted(s) <==> AtHalt(lines, s)
  {
    hide CanFollow, AtHaltLine, AddressOf;
    if AtHalt(lines, s) {
      AtHaltIsHalted(lines, s);
    } else if CanFollow(lines, s) {
      HaltedIffHaltLine(lines, s);
    }
  }

  /** Between the two instructions of a line the machine is not at a HALT. */
  lemma MiddleNotHalted(env: Env, a: Item, b: Item, s: State)
    requires a.Ins? && b.Ins? && WellFormed(a) && WellFormed(b) && AllWellFormed([a, b])
    requires Holding(env, [a, b], s)
    requires a.op in {LoadHLI, AddHLI, AddLI} && b.op.Do? && b.arg == NoArg
    ensures CanStep(s) && !Halted(Step(s))
  {
    hide Encode, ItemBytes, Resolve, Opcode, Exists, Join, CanStep, Step;
    EncodeTwo(env, a, b);
    HoldingRest(env, a, b, s, s.(pc := s.pc + ItemSize(a)));
    HoldingOne(env, a, s);
    FetchItem(env, a, s);
    ExistsOf(a);
    StepExec(s, a.op);
    var t := Exec(a.op, s);
    assert t.mem == s.mem && t.pc == s.pc + ItemSize(a);
    HoldingRest(env, a, b, s, t);
    HoldingOne(env, b, t);
    FetchItem(env, b, t);
    ExistsOf(b);
    if Halted(t) {
      HaltOnly(b.op);
    }
  }

  lemma LineMiddle(lines: Lines, i: nat, s: State)
    requires CanFollow(lines, s) && FindLine(lines, s.pc, |lines|) == Some(i)
    requires |LineItems(lines[i])| == 2
    ensures CanStep(s) && !Halted(Step(s))
  {
    var st := ParseLine(lines[i]).value;
    hide Encode, AddressOf, FindLine, LineItems, Labels, ParseLine, Lower, MeaningDefined, WellFormed, CanStep, Step;
    FindLineMeaning(lines, s.pc, |lines|);
    LineItemsIs(lines[i]);
    LowerShape(Labels(lines), st, s);
    MeaningFits(Labels(lines), st, s);
    var items := LineItems(lines[i]);
    assert items == [items[0], items[1]];
    MiddleNotHalted(Labels(lines), items[0], items[1], s);
  }

  lemma SourceHaltsStep(lines: Lines, s: State, n: nat, t: State)
    requires SourceHaltsIn(lines, s, n) && SourceRun(lines, s, n, t)
    ensures n >= 1 && CanFollow(lines, s)
    ensures var u := Follow(lines, s);
            if n == 1 then AtHalt(lines, u) && t == u
            else !AtHaltLine(lines, u) && SourceHaltsIn(lines, u, n - 1) && SourceRun(lines, u, n - 1, t)
  {
    hide CanFollow, Follow, AtHaltLine;
    assert n == 1 ==> SourceRun(lines, Follow(lines, s), 0, t);
  }

  lemma HaltsOneMore(s: State, m: nat)
    requires CanStep(s)
    requires if m == 0 then Halted(Step(s)) else !Halted(Step(s)) && HaltsIn(Step(s), m)
    ensures HaltsIn(s, m + 1)
  {
    hide CanStep, Step;
  }

  lemma RunUnfold(s: State, k: nat, t: State)
    requires 1 <= k <= 2 && Run(s, k, t)
    ensures CanStep(s)
    ensures k == 1 ==> Step(s) == t
    ensures k == 2 ==> CanStep(Step(s)) && Step(Step(s)) == t
  {
    hide CanStep, Step;
    if k == 2 {
      assert Run(Step(s), 1, t);
      assert Run(Step(Step(s)), 0, t);
    } else {
      assert Run(Step(s), 0, t);
    }
  }

  /** A source-level run that halts is a run of the CPU's loop that halts in the same state. */
  lemma {:induction false} HaltSim(lines: Lines, s: State, n: nat, t: State) returns (m: nat)
    requires SourceHaltsIn(lines, s, n) && SourceRun(lines, s, n, t)
    ensures HaltsIn(s, m) && Run(s, m, t) && n <= m <= 2 * n
    decreases n
  {
    hide *;
    SourceHaltsStep(lines, s, n, t);
    var u := Follow(lines, s);
    var k := FollowSim(lines, s);
    RunUnfold(s, k, u);
    m := 0;
    if n == 1 {
      AtHaltIsHalted(lines, u);
      RunNone(u);
    } else {
      HaltsCanFollow(lines, u, n - 1);
      HaltedIffHaltLine(lines, u);
      m := HaltSim(lines, u, n - 1, t);
    }
    RunsCompose(s, k, u, m, t);
    if k == 2 {
      HaltsOneMore(Step(s), m);
      HaltsOneMore(s, m + 1);
    } else {
      HaltsOneMore(s, m);
    }
    m := m + k;
  }

  lemma RunNone(s: State)
    ensures Run(s, 0, s)
  {
  }

  lemma HaltsCanFollow(lines: Lines, u: State, n: nat)
    requires SourceHaltsIn(lines, u, n)
    ensures n > 0 && CanFollow(lines, u)
  {
    hide CanFollow, Follow;
  }
}
