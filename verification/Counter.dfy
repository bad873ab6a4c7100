/** The multi-byte counter of programs/test.casm, for any number of bytes: INC on the last byte, then
    `LOAD 0; ADC; STORE` on each byte before it. */
module Counter {
  import opened Words
  import opened Isa
  import opened Machine
  import opened Encoding
  import opened Syntax
  import opened Lowering
  import opened Source
  import opened Simulation
  import opened Carry

  // ---------- the lines ----------

  function CounterByte(name: string, i: Word): Operand { Labelled(name, MemExpr(Absolute, i)) }

  /** The lines that pass the carry on to the first k bytes, the k-th first. */
  function CarryLines(name: string, k: nat): seq<Stmt>
    requires k < 65536
  {
    if k == 0 then []
    else [Use(Load, Immediate(0)), Use(Alu(ADC), CounterByte(name, k - 1)), Use(Store, CounterByte(name, k - 1))]
         + CarryLines(name, k - 1)
  }

  function CounterLines(name: string, n: nat): seq<Stmt>
    requires 0 < n < 65536
  {
    [Use(Unary(INC), CounterByte(name, n - 1))] + CarryLines(name, n - 1)
  }

  /** The number in the n bytes from address a on, highest first. */
  function Count(mem: Memory, a: nat, n: nat): nat
    requires a + n <= 65536
    decreases n
  {
    if n == 0 then 0 else 256 * Count(mem, a, n - 1) + mem[a + n - 1]
  }

  lemma {:induction false} CountBound(mem: Memory, a: nat, n: nat)
    requires a + n <= 65536
    ensures Count(mem, a, n) < Pow256(n)
    decreases n
  {
    if n > 0 {
      CountBound(mem, a, n - 1);
    }
  }

  lemma {:induction false} CountFrame(mem: Memory, mem': Memory, a: nat, n: nat)
    requires a + n <= 65536 && forall i :: a <= i < a + n ==> mem'[i] == mem[i]
    ensures Count(mem', a, n) == Count(mem, a, n)
    decreases n
  {
    if n > 0 {
      CountFrame(mem, mem', a, n - 1);
    }
  }

  // ---------- executing lines one after the other ----------

  /** The lines' code is held in memory at PC, before each of them, and executing them in order
      leads from s to t. */
  ghost predicate Executes(env: Env, lines: seq<Stmt>, s: State, t: State)
    decreases |lines|
  {
    if lines == [] then s == t
    else Held(env, lines[0], s) && Executes(env, lines[1..], Meaning(env, lines[0], s), t)
  }

  lemma ExecutesParts(env: Env, lines: seq<Stmt>, s: State, t: State)
    requires Executes(env, lines, s, t)
    ensures lines == [] ==> s == t
    ensures lines != [] ==>
              && Held(env, lines[0], s) && MeaningDefined(env, lines[0], s)
              && Executes(env, lines[1..], Meaning(env, lines[0], s), t)
  {
    hide MeaningDefined, Meaning, Holding, Lower, AllWellFormed;
  }

  /** The machine executes them. */
  lemma {:induction false} ExecutesRuns(env: Env, lines: seq<Stmt>, s: State, t: State) returns (n: nat)
    requires Executes(env, lines, s, t)
    ensures Run(s, n, t)
    decreases |lines|
  {
    hide *;
    ExecutesParts(env, lines, s, t);
    n := 0;
    if lines == [] {
      Stay(s);
    } else {
      StatementSim(env, lines[0], s);
      SimulatedRun(env, lines[0], s);
      var m := ExecutesRuns(env, lines[1..], Meaning(env, lines[0], s), t);
      n := |Lower(lines[0])| + m;
      RunsCompose(s, |Lower(lines[0])|, Meaning(env, lines[0], s), m, t);
    }
  }

  lemma Stay(s: State)
    ensures Run(s, 0, s)
  {
  }

  lemma SimulatedRun(env: Env, st: Stmt, s: State)
    requires MeaningDefined(env, st, s) && Simulated(env, st, s)
    ensures Run(s, |Lower(st)|, Meaning(env, st, s))
  {
    hide Lower, Meaning, MeaningDefined;
  }

  // ---------- the three kinds of line ----------

  /** The label with each index resolves to the counter's bytes from address a on: for the patching
      to get there, no low bytes may carry. */
  ghost predicate At(env: Env, name: string, a: nat, n: nat) {
    a + n <= 65536 && forall i: Word :: i < n ==> Resolve(env, Lab(name, i)) == a + i
  }

  lemma AtOne(env: Env, name: string, a: nat, n: nat, i: Word)
    requires At(env, name, a, n) && i < n
    ensures Resolve(env, Lab(name, i)) == a + i
  {
  }

  lemma MeaningOfUse(env: Env, kind: Kind, o: Operand, s: State)
    requires MeaningDefined(env, Use(kind, o), s)
    ensures UseDefined(env, kind, o, s)
    ensures Meaning(env, Use(kind, o), s) == UseMeaning(env, kind, o, s).(pc := s.pc + StmtSize(Use(kind, o)))
  {
    hide UseDefined, UseMeaning, StmtSize;
  }

  lemma ClearsLine(env: Env, s: State)
    requires MeaningDefined(env, Use(Load, Immediate(0)), s)
    ensures var t := Meaning(env, Use(Load, Immediate(0)), s); t.acc == 0 && t.f.cf == s.f.cf && t.mem == s.mem
  {
    hide Meaning, MeaningDefined;
    MeaningOfUse(env, Load, Immediate(0), s);
  }

  lemma DirectByte(env: Env, kind: Kind, name: string, i: Word, s: State, at: Word)
    requires UseDefined(env, kind, CounterByte(name, i), s) && Resolve(env, Lab(name, i)) == at
    ensures var u := if HasMemImm(kind) then s else SetHL(s, at);
            && Performs(kind, Cell(at), u)
            && UseMeaning(env, kind, CounterByte(name, i), s) == Perform(kind, Cell(at), u)
  {
    hide Perform, Performs, Resolve;
  }

  lemma AddsLine(env: Env, name: string, i: Word, s: State, at: Word)
    requires MeaningDefined(env, Use(Alu(ADC), CounterByte(name, i)), s) && Resolve(env, Lab(name, i)) == at
    ensures var t := Meaning(env, Use(Alu(ADC), CounterByte(name, i)), s);
            t.acc + 256 * Bit(t.f.cf) == s.acc + s.mem[at] + Bit(s.f.cf) && t.mem == s.mem
  {
    hide Meaning, MeaningDefined, UseMeaning, UseDefined, Resolve, ZeroSign, StmtSize, Perform;
    MeaningOfUse(env, Alu(ADC), CounterByte(name, i), s);
    DirectByte(env, Alu(ADC), name, i, s, at);
    PerformAdc(at, SetHL(s, at));
  }

  lemma PerformAdc(at: Word, s: State)
    ensures var t := Perform(Alu(ADC), Cell(at), s);
            t.acc + 256 * Bit(t.f.cf) == s.acc + s.mem[at] + Bit(s.f.cf) && t.mem == s.mem
  {
    hide ZeroSign;
  }

  lemma StoresLine(env: Env, name: string, i: Word, s: State, at: Word)
    requires MeaningDefined(env, Use(Store, CounterByte(name, i)), s) && Resolve(env, Lab(name, i)) == at
    ensures var t := Meaning(env, Use(Store, CounterByte(name, i)), s);
            t.mem == s.mem[at := s.acc] && t.f.cf == s.f.cf
  {
    hide Meaning, MeaningDefined, UseMeaning, UseDefined, Resolve, StmtSize;
    MeaningOfUse(env, Store, CounterByte(name, i), s);
    DirectByte(env, Store, name, i, s, at);
  }

  lemma IncrementsLine(env: Env, name: string, i: Word, s: State, at: Word)
    requires MeaningDefined(env, Use(Unary(INC), CounterByte(name, i)), s) && Resolve(env, Lab(name, i)) == at
    ensures var t := Meaning(env, Use(Unary(INC), CounterByte(name, i)), s);
            && t.mem == s.mem[at := UnaryValue(INC, s.mem[at])]
            && t.f.cf == (s.mem[at] == 255)
  {
    hide Meaning, MeaningDefined, UseMeaning, UseDefined, Resolve, StmtSize, ZeroSign;
    MeaningOfUse(env, Unary(INC), CounterByte(name, i), s);
    DirectByte(env, Unary(INC), name, i, s, at);
  }

  // ---------- the carry goes up ----------

  /** Only the counter's first k bytes may differ. */
  ghost predicate Elsewhere(mem: Memory, mem': Memory, a: nat, k: nat) {
    forall i :: 0 <= i < 65536 && !(a <= i < a + k) ==> mem'[i] == mem[i]
  }

  lemma CarryLinesAre(name: string, k: nat)
    requires 0 < k < 65536
    ensures var ls := CarryLines(name, k);
            && |ls| >= 3
            && ls[0] == Use(Load, Immediate(0)) && ls[1..][0] == Use(Alu(ADC), CounterByte(name, k - 1))
            && ls[1..][1..][0] == Use(Store, CounterByte(name, k - 1)) && ls[1..][1..][1..] == CarryLines(name, k - 1)
  {
  }

  lemma {:induction false} CarryUp(env: Env, name: string, a: nat, k: nat, s: State, t: State)
    requires k < 65536 && At(env, name, a, k) && Executes(env, CarryLines(name, k), s, t)
    ensures a + k <= 65536 && Elsewhere(s.mem, t.mem, a, k)
    ensures Count(t.mem, a, k) + Pow256(k) * Bit(t.f.cf) == Count(s.mem, a, k) + Bit(s.f.cf)
    decreases k
  {
    hide *;
    Within(env, name, a, k);
    if k == 0 {
      NoCarryLines(env, name, a, s, t);
    } else {
      CarryLinesAre(name, k);
      var ls := CarryLines(name, k);
      ExecutesParts(env, ls, s, t);
      var u := Meaning(env, ls[0], s);
      ClearsLine(env, s);
      ExecutesParts(env, ls[1..], u, t);
      var v := Meaning(env, ls[1..][0], u);
      AtOne(env, name, a, k, k - 1);
      AddsLine(env, name, k - 1, u, a + k - 1);
      ExecutesParts(env, ls[1..][1..], v, t);
      var w := Meaning(env, ls[1..][1..][0], v);
      StoresLine(env, name, k - 1, v, a + k - 1);
      AtFewer(env, name, a, k);
      CarryUp(env, name, a, k - 1, w, t);
      OneByteUp(s.mem, w.mem, t.mem, a, k, v.acc, s.f.cf, w.f.cf, t.f.cf);
    }
  }

  lemma Within(env: Env, name: string, a: nat, k: nat)
    requires At(env, name, a, k)
    ensures a + k <= 65536
  {
  }

  lemma AtFewer(env: Env, name: string, a: nat, k: nat)
    requires At(env, name, a, k) && k > 0
    ensures At(env, name, a, k - 1)
  {
    hide Resolve;
  }

  lemma NoCarryLines(env: Env, name: string, a: nat, s: State, t: State)
    requires a <= 65536 && Executes(env, CarryLines(name, 0), s, t)
    ensures Elsewhere(s.mem, t.mem, a, 0)
    ensures Count(t.mem, a, 0) + Pow256(0) * Bit(t.f.cf) == Count(s.mem, a, 0) + Bit(s.f.cf)
  {
  }

  lemma OneByteUp(m: Memory, m': Memory, m'': Memory, a: nat, k: nat, v: Byte, c: bool, c': bool, d: bool)
    requires 0 < k && a + k <= 65536 && m' == m[a + k - 1 := v]
    requires v + 256 * Bit(c') == m[a + k - 1] + Bit(c)
    requires Elsewhere(m', m'', a, k - 1)
    requires Count(m'', a, k - 1) + Pow256(k - 1) * Bit(d) == Count(m', a, k - 1) + Bit(c')
    ensures Elsewhere(m, m'', a, k)
    ensures Count(m'', a, k) + Pow256(k) * Bit(d) == Count(m, a, k) + Bit(c)
  {
    hide Count, Pow256;
    CountFrame(m, m', a, k - 1);
    CountStep(m, a, k);
    CountStep(m'', a, k);
    NextPower(k, Bit(d));
    assert m''[a + k - 1] == v;
  }

  lemma CountStep(mem: Memory, a: nat, n: nat)
    requires 0 < n && a + n <= 65536
    ensures Count(mem, a, n) == 256 * Count(mem, a, n - 1) + mem[a + n - 1]
  {
  }

  // ---------- the counter ----------

  /** Executing the counter's lines adds one modulo 256^n, sets the carry flag exactly when the
      count wraps to zero, and changes no other memory. */
  lemma CounterCounts(env: Env, name: string, a: nat, n: nat, s: State, t: State)
    requires 0 < n < 65536 && At(env, name, a, n) && Executes(env, CounterLines(name, n), s, t)
    ensures a + n <= 65536 && Elsewhere(s.mem, t.mem, a, n)
    ensures Count(t.mem, a, n) == (Count(s.mem, a, n) + 1) % Pow256(n)
    ensures t.f.cf <==> Count(t.mem, a, n) == 0
  {
    hide *;
    Within(env, name, a, n);
    CounterLinesAre(name, n);
    var ls := CounterLines(name, n);
    ExecutesParts(env, ls, s, t);
    var u := Meaning(env, ls[0], s);
    AtOne(env, name, a, n, n - 1);
    IncrementsLine(env, name, n - 1, s, a + n - 1);
    AtFewer(env, name, a, n);
    CarryUp(env, name, a, n - 1, u, t);
    FirstByte(s.mem, u.mem, t.mem, a, n, u.f.cf, t.f.cf);
    Wrap(s.mem, t.mem, a, n, t.f.cf);
  }

  lemma CounterLinesAre(name: string, n: nat)
    requires 0 < n < 65536
    ensures var ls := CounterLines(name, n);
            ls != [] && ls[0] == Use(Unary(INC), CounterByte(name, n - 1)) && ls[1..] == CarryLines(name, n - 1)
  {
  }

  lemma FirstByte(m: Memory, m': Memory, m'': Memory, a: nat, n: nat, c: bool, d: bool)
    requires 0 < n && a + n <= 65536
    requires m' == m[a + n - 1 := UnaryValue(INC, m[a + n - 1])] && c == (m[a + n - 1] == 255)
    requires Elsewhere(m', m'', a, n - 1)
    requires Count(m'', a, n - 1) + Pow256(n - 1) * Bit(d) == Count(m', a, n - 1) + Bit(c)
    ensures Elsewhere(m, m'', a, n)
    ensures Count(m'', a, n) + Pow256(n) * Bit(d) == Count(m, a, n) + 1
  {
    hide Count, Pow256;
    OneByteUp(m, m', m'', a, n, UnaryValue(INC, m[a + n - 1]), true, c, d);
  }

  lemma Wrap(m: Memory, m': Memory, a: nat, n: nat, d: bool)
    requires a + n <= 65536 && Count(m', a, n) + Pow256(n) * Bit(d) == Count(m, a, n) + 1
    ensures Count(m', a, n) == (Count(m, a, n) + 1) % Pow256(n)
    ensures d <==> Count(m', a, n) == 0
  {
    hide Count, Pow256;
    CountBound(m, a, n);
    CountBound(m', a, n);
    RemainderUnique(Count(m, a, n) + 1, Pow256(n), Bit(d), Count(m', a, n));
  }

  // ---------- the lines do execute ----------

  function LowerAll(lines: seq<Stmt>): (items: seq<Item>)
    requires forall i :: 0 <= i < |lines| ==> Legal(lines[i])
    ensures AllWellFormed(items)
    decreases |lines|
  {
    if lines == [] then [] else LowerWellFormed(lines[0]); Lower(lines[0]) + LowerAll(lines[1..])
  }

  /** A line of a counter of n bytes. */
  predicate CounterLine(st: Stmt, name: string, n: nat) {
    && st.Use?
    && (st.kind in {Unary(INC), Alu(ADC), Store} ==>
          && st.operand.Labelled? && st.operand.name == name
          && st.operand.index.base == Absolute && st.operand.index.disp < n)
    && (st.kind !in {Unary(INC), Alu(ADC), Store} ==> st.kind == Load && st.operand == Immediate(0))
  }

  predicate AllCounterLines(lines: seq<Stmt>, name: string, n: nat) {
    forall i :: 0 <= i < |lines| ==> CounterLine(lines[i], name, n)
  }

  lemma CounterLineLegal(st: Stmt, name: string, n: nat)
    requires CounterLine(st, name, n)
    ensures Legal(st) && Executable(st)
  {
  }

  /** A counter line is always defined, goes on to the next line, and writes the counter only. */
  lemma CounterLineKeeps(env: Env, st: Stmt, name: string, a: nat, n: nat, s: State)
    requires CounterLine(st, name, n) && At(env, name, a, n) && s.pc + StmtSize(st) < 65536
    ensures a + n <= 65536 && MeaningDefined(env, st, s)
    ensures var t := Meaning(env, st, s); t.pc == s.pc + StmtSize(st) && Elsewhere(s.mem, t.mem, a, n)
  {
    hide *;
    Within(env, name, a, n);
    CounterLineLegal(st, name, n);
    if st == Use(Load, Immediate(0)) {
      LoadDefined(env, s);
      ClearsLine(env, s);
      SameElsewhere(s.mem, a, n);
    } else {
      OtherLine(st, name, n);
      var i := st.operand.index.disp;
      AtOne(env, name, a, n, i);
      DirectDefined(env, st, name, i, s);
      if st.kind == Unary(INC) {
        IncrementsLine(env, name, i, s, a + i);
      } else if st.kind == Alu(ADC) {
        AddsLine(env, name, i, s, a + i);
        SameElsewhere(s.mem, a, n);
      } else {
        StoresLine(env, name, i, s, a + i);
      }
      WriteElsewhere(s.mem, Meaning(env, st, s).mem, a, n, i);
    }
    MeaningPc(env, st, s);
  }

  lemma OtherLine(st: Stmt, name: string, n: nat)
    requires CounterLine(st, name, n) && st != Use(Load, Immediate(0))
    ensures st.Use? && st.operand.Labelled? && st.operand.index.disp < n
    ensures st.kind in {Unary(INC), Alu(ADC), Store} && st.operand == CounterByte(name, st.operand.index.disp)
  {
  }

  lemma SameElsewhere(mem: Memory, a: nat, n: nat)
    ensures Elsewhere(mem, mem, a, n)
  {
  }

  lemma WriteElsewhere(mem: Memory, mem': Memory, a: nat, n: nat, i: nat)
    requires a + n <= 65536 && i < n && forall k :: 0 <= k < 65536 && k != a + i ==> mem'[k] == mem[k]
    ensures Elsewhere(mem, mem', a, n)
  {
  }

  lemma LoadDefined(env: Env, s: State)
    requires s.pc + StmtSize(Use(Load, Immediate(0))) < 65536
    ensures MeaningDefined(env, Use(Load, Immediate(0)), s)
  {
    hide StmtSize;
  }

  lemma DirectDefined(env: Env, st: Stmt, name: string, i: Word, s: State)
    requires st.Use? && st.kind in {Unary(INC), Alu(ADC), Store} && st.operand == CounterByte(name, i)
    requires s.pc + StmtSize(st) < 65536
    ensures MeaningDefined(env, st, s)
  {
    hide StmtSize, Resolve;
  }

  lemma MeaningPc(env: Env, st: Stmt, s: State)
    requires st.Use? && MeaningDefined(env, st, s)
    ensures Meaning(env, st, s).pc == s.pc + StmtSize(st)
  {
    hide UseMeaning, UseDefined, StmtSize;
  }

  /** When the lines' code is in memory at PC, clear of the counter, the lines execute. */
  lemma {:induction false} CounterExecutes(env: Env, lines: seq<Stmt>, name: string, a: nat, n: nat, s: State)
    returns (t: State)
    requires AllCounterLines(lines, name, n) && At(env, name, a, n)
    requires forall i :: 0 <= i < |lines| ==> Legal(lines[i])
    requires CodeAt(s.mem, s.pc, Encode(env, LowerAll(lines))) && s.pc + SizeOf(LowerAll(lines)) < 65536
    requires s.pc + SizeOf(LowerAll(lines)) <= a || a + n <= s.pc
    ensures Executes(env, lines, s, t)
    decreases |lines|
  {
    hide *;
    t := s;
    if lines == [] {
      ExecutesNone(env, s);
    } else {
      FirstLine(env, lines, s);
      FirstIsCounterLine(lines, name, n);
      CounterLineKeeps(env, lines[0], name, a, n, s);
      var u := Meaning(env, lines[0], s);
      CodeStays(s.mem, u.mem, u.pc, Encode(env, LowerAll(lines[1..])), a, n);
      t := CounterExecutes(env, lines[1..], name, a, n, u);
      ExecutesMore(env, lines, s, t);
    }
  }

  lemma ExecutesNone(env: Env, s: State)
    ensures Executes(env, [], s, s)
  {
  }

  lemma FirstIsCounterLine(lines: seq<Stmt>, name: string, n: nat)
    requires lines != [] && AllCounterLines(lines, name, n)
    ensures CounterLine(lines[0], name, n) && AllCounterLines(lines[1..], name, n)
  {
    hide CounterLine;
  }

  lemma FirstLine(env: Env, lines: seq<Stmt>, s: State)
    requires lines != [] && (forall i :: 0 <= i < |lines| ==> Legal(lines[i]))
    requires CodeAt(s.mem, s.pc, Encode(env, LowerAll(lines))) && s.pc + SizeOf(LowerAll(lines)) < 65536
    ensures AllWellFormed(Lower(lines[0])) && Holding(env, Lower(lines[0]), s)
    ensures SizeOf(LowerAll(lines)) == StmtSize(lines[0]) + SizeOf(LowerAll(lines[1..]))
    ensures CodeAt(s.mem, s.pc + StmtSize(lines[0]), Encode(env, LowerAll(lines[1..])))
  {
    hide Lower, Legal, Encode, SizeOf, CodeAt;
    LowerWellFormed(lines[0]);
    var x, y := Lower(lines[0]), LowerAll(lines[1..]);
    EncodeConcat(env, x, y);
    CodeSplit(s.mem, s.pc, Encode(env, x), Encode(env, y));
  }

  lemma CodeStays(mem: Memory, mem': Memory, at: nat, bytes: seq<Byte>, a: nat, n: nat)
    requires CodeAt(mem, at, bytes) && Elsewhere(mem, mem', a, n)
    requires at + |bytes| <= a || a + n <= at
    ensures CodeAt(mem', at, bytes)
  {
  }

  lemma ExecutesMore(env: Env, lines: seq<Stmt>, s: State, t: State)
    requires lines != [] && MeaningDefined(env, lines[0], s)
    requires AllWellFormed(Lower(lines[0])) && Holding(env, Lower(lines[0]), s)
    requires Executes(env, lines[1..], Meaning(env, lines[0], s), t)
    ensures Executes(env, lines, s, t)
  {
    hide MeaningDefined, Meaning, Lower, Holding, AllWellFormed;
  }

  lemma {:induction false} CarryLinesCount(name: string, k: nat, n: nat)
    requires k < 65536 && k < n
    ensures AllCounterLines(CarryLines(name, k), name, n)
    decreases k
  {
    if k > 0 {
      CarryLinesCount(name, k - 1, n);
    }
  }

  lemma CounterLinesCount(name: string, n: nat)
    requires 0 < n < 65536
    ensures AllCounterLines(CounterLines(name, n), name, n)
    ensures forall i :: 0 <= i < |CounterLines(name, n)| ==> Legal(CounterLines(name, n)[i])
  {
    hide Legal, CarryLines;
    CarryLinesCount(name, n - 1, n);
    assert AllCounterLines(CounterLines(name, n), name, n);
    forall i | 0 <= i < |CounterLines(name, n)|
      ensures Legal(CounterLines(name, n)[i])
    {
      CounterLineLegal(CounterLines(name, n)[i], name, n);
    }
  }

  /** The code of the counter's lines. */
  function CounterCode(name: string, n: nat): (items: seq<Item>)
    requires 0 < n < 65536
    ensures AllWellFormed(items)
  {
    CounterLinesCount(name, n);
    LowerAll(CounterLines(name, n))
  }

  /** The machine, with the counter's code at PC and the counter elsewhere, counts. */
  lemma MachineCounts(env: Env, name: string, a: nat, n: nat, s: State) returns (m: nat, t: State)
    requires 0 < n < 65536 && At(env, name, a, n)
    requires var items := CounterCode(name, n);
             && CodeAt(s.mem, s.pc, Encode(env, items)) && s.pc + SizeOf(items) < 65536
             && (s.pc + SizeOf(items) <= a || a + n <= s.pc)
    ensures Run(s, m, t)
    ensures a + n <= 65536 && Elsewhere(s.mem, t.mem, a, n)
    ensures Count(t.mem, a, n) == (Count(s.mem, a, n) + 1) % Pow256(n)
    ensures t.f.cf <==> Count(t.mem, a, n) == 0
  {
    hide *;
    CounterLinesCount(name, n);
    CounterCodeIs(name, n);
    t := CounterExecutes(env, CounterLines(name, n), name, a, n, s);
    m := ExecutesRuns(env, CounterLines(name, n), s, t);
    CounterCounts(env, name, a, n, s, t);
  }

  lemma CounterCodeIs(name: string, n: nat)
    requires 0 < n < 65536
    ensures (forall i :: 0 <= i < |CounterLines(name, n)| ==> Legal(CounterLines(name, n)[i]))
         && CounterCode(name, n) == LowerAll(CounterLines(name, n))
  {
    hide Legal, CounterLines, LowerAll, AllCounterLines;
    CounterLinesCount(name, n);
  }
}
