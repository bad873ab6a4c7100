/** Arithmetic in the repository's programs: the two procedures of programs/collatz.casm, the pixel
    address of programs/graphics.casm, and the loop body of programs/fibonacci.casm. */
module Fragments {
  import opened Words
  import opened Isa
  import opened Machine
  import opened Encoding
  import opened Syntax
  import opened Source
  import opened Simulation
  import opened Counter
  import opened WideLaws

  // ---------- one line ----------

  lemma WideMeans(env: Env, fn: WideFn, o: Operand, s: State)
    requires MeaningDefined(env, UseWide(fn, o), s)
    ensures WideDefined(fn, HLof(s), WideValueOf(o, s))
    ensures var t := Meaning(env, UseWide(fn, o), s);
            && HLof(t) == WideValue(fn, HLof(s), WideValueOf(o, s))
            && t.acc == s.acc && t.r0 == s.r0 && t.r1 == s.r1
  {
    hide WideValue, WideDefined, WideValueOf, StmtSize, HLof, Legal, PerformWide;
    WideIs(env, fn, o, s);
    SameHL(s, s.pc + StmtSize(UseWide(fn, o)));
    WidePerforms(fn, WideValueOf(o, s), s.(pc := s.pc + StmtSize(UseWide(fn, o))));
  }

  lemma WideIs(env: Env, fn: WideFn, o: Operand, s: State)
    requires MeaningDefined(env, UseWide(fn, o), s)
    ensures s.pc + StmtSize(UseWide(fn, o)) < 65536 && WideDefined(fn, HLof(s), WideValueOf(o, s))
    ensures Meaning(env, UseWide(fn, o), s)
         == PerformWide(fn, WideValueOf(o, s), s.(pc := s.pc + StmtSize(UseWide(fn, o))))
  {
    hide WideValue, WideDefined, WideValueOf, StmtSize, Legal, PerformWide;
  }

  lemma SameHL(s: State, pc: Word)
    ensures HLof(s.(pc := pc)) == HLof(s)
  {
  }

  lemma FirstOf(env: Env, sts: seq<Stmt>, s: State, t: State)
    requires Executes(env, sts, s, t) && sts != []
    ensures MeaningDefined(env, sts[0], s) && Executes(env, sts[1..], Meaning(env, sts[0], s), t)
  {
    hide MeaningDefined, Meaning, Held;
    ExecutesParts(env, sts, s, t);
  }

  lemma NoneLeft(env: Env, s: State, t: State)
    requires Executes(env, [], s, t)
    ensures s == t
  {
  }

  // ---------- collatz ----------

  /** num_even halves HL. */
  lemma CollatzEven(env: Env, s: State, t: State)
    requires Executes(env, [UseWide(DIVW, Immediate(2))], s, t)
    ensures HLof(t) == HLof(s) / 2
  {
    hide MeaningDefined, Meaning, HLof, Executes;
    var sts := [UseWide(DIVW, Immediate(2))];
    FirstOf(env, sts, s, t);
    WideMeans(env, DIVW, Immediate(2), s);
    assert sts[1..] == [];
    NoneLeft(env, Meaning(env, sts[0], s), t);
    Halved(HLof(s));
  }

  lemma Halved(w: Word)
    ensures ToWord(w / 2) == w / 2
  {
  }

  /** num_odd triples HL and adds one. */
  lemma CollatzOdd(env: Env, s: State, t: State)
    requires Executes(env, [UseWide(MULW, Immediate(3)), UseWide(ADDW, Immediate(1))], s, t)
    ensures HLof(t) == (3 * HLof(s) + 1) % 65536
  {
    hide MeaningDefined, Meaning, HLof, Executes;
    var sts := [UseWide(MULW, Immediate(3)), UseWide(ADDW, Immediate(1))];
    FirstOf(env, sts, s, t);
    WideMeans(env, MULW, Immediate(3), s);
    var u := Meaning(env, sts[0], s);
    FirstOf(env, sts[1..], u, t);
    WideMeans(env, ADDW, Immediate(1), u);
    assert sts[1..][1..] == [];
    NoneLeft(env, Meaning(env, sts[1], u), t);
    WrapSum(HLof(s) * 3, 1);
  }

  // ---------- graphics ----------

  lemma ZeroMeans(env: Env, s: State)
    requires MeaningDefined(env, Use(Load, Immediate(0)), s)
    ensures var t := Meaning(env, Use(Load, Immediate(0)), s);
            t.acc == 0 && t.h == s.h && t.l == s.l && t.r0 == s.r0 && t.r1 == s.r1
  {
    hide Meaning, MeaningDefined, StmtSize;
    MeaningOfUse(env, Load, Immediate(0), s);
  }

  lemma RegisterMeans(env: Env, kind: Kind, m: Mode, s: State)
    requires m in {R0, R1, H, L} && MeaningDefined(env, Use(kind, Reg(m)), s)
    ensures Performs(kind, PlaceOf(m, s), s)
    ensures Meaning(env, Use(kind, Reg(m)), s)
         == Perform(kind, PlaceOf(m, s), s).(pc := s.pc + StmtSize(Use(kind, Reg(m))))
  {
    hide Meaning, MeaningDefined, StmtSize, Perform, Performs;
    MeaningOfUse(env, kind, Reg(m), s);
  }

  lemma StoreMeans(env: Env, m: Mode, s: State)
    requires m in {R0, R1, H, L} && MeaningDefined(env, Use(Store, Reg(m)), s)
    ensures var t := Meaning(env, Use(Store, Reg(m)), s);
            && t.acc == s.acc && t.h == (if m == H then s.acc else s.h) && t.l == (if m == L then s.acc else s.l)
            && t.r0 == (if m == R0 then s.acc else s.r0) && t.r1 == (if m == R1 then s.acc else s.r1)
  {
    hide Meaning, MeaningDefined, StmtSize, ZeroSign;
    RegisterMeans(env, Store, m, s);
  }

  lemma LoadMeans(env: Env, m: Mode, s: State)
    requires m in {R0, R1, H, L} && MeaningDefined(env, Use(Load, Reg(m)), s)
    ensures var t := Meaning(env, Use(Load, Reg(m)), s);
            && t.acc == (match m case R0 => s.r0 case R1 => s.r1 case H => s.h case _ => s.l)
            && t.h == s.h && t.l == s.l && t.r0 == s.r0 && t.r1 == s.r1
  {
    hide Meaning, MeaningDefined, StmtSize, ZeroSign;
    RegisterMeans(env, Load, m, s);
  }

  /** The lines that compute the address of the pixel in row R0 and column R1. */
  function PixelLines(): seq<Stmt> {
    [Use(Load, Immediate(0)), Use(Store, Reg(H)), Use(Load, Reg(R0)), Use(Store, Reg(L)),
     UseWide(MULW, Immediate(128)), UseWide(ADDW, Reg(R1)), UseWide(ADDW, Immediate(0x9fff))]
  }

  /** They leave 128 times the row plus the column plus 0x9fff in HL. */
  lemma PixelAddress(env: Env, s: State, t: State)
    requires Executes(env, PixelLines(), s, t)
    ensures HLof(t) == (128 * s.r0 + s.r1 + 0x9fff) % 65536
  {
    hide MeaningDefined, Meaning, HLof, Executes;
    var u := RowToHL(env, s, t);
    var rest := PixelLines()[4..];
    assert rest == [UseWide(MULW, Immediate(128)), UseWide(ADDW, Reg(R1)), UseWide(ADDW, Immediate(0x9fff))];
    FirstOf(env, rest, u, t);
    WideMeans(env, MULW, Immediate(128), u);
    var v := Meaning(env, rest[0], u);
    FirstOf(env, rest[1..], v, t);
    WideMeans(env, ADDW, Reg(R1), v);
    var w := Meaning(env, rest[1], v);
    FirstOf(env, rest[2..], w, t);
    WideMeans(env, ADDW, Immediate(0x9fff), w);
    assert rest[2..][1..] == [];
    NoneLeft(env, Meaning(env, rest[2], w), t);
    PixelSum(s.r0, s.r1);
  }

  lemma PixelSum(row: Byte, column: Byte)
    ensures ToWord(ToWord(ToWord(row * 128) + column) + ToWord(0x9fff)) == (128 * row + column + 0x9fff) % 65536
  {
    assert ToWord(row * 128) == row * 128;
  }

  lemma RowToHL(env: Env, s: State, t: State) returns (u: State)
    requires Executes(env, PixelLines(), s, t)
    ensures HLof(u) == s.r0 && u.r0 == s.r0 && u.r1 == s.r1 && Executes(env, PixelLines()[4..], u, t)
  {
    hide MeaningDefined, Meaning, Executes;
    var sts := PixelLines();
    FirstOf(env, sts, s, t);
    ZeroMeans(env, s);
    var a := Meaning(env, sts[0], s);
    FirstOf(env, sts[1..], a, t);
    StoreMeans(env, H, a);
    var b := Meaning(env, sts[1], a);
    assert sts[1..][1..] == sts[2..];
    FirstOf(env, sts[2..], b, t);
    LoadMeans(env, R0, b);
    var c := Meaning(env, sts[2], b);
    assert sts[2..][1..] == sts[3..];
    FirstOf(env, sts[3..], c, t);
    StoreMeans(env, L, c);
    u := Meaning(env, sts[3], c);
    assert sts[3..][1..] == sts[4..];
  }

  // ---------- fibonacci ----------

  lemma AddMeans(env: Env, m: Mode, s: State)
    requires m in {H, L} && MeaningDefined(env, Use(Alu(ADD), Reg(m)), s)
    ensures var t := Meaning(env, Use(Alu(ADD), Reg(m)), s);
            && t.acc == (s.acc + (if m == H then s.h else s.l)) % 256
            && t.h == s.h && t.l == s.l && t.r0 == s.r0
  {
    hide Meaning, MeaningDefined, StmtSize, ZeroSign;
    RegisterMeans(env, Alu(ADD), m, s);
  }

  lemma ExchangeMeans(env: Env, s: State)
    requires MeaningDefined(env, Use(Xch, Reg(H)), s)
    ensures var t := Meaning(env, Use(Xch, Reg(H)), s); t.acc == s.h && t.h == s.acc && t.l == s.l && t.r0 == s.r0
  {
    hide Meaning, MeaningDefined, StmtSize, ZeroSign;
    RegisterMeans(env, Xch, H, s);
  }

  lemma CountMeans(env: Env, s: State)
    requires MeaningDefined(env, Use(Unary(DEC), Reg(R0)), s)
    ensures var t := Meaning(env, Use(Unary(DEC), Reg(R0)), s);
            && t.h == s.h && t.l == s.l && t.r0 == (if s.r0 == 0 then 255 else s.r0 - 1)
            && (t.f.zf <==> t.r0 == 0)
  {
    hide Meaning, MeaningDefined, StmtSize;
    RegisterMeans(env, Unary(DEC), R0, s);
    OperandLaws.NextByte(s.r0);
  }

  /** The loop body between `fib:` and its jump. */
  function FibonacciLines(): seq<Stmt> {
    [Use(Load, Immediate(0)), Use(Alu(ADD), Reg(L)), Use(Alu(ADD), Reg(H)), Use(Xch, Reg(H)), Use(Store, Reg(L)),
     Use(Unary(DEC), Reg(R0))]
  }

  /** It takes the pair (L, H) to (H, L + H) modulo 256, counts R0 down, and leaves the zero flag for
      the jump back. */
  lemma FibonacciStep(env: Env, s: State, t: State)
    requires Executes(env, FibonacciLines(), s, t)
    ensures t.l == s.h && t.h == (s.l + s.h) % 256
    ensures t.r0 == (if s.r0 == 0 then 255 else s.r0 - 1) && (t.f.zf <==> t.r0 == 0)
  {
    hide MeaningDefined, Meaning, Executes;
    var sts := FibonacciLines();
    var a := SumOfBoth(env, s, t);
    FirstOf(env, sts[3..], a, t);
    ExchangeMeans(env, a);
    var b := Meaning(env, sts[3], a);
    assert sts[3..][1..] == sts[4..];
    FirstOf(env, sts[4..], b, t);
    StoreMeans(env, L, b);
    var c := Meaning(env, sts[4], b);
    assert sts[4..][1..] == sts[5..];
    FirstOf(env, sts[5..], c, t);
    CountMeans(env, c);
    assert sts[5..][1..] == [];
    NoneLeft(env, Meaning(env, sts[5], c), t);
  }

  lemma SumOfBoth(env: Env, s: State, t: State) returns (a: State)
    requires Executes(env, FibonacciLines(), s, t)
    ensures a.acc == (s.l + s.h) % 256 && a.h == s.h && a.l == s.l && a.r0 == s.r0
    ensures Executes(env, FibonacciLines()[3..], a, t)
  {
    hide MeaningDefined, Meaning, Executes;
    var sts := FibonacciLines();
    FirstOf(env, sts, s, t);
    ZeroMeans(env, s);
    var u := Meaning(env, sts[0], s);
    FirstOf(env, sts[1..], u, t);
    AddMeans(env, L, u);
    var v := Meaning(env, sts[1], u);
    assert sts[1..][1..] == sts[2..];
    FirstOf(env, sts[2..], v, t);
    AddMeans(env, H, v);
    a := Meaning(env, sts[2], v);
    assert sts[2..][1..] == sts[3..];
  }
}
