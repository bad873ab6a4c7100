/** Where operands are and what the instructions that move, step or invert a byte do with them. */
module OperandLaws {
  import opened Words
  import opened Isa
  import opened Machine
  import opened Bits

  // ---------- operands ----------

  /** The byte an instruction with this operand reads. */
  function OperandOf(m: Mode, s: State): Byte {
    match m
    case Imm => s.mem[(s.pc + 1) % 65536]
    case MemImm => s.mem[256 * (s.mem[(s.pc + 1) % 65536] as int) + s.mem[(s.pc + 2) % 65536]]
    case MemL => s.mem[s.l]
    case MemHL => s.mem[256 * (s.h as int) + s.l]
    case Acc => s.acc
    case R0 => s.r0
    case R1 => s.r1
    case L => s.l
    case H => s.h
    case Frame => s.stack[((s.bp as int) - s.mem[(s.pc + 1) % 65536]) % 256]
    case HL | BP | FLAGS => 0
  }

  lemma OperandRead(m: Mode, s: State)
    ensures Get(PlaceOf(m, s), s) == OperandOf(m, s)
  {
  }

  lemma DoExec(kind: Kind, m: Mode, s: State)
    requires Exists(Do(kind, m)) && Defined(Do(kind, m), s)
    ensures var p, t := DoPlace(kind, m, s), Advance(s, Size(m));
            Performs(kind, p, s) && Performs(kind, p, t) && Exec(Do(kind, m), s) == Perform(kind, p, t)
  {
    hide AluDefined, DoPlace, Perform, DoFetches, Get;
    PlaceAdvanced(DoPlace(kind, m, s), s, Size(m));
  }

  lemma PlaceAdvanced(p: Place, s: State, n: nat)
    ensures Get(p, Advance(s, n)) == Get(p, s)
  {
  }

  /** The state with v where an instruction with this operand writes. */
  function Written(m: Mode, s: State, v: Byte): State {
    match m
    case MemImm => s.(mem := s.mem[256 * (s.mem[(s.pc + 1) % 65536] as int) + s.mem[(s.pc + 2) % 65536] := v])
    case MemL => s.(mem := s.mem[s.l as int := v])
    case MemHL => s.(mem := s.mem[256 * (s.h as int) + s.l := v])
    case Acc => s.(acc := v)
    case R0 => s.(r0 := v)
    case R1 => s.(r1 := v)
    case L => s.(l := v)
    case H => s.(h := v)
    case Frame => s.(stack := s.stack[((s.bp as int) - s.mem[(s.pc + 1) % 65536]) % 256 := v])
    case Imm | HL | BP | FLAGS => s
  }

  lemma OperandWritten(m: Mode, s: State, v: Byte, pc: Word, acc: Byte, f: Flags)
    ensures Put(PlaceOf(m, s), v, s.(pc := pc, f := f)) == Written(m, s, v).(pc := pc, f := f)
    ensures m != Acc ==>
              Put(PlaceOf(m, s), v, s.(pc := pc, acc := acc, f := f)) == Written(m, s, v).(pc := pc, acc := acc, f := f)
  {
  }

  /** The zero and sign flags by a byte. */
  function ByByte(f: Flags, v: Byte): Flags { f.(zf := v == 0, sf := v >= 128) }

  lemma ByByteIs(f: Flags, v: Byte)
    ensures ZeroSign(f, v) == ByByte(f, v)
  {
  }

  // ---------- moves ----------

  lemma LoadLaw(m: Mode, s: State)
    requires Exists(Do(Load, m)) && Defined(Do(Load, m), s)
    ensures var v := OperandOf(m, s);
            Exec(Do(Load, m), s) == s.(pc := ToWord(s.pc + Size(m)), acc := v, f := ByByte(s.f, v))
  {
    hide Exec, Defined, Exists, PlaceOf, OperandOf, Get;
    DoExec(Load, m, s);
    OperandRead(m, s);
    PlaceAdvanced(PlaceOf(m, s), s, Size(m));
  }

  lemma StoreLaw(m: Mode, s: State)
    requires Exists(Do(Store, m)) && Defined(Do(Store, m), s)
    ensures Exec(Do(Store, m), s)
         == Written(m, s, s.acc).(pc := ToWord(s.pc + Size(m)), f := ByByte(s.f, s.acc))
  {
    hide Exec, Defined, Exists, PlaceOf, Written, Put;
    DoExec(Store, m, s);
    OperandWritten(m, s, s.acc, ToWord(s.pc + Size(m)), s.acc, ByByte(s.f, s.acc));
    PutKeeps(PlaceOf(m, s), s.acc, Advance(s, Size(m)), ByByte(s.f, s.acc));
  }

  /** XCH: each gets what the other held. */
  lemma XchLaw(m: Mode, s: State)
    requires Exists(Do(Xch, m)) && Defined(Do(Xch, m), s)
    ensures var v := OperandOf(m, s);
            Exec(Do(Xch, m), s)
              == Written(m, s, s.acc).(pc := ToWord(s.pc + Size(m)), acc := v, f := ByByte(s.f, v))
  {
    var v := OperandOf(m, s);
    assert m != Acc;
    hide Exec, Defined, Exists, PlaceOf, Written, Put, Get, OperandOf;
    DoExec(Xch, m, s);
    OperandRead(m, s);
    PlaceAdvanced(PlaceOf(m, s), s, Size(m));
    OperandWritten(m, s, s.acc, ToWord(s.pc + Size(m)), v, ByByte(s.f, v));
  }

  // ---------- steps, negation, complement ----------

  /** The two add up to zero modulo n. */
  predicate Cancels(x: nat, y: nat, n: nat)
    requires n > 0
  {
    (x + y) % n == 0
  }

  /** What the four unary instructions make of a byte, and of the carry. */
  ghost predicate UnaryMeans(fn: UnaryFn, v: Byte, r: Byte, carry: bool, carry': bool) {
    match fn
    case INC => if v == 255 then r == 0 && carry' else r == v + 1 && !carry'
    case DEC => if v == 0 then r == 255 && carry' else r == v - 1 && !carry'
    case NEG => Cancels(v, r, 256) && carry' == carry
    case NOT => (forall i: nat :: i < 8 ==> BitSet(r, i) != BitSet(v, i)) && carry' == carry
  }

  lemma UnaryByte(fn: UnaryFn, v: Byte, f: Flags)
    ensures UnaryMeans(fn, v, UnaryValue(fn, v), f.cf, UnaryFlags(fn, UnaryValue(fn, v), f).cf)
    ensures var g := UnaryFlags(fn, UnaryValue(fn, v), f); g == ByByte(f, UnaryValue(fn, v)).(cf := g.cf)
  {
    hide UnaryFlags, UnaryValue, UnaryMeans;
    UnaryCarry(fn, UnaryValue(fn, v), f);
    match fn
    case INC => Incremented(v, f.cf);
    case DEC => Decremented(v, f.cf);
    case NEG => Negated(v, f.cf);
    case NOT => Complemented(v, f.cf);
  }

  lemma UnaryCarry(fn: UnaryFn, r: Byte, f: Flags)
    ensures UnaryFlags(fn, r, f) == ByByte(f, r).(cf := UnaryFlags(fn, r, f).cf)
    ensures UnaryFlags(fn, r, f).cf == if fn == INC then r == 0 else if fn == DEC then r == 255 else f.cf
  {
  }

  lemma Incremented(v: Byte, c: bool)
    ensures UnaryMeans(INC, v, UnaryValue(INC, v), c, UnaryValue(INC, v) == 0)
  {
    hide ToByte;
    NextByte(v);
  }

  lemma Decremented(v: Byte, c: bool)
    ensures UnaryMeans(DEC, v, UnaryValue(DEC, v), c, UnaryValue(DEC, v) == 255)
  {
    hide ToByte;
    NextByte(v);
  }

  lemma Negated(v: Byte, c: bool)
    ensures UnaryMeans(NEG, v, UnaryValue(NEG, v), c, c)
  {
    hide ToByte, Cancels;
    NextByte(v);
  }

  lemma Complemented(v: Byte, c: bool)
    ensures UnaryMeans(NOT, v, UnaryValue(NOT, v), c, c)
  {
    hide BitSet;
    FlippedByte(v);
  }

  lemma NextByte(v: Byte)
    ensures ToByte(v + 1) == if v == 255 then 0 else v + 1
    ensures ToByte(v - 1) == if v == 0 then 255 else v - 1
    ensures Cancels(v, ToByte(0 - v), 256)
  {
  }

  lemma FlippedByte(v: Byte)
    ensures forall i: nat :: i < 8 ==> BitSet(255 - v, i) != BitSet(v, i)
  {
    hide BitSet, Pow2;
    BytePower();
    forall i: nat | i < 8
      ensures BitSet(255 - v, i) != BitSet(v, i)
    {
      NotBit(v, 8, i);
    }
  }

  lemma UnaryLaw(fn: UnaryFn, m: Mode, s: State) returns (r: Byte)
    requires Exists(Do(Unary(fn), m)) && Defined(Do(Unary(fn), m), s)
    ensures var t := Exec(Do(Unary(fn), m), s);
            && UnaryMeans(fn, OperandOf(m, s), r, s.f.cf, t.f.cf)
            && t == Written(m, s, r).(pc := ToWord(s.pc + Size(m)), f := ByByte(s.f, r).(cf := t.f.cf))
  {
    hide Exec, Defined, Exists, PlaceOf, Written, Put, Get, OperandOf, UnaryMeans, UnaryValue, UnaryFlags;
    DoExec(Unary(fn), m, s);
    OperandRead(m, s);
    PlaceAdvanced(PlaceOf(m, s), s, Size(m));
    r := UnaryValue(fn, OperandOf(m, s));
    UnaryByte(fn, OperandOf(m, s), s.f);
    OperandWritten(m, s, r, ToWord(s.pc + Size(m)), s.acc, UnaryFlags(fn, r, s.f));
    PutFlags(PlaceOf(m, s), r, Advance(s, Size(m)), UnaryFlags(fn, r, s.f));
  }

  lemma PutFlags(p: Place, v: Byte, s: State, f: Flags)
    ensures Put(p, v, s.(f := f)).f == f
  {
  }

  /** And of the HL pair. */
  ghost predicate PairMeans(fn: UnaryFn, w: Word, r: Word, carry: bool, carry': bool) {
    match fn
    case INC => if w == 65535 then r == 0 && carry' else r == w + 1 && !carry'
    case DEC => if w == 0 then r == 65535 && carry' else r == w - 1 && !carry'
    case NEG => Cancels(w, r, 65536) && carry' == carry
    case NOT => w + r == 65535 && carry' == carry
  }

  /** `Departures.PairSign` is about the sign flag. */
  lemma PairLaw(fn: UnaryFn, s: State)
    ensures var t := Exec(UnaryHL(fn), s);
            PairMeans(fn, HLof(s), HLof(t), s.f.cf, t.f.cf) && (t.f.zf <==> HLof(t) == 0)
  {
    hide UnaryWord, UnaryWordFlags, PairMeans;
    var w := UnaryWord(fn, HLof(s));
    PairJoined(w, Advance(s, 1));
    PairWord(fn, HLof(s), s.f);
  }

  lemma PairJoined(w: Word, s: State)
    ensures HLof(SetHL(s, w)) == w
  {
  }

  lemma PairWord(fn: UnaryFn, w: Word, f: Flags)
    ensures var r := UnaryWord(fn, w);
            PairMeans(fn, w, r, f.cf, UnaryWordFlags(fn, r, f).cf) && (UnaryWordFlags(fn, r, f).zf <==> r == 0)
  {
    hide UnaryWord, UnaryWordFlags, PairMeans;
    PairCarry(fn, UnaryWord(fn, w), f);
    PairValue(fn, w, f.cf);
  }

  lemma PairCarry(fn: UnaryFn, r: Word, f: Flags)
    ensures (UnaryWordFlags(fn, r, f).zf <==> r == 0) && UnaryWordFlags(fn, r, f).cf == PairCarryOf(fn, r, f.cf)
  {
    hide Low;
  }

  function PairCarryOf(fn: UnaryFn, r: Word, c: bool): bool {
    if fn == INC then r == 0 else if fn == DEC then r == 65535 else c
  }

  lemma PairValue(fn: UnaryFn, w: Word, c: bool)
    ensures var r := UnaryWord(fn, w); PairMeans(fn, w, r, c, PairCarryOf(fn, r, c))
  {
    hide ToWord, Cancels;
    NextWord(w);
  }

  lemma NextWord(w: Word)
    ensures ToWord(w + 1) == if w == 65535 then 0 else w + 1
    ensures ToWord(w - 1) == if w == 0 then 65535 else w - 1
    ensures Cancels(w, ToWord(0 - w), 65536)
  {
  }
}
