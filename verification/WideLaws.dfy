/** What the 16-bit instructions compute. */
module WideLaws {
  import opened Words
  import opened Isa
  import opened Machine
  import opened OperandLaws

  /** The number a 16-bit instruction reads: the word behind the opcode, or a byte register. */
  function WideNumber(m: Mode, s: State): Word {
    if m == Imm then 256 * (s.mem[(s.pc + 1) % 65536] as int) + s.mem[(s.pc + 2) % 65536] else OperandOf(m, s)
  }

  lemma WideRead(m: Mode, s: State)
    ensures WideOperand(m, s) == WideNumber(m, s)
  {
    hide Get, PlaceOf, OperandOf;
    OperandRead(m, s);
  }

  lemma WidePerformed(fn: WideFn, m: Mode, s: State)
    requires Exists(Wide(fn, m)) && Defined(Wide(fn, m), s)
    ensures WideDefined(fn, HLof(s), WideOperand(m, s))
    ensures Exec(Wide(fn, m), s) == PerformWide(fn, WideOperand(m, s), Advance(s, Length(Wide(fn, m))))
  {
    hide WideValue, WideOperand, Fetches, WideDefined, PerformWide;
  }

  lemma WidePerforms(fn: WideFn, v: Word, s: State)
    requires WideDefined(fn, HLof(s), v)
    ensures var t, w := PerformWide(fn, v, s), WideValue(fn, HLof(s), v);
            && HLof(t) == w && (t.f.zf <==> w == 0) && (t.f.sf <==> w >= 32768)
            && t == s.(h := t.h, l := t.l, f := s.f.(zf := t.f.zf, sf := t.f.sf))
  {
    hide WideValue, WideDefined, Join, High, Low;
    PairParts(WideValue(fn, HLof(s), v));
  }

  /** HL holds the result, the zero and sign flags tell about it, and nothing else changes. */
  lemma WideExec(fn: WideFn, m: Mode, s: State)
    requires Exists(Wide(fn, m)) && Defined(Wide(fn, m), s)
    ensures WideDefined(fn, HLof(s), WideNumber(m, s))
    ensures var t, w := Exec(Wide(fn, m), s), WideValue(fn, HLof(s), WideNumber(m, s));
            && HLof(t) == w && (t.f.zf <==> w == 0) && (t.f.sf <==> w >= 32768)
            && t == s.(pc := ToWord(s.pc + Length(Wide(fn, m))), h := t.h, l := t.l,
                       f := s.f.(zf := t.f.zf, sf := t.f.sf))
  {
    hide WideValue, WideOperand, WideNumber, Fetches, Length, PerformWide, WideDefined, Exec, Defined, Exists;
    WideRead(m, s);
    WidePerformed(fn, m, s);
    WidePerforms(fn, WideNumber(m, s), Advance(s, Length(Wide(fn, m))));
  }

  lemma PairParts(w: Word)
    ensures Join(High(w), Low(w)) == w && (High(w) >= 128 <==> w >= 32768)
  {
  }

  // ---------- sums and differences ----------

  lemma AddWideLaw(m: Mode, s: State)
    requires Exists(Wide(ADDW, m)) && Defined(Wide(ADDW, m), s)
    ensures var t, sum := Exec(Wide(ADDW, m), s), HLof(s) + WideNumber(m, s);
            HLof(t) == if sum < 65536 then sum else sum - 65536
  {
    hide Exec, Defined, Exists, WideNumber;
    WideExec(ADDW, m, s);
  }

  lemma SubtractWideLaw(m: Mode, s: State)
    requires Exists(Wide(SUBW, m)) && Defined(Wide(SUBW, m), s)
    ensures var t, v := Exec(Wide(SUBW, m), s), WideNumber(m, s);
            HLof(t) + v == if v <= HLof(s) then HLof(s) else HLof(s) + 65536
  {
    hide Exec, Defined, Exists, WideNumber, HLof;
    WideExec(SUBW, m, s);
    WrappedDifference(HLof(s), WideNumber(m, s));
  }

  lemma WrappedDifference(w: Word, v: Word)
    ensures ToWord(w - v) + v == if v <= w then w else w + 65536
  {
    var d := w + 65536;
    assert v > w ==> ToWord(w - v) == d - v;
  }

  // ---------- products and quotients ----------

  /** MULW: the product modulo 65536, and the product itself where it fits. */
  lemma MultiplyLaw(m: Mode, s: State) returns (k: nat)
    requires Exists(Wide(MULW, m)) && Defined(Wide(MULW, m), s)
    ensures HLof(s) * WideNumber(m, s) == HLof(Exec(Wide(MULW, m), s)) + 65536 * k
    ensures HLof(s) * WideNumber(m, s) < 65536 ==> k == 0
  {
    hide Exec, Defined, Exists, WideNumber, HLof;
    WideExec(MULW, m, s);
    var product := HLof(s) * WideNumber(m, s);
    NoNegative(HLof(s), WideNumber(m, s));
    k := product / 65536;
    WordParts(product);
  }

  lemma NoNegative(x: nat, y: nat)
    ensures x * y >= 0
  {
  }

  /** DIVW: the quotient, with some remainder below the divisor. */
  lemma DivideLaw(m: Mode, s: State) returns (r: nat)
    requires Exists(Wide(DIVW, m)) && Defined(Wide(DIVW, m), s)
    ensures r < WideNumber(m, s) && HLof(s) == HLof(Exec(Wide(DIVW, m), s)) * WideNumber(m, s) + r
  {
    hide Exec, Defined, Exists, WideNumber, HLof;
    WideExec(DIVW, m, s);
    r := Remainder(HLof(s), WideNumber(m, s));
  }

  lemma Remainder(w: Word, v: Word) returns (r: nat)
    requires v != 0
    ensures r < v && w == ToWord(w / v) * v + r
  {
    var q: nat := w / v;
    r := w % v;
    assert w == v * q + r;
    SmallQuotient(w, v, q);
    assert q * v == v * q;
  }

  lemma SmallQuotient(w: Word, v: Word, q: nat)
    requires v != 0 && w >= v * q
    ensures q < 65536 && ToWord(q) == q
  {
    assert v * q >= q;
  }
}
