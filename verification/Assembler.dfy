/** The assembler object: pass 1 appends code, references and labels line by line, pass 2
    overwrites the recorded sites in place. The result is the one-shot encoding. */
module AssemblerModel {
  import opened Words
  import opened Isa
  import opened Encoding
  import opened Syntax
  import opened Lowering
  import opened TwoPass
  import opened LabelTable

  /** Code and references after further items. */
  datatype Output = Output(bytes: seq<Byte>, refs: seq<Ref>)

  function After(out: Output, items: seq<Item>): Output
    requires AllWellFormed(items)
  {
    Output(out.bytes + Encode(map[], items), out.refs + Refs(items, |out.bytes|))
  }

  lemma AfterNothing(out: Output)
    ensures After(out, []) == out
  {
  }

  lemma AfterConcat(out: Output, a: seq<Item>, b: seq<Item>)
    requires AllWellFormed(a) && AllWellFormed(b)
    ensures AllWellFormed(a + b) && After(out, a + b) == After(After(out, a), b)
  {
    hide WellFormed, Encode, Refs;
    EncodeConcat(map[], a, b);
    RefsConcat(a, b, |out.bytes|);
  }

  lemma AfterOne(out: Output, it: Item)
    requires WellFormed(it)
    ensures After(out, [it])
         == Output(out.bytes + ItemBytes(map[], it), out.refs + ItemRefs(it, |out.bytes|))
  {
    hide WellFormed, ItemBytes, ItemRefs, ItemSize;
    assert [it][1..] == [];
    assert Encode(map[], [it]) == ItemBytes(map[], it) + [];
    assert Refs([it], |out.bytes|) == ItemRefs(it, |out.bytes|) + [];
  }

  lemma AfterTwo(out: Output, a: Item, b: Item)
    requires WellFormed(a) && WellFormed(b)
    ensures AllWellFormed([a, b]) && After(out, [a, b]) == After(After(out, [a]), [b])
  {
    hide WellFormed, After;
    AfterConcat(out, [a], [b]);
    assert [a] + [b] == [a, b];
  }

  /** The code of a parsed operation on an operand: none where an error is reported. */
  function OperandItems(kind: Kind, o: Option<Operand>): (items: seq<Item>)
    ensures AllWellFormed(items)
  {
    if o.Some? && Accepts(kind, o.value) then LowerUseWellFormed(kind, o.value); LowerUse(kind, o.value) else []
  }

  class Assembler {
    var compiled: seq<Byte>
    var labelRefs: seq<Ref>
    const labelDefs: LabelMap

    ghost function Out(): Output
      reads this
    {
      Output(compiled, labelRefs)
    }

    constructor (hash: string -> nat)
      ensures compiled == Zeros(256) && labelRefs == []
      ensures fresh(labelDefs) && labelDefs.Valid() && labelDefs.contents == map[]
    {
      assert PowerCapacity(16) by { assert 16 == DEFAULT_CAPACITY * Pow2(0); }
      labelDefs := new LabelMap.WithCapacity(hash, 16);
      labelRefs := [];
      compiled := Zeros(256);
    }

    // ---------- pushing ----------

    method PushOp(op: Op)
      requires Exists(op)
      modifies `compiled
      ensures compiled == old(compiled) + [Opcode(op)]
    {
      compiled := compiled + [Opcode(op)];
    }

    method PushImm8(imm: int)
      modifies `compiled
      ensures compiled == old(compiled) + [ToByte(imm)]
    {
      compiled := compiled + [ToByte(imm)];
    }

    method PushImm16(imm: nat)
      modifies `compiled
      ensures compiled == old(compiled) + WordBytes(ToWord(imm))
    {
      var high, low := ToByte(imm / 256), ToByte(imm);
      assert high == High(ToWord(imm)) && low == Low(ToWord(imm));
      compiled := compiled + [high];
      compiled := compiled + [low];
    }

    /** A reference and its placeholder bytes: zero for a plain reference. */
    method PushLabel(name: string, offset: Word)
      modifies `compiled, `labelRefs
      ensures compiled == old(compiled) + WordBytes(offset)
      ensures labelRefs == old(labelRefs) + [Ref(name, |old(compiled)|)]
    {
      labelRefs := labelRefs + [Ref(name, |compiled|)];
      PushImm16(offset);
    }

    // ---------- instructions ----------

    method EmitPlain(op: Op)
      requires WellFormed(Ins(op, NoArg))
      modifies `compiled, `labelRefs
      ensures Out() == After(old(Out()), [Ins(op, NoArg)])
    {
      AfterOne(Out(), Ins(op, NoArg));
      PushOp(op);
    }

    method EmitByte(op: Op, imm: int)
      requires WellFormed(Ins(op, ByteArg(ToByte(imm))))
      modifies `compiled, `labelRefs
      ensures Out() == After(old(Out()), [Ins(op, ByteArg(ToByte(imm)))])
    {
      AfterOne(Out(), Ins(op, ByteArg(ToByte(imm))));
      PushOp(op);
      PushImm8(imm);
    }

    method EmitWord(op: Op, imm: nat)
      requires WellFormed(Ins(op, WordArg(Abs(ToWord(imm)))))
      modifies `compiled, `labelRefs
      ensures Out() == After(old(Out()), [Ins(op, WordArg(Abs(ToWord(imm))))])
    {
      AfterOne(Out(), Ins(op, WordArg(Abs(ToWord(imm)))));
      PushOp(op);
      PushImm16(imm);
    }

    method EmitLabel(op: Op, name: string, offset: Word)
      requires WellFormed(Ins(op, WordArg(Lab(name, offset))))
      modifies `compiled, `labelRefs
      ensures Out() == After(old(Out()), [Ins(op, WordArg(Lab(name, offset)))])
    {
      AfterOne(Out(), Ins(op, WordArg(Lab(name, offset))));
      PushOp(op);
      PushLabel(name, offset);
    }

    /** An absolute number or a label, as jumps take. */
    method EmitTarget(op: Op, t: Token)
      requires ParseTarget(t).Some? && WellFormed(Ins(op, WordArg(ParseTarget(t).value)))
      modifies `compiled, `labelRefs
      ensures Out() == After(old(Out()), [Ins(op, WordArg(ParseTarget(t).value))])
    {
      if t.sym.Number? {
        EmitWord(op, t.value);
      } else {
        EmitLabel(op, RefName(t), 0);
      }
    }

    method EmitExt(mask: Byte, t: Token)
      requires ParseTarget(t).Some?
      modifies `compiled, `labelRefs
      ensures Out() == After(old(Out()), [Ins(JumpExt, MaskArg(mask, ParseTarget(t).value))])
    {
      AfterOne(Out(), Ins(JumpExt, MaskArg(mask, ParseTarget(t).value)));
      PushOp(JumpExt);
      PushImm8(mask);
      if t.sym.Number? {
        PushImm16(t.value);
      } else {
        PushLabel(RefName(t), 0);
      }
    }

    // ---------- operands ----------

    /** `parse_mem_expr` */
    method ParseMemExpr(ts: seq<Token>, end: Sym) returns (r: Option<MemExpr>)
      ensures r == ParseExpr(ts, end)
    {
      var expr := MemExpr(Absolute, 0);
      var minus := false;
      var i := 0;
      if ts != [] && IsSign(ts[0].sym) {
        minus := ts[0].sym == Minus;
        i := 1;
      }
      while true
        invariant i <= |ts|
        invariant ParseExpr(ts, end) == ParseTerms(ts[i..], minus, expr, end)
        decreases |ts| - i
      {
        if |ts| < i + 2 {
          return None;
        }
        assert ts[i..][0] == ts[i] && ts[i..][1] == ts[i + 1] && ts[i..][2..] == ts[i + 2..];
        var applied := ApplyTerm(expr, minus, ts[i]);
        if applied == None {
          return None;
        }
        expr := applied.value;
        var delim := ts[i + 1].sym;
        if IsSign(delim) {
          minus := delim == Minus;
          i := i + 2;
        } else if delim == end {
          return Some(expr);
        } else {
          return None;
        }
      }
    }

    /** Memory directly addressed, as the two macro families spell it out. */
    method EmitDirect(kind: Kind, addr: Word)
      requires Accepts(kind, Memory(MemExpr(Absolute, addr)))
      modifies `compiled, `labelRefs
      ensures AllWellFormed(LowerDirect(kind, Abs(addr)))
      ensures Out() == After(old(Out()), LowerDirect(kind, Abs(addr)))
    {
      hide After, Opcode;
      if HasMemImm(kind) {
        EmitWord(Do(kind, MemImm), addr);
      } else {
        AfterTwo(Out(), Ins(LoadHLI, WordArg(Abs(addr))), Ins(Do(kind, MemHL), NoArg));
        EmitWord(LoadHLI, addr);
        EmitPlain(Do(kind, MemHL));
      }
    }

    method EmitDirectLabel(kind: Kind, name: string, offset: Word)
      requires Accepts(kind, Labelled(name, MemExpr(Absolute, offset)))
      modifies `compiled, `labelRefs
      ensures AllWellFormed(LowerDirect(kind, Lab(name, offset)))
      ensures Out() == After(old(Out()), LowerDirect(kind, Lab(name, offset)))
    {
      hide After, Opcode;
      if HasMemImm(kind) {
        EmitLabel(Do(kind, MemImm), name, offset);
      } else {
        AfterTwo(Out(), Ins(LoadHLI, WordArg(Lab(name, offset))), Ins(Do(kind, MemHL), NoArg));
        EmitLabel(LoadHLI, name, offset);
        EmitPlain(Do(kind, MemHL));
      }
    }

    /** `PARSE_CASE_L_PAREN` and `PARSE_ALU_CASE_L_PAREN`. */
    method EmitMemory(kind: Kind, e: MemExpr)
      requires Accepts(kind, Memory(e))
      modifies `compiled, `labelRefs
      ensures AllWellFormed(LowerMemory(kind, e))
      ensures Out() == After(old(Out()), LowerMemory(kind, e))
    {
      hide After, Opcode;
      if e.base == Absolute {
        EmitDirect(kind, e.disp);
      } else if e.base == ByHL {
        if e.disp == 0 {
          EmitPlain(Do(kind, MemHL));
        } else {
          AfterTwo(Out(), Ins(AddHLI, WordArg(Abs(e.disp))), Ins(Do(kind, MemHL), NoArg));
          EmitWord(AddHLI, e.disp);
          EmitPlain(Do(kind, MemHL));
        }
      } else {
        if e.disp == 0 {
          EmitPlain(Do(kind, MemL));
        } else {
          AfterTwo(Out(), Ins(AddLI, ByteArg(Low(e.disp))), Ins(Do(kind, MemL), NoArg));
          EmitByte(AddLI, e.disp);
          EmitPlain(Do(kind, MemL));
        }
      }
    }

    /** `PARSE_CASE_LABEL_IDX` and `PARSE_ALU_CASE_LABEL_IDX`. */
    method EmitLabelled(kind: Kind, name: string, e: MemExpr)
      requires Accepts(kind, Labelled(name, e))
      modifies `compiled, `labelRefs
      ensures AllWellFormed(LowerLabelled(kind, name, e))
      ensures Out() == After(old(Out()), LowerLabelled(kind, name, e))
    {
      hide After, Opcode;
      if e.base == Absolute {
        EmitDirectLabel(kind, name, e.disp);
      } else {
        AfterTwo(Out(), Ins(AddHLI, WordArg(Lab(name, e.disp))), Ins(Do(kind, MemHL), NoArg));
        EmitLabel(AddHLI, name, e.disp);
        EmitPlain(Do(kind, MemHL));
      }
    }

    /** `parse_load_imm`, and the number case of the arithmetic macros. */
    method EmitNumber(kind: Kind, v: nat)
      requires Accepts(kind, Immediate(v))
      modifies `compiled, `labelRefs
      ensures AllWellFormed(LowerImmediate(kind, ToByte(v)))
      ensures Out() == After(old(Out()), LowerImmediate(kind, ToByte(v)))
    {
      if kind.Load? || kind.Xch? {
        var imm := ToByte(v);
        if imm == 0 {
          EmitPlain(Clra);
        } else {
          EmitByte(Do(Load, Imm), imm);
        }
      } else {
        EmitByte(Do(kind, Imm), v);
      }
    }

    /** The operand switch of LOAD, STORE, XCH and the arithmetic mnemonics, which differ in the
        cases they list. */
    method ParseUse(kind: Kind, ts: seq<Token>)
      modifies `compiled, `labelRefs
      ensures Out() == After(old(Out()), OperandItems(kind, ParseOperand(ts)))
    {
      hide After, LowerMemory, LowerLabelled, LowerImmediate, WellFormed, ParseExpr;
      AfterNothing(Out());
      if ts == [] {
        return;
      }
      var sym := ts[0].sym;
      if sym.Register? {
        if Accepts(kind, Reg(sym.mode)) {
          EmitRegister(kind, sym.mode);
        }
      } else if sym.Number? {
        if Accepts(kind, Immediate(ts[0].value)) {
          EmitNumber(kind, ts[0].value);
        }
      } else if sym.LabelIdx? {
        if |ts| >= 2 && ts[1].sym == LSquare {
          var e := ParseMemExpr(ts[2..], RSquare);
          if e.Some? && Accepts(kind, Labelled(ts[0].text, e.value)) {
            EmitLabelled(kind, ts[0].text, e.value);
          }
        }
      } else if sym.LParen? {
        var e := ParseMemExpr(ts[1..], RParen);
        if e.Some? && Accepts(kind, Memory(e.value)) {
          EmitMemory(kind, e.value);
        }
      } else if sym.LCurly? {
        var e := ParseMemExpr(ts[1..], RCurly);
        if e.Some? && e.value.base == ByBP {
          EmitLocal(kind, e.value.disp);
        }
      }
    }

    method EmitRegister(kind: Kind, m: Mode)
      requires Accepts(kind, Reg(m))
      modifies `compiled, `labelRefs
      ensures AllWellFormed(LowerUse(kind, Reg(m)))
      ensures Out() == After(old(Out()), LowerUse(kind, Reg(m)))
    {
      hide After;
      if m == HL {
        EmitPlain(UnaryHL(kind.unary));
      } else {
        EmitPlain(Do(kind, m));
      }
    }

    /** `PARSE_CASE_L_CURLY` */
    method EmitLocal(kind: Kind, disp: Word)
      modifies `compiled, `labelRefs
      ensures AllWellFormed(LowerUse(kind, Local(disp)))
      ensures Out() == After(old(Out()), LowerUse(kind, Local(disp)))
    {
      hide After;
      EmitByte(Do(kind, Frame), disp + 1);
    }

    // ---------- lines ----------

    method ParsePlain(line: seq<Token>)
      requires line != [] && line[0].sym.PlainSym?
      modifies `compiled, `labelRefs
      ensures Out() == After(old(Out()), LineItems(line))
    {
      hide After;
      AfterNothing(Out());
      var ts := line[1..];
      if LineEnds(ts) {
        EmitPlain(line[0].sym.op);
      }
    }

    method ParseOperandLine(kind: Kind, line: seq<Token>)
      requires line != [] && KindOf(line[0].sym) == Some(kind)
      modifies `compiled, `labelRefs
      ensures Out() == After(old(Out()), LineItems(line))
    {
      hide After;
      AfterNothing(Out());
      var ts := line[1..];
      UseLine(line, kind);
      ParseUse(kind, ts);
    }

    method ParseWide(fn: WideFn, line: seq<Token>)
      requires line != [] && line[0].sym == WideSym(fn)
      modifies `compiled, `labelRefs
      ensures Out() == After(old(Out()), LineItems(line))
    {
      hide After;
      AfterNothing(Out());
      var ts := line[1..];
      if ts != [] {
        var sym := ts[0].sym;
        if sym.Register? && AcceptsWide(Reg(sym.mode)) {
          EmitPlain(Wide(fn, sym.mode));
        } else if sym.Number? {
          EmitWord(Wide(fn, Imm), ts[0].value);
        } else {
          NotWide(fn, line);
        }
      }
    }

    method ParsePush(line: seq<Token>)
      requires line != [] && line[0].sym == PUSH
      modifies `compiled, `labelRefs
      ensures Out() == After(old(Out()), LineItems(line))
    {
      hide After;
      AfterNothing(Out());
      var ts := line[1..];
      if ts != [] {
        var sym := ts[0].sym;
        if sym.Register? && AcceptsPop(Reg(sym.mode)) {
          EmitPlain(Push(sym.mode));
        } else if sym.Number? {
          EmitByte(Push(Imm), ts[0].value);
        } else {
          NotPushed(line);
        }
      }
    }

    method ParsePop(line: seq<Token>)
      requires line != [] && line[0].sym == POP
      modifies `compiled, `labelRefs
      ensures Out() == After(old(Out()), LineItems(line))
    {
      hide After;
      AfterNothing(Out());
      var ts := line[1..];
      if ts != [] {
        var sym := ts[0].sym;
        if sym.Register? && AcceptsPop(Reg(sym.mode)) {
          EmitPlain(Pop(sym.mode));
        } else {
          NotPushed(line);
        }
      }
    }

    method ParseJmp(c: Cond, line: seq<Token>)
      requires line != [] && line[0].sym == JumpSym(c)
      modifies `compiled, `labelRefs
      ensures Out() == After(old(Out()), LineItems(line))
    {
      hide After;
      AfterNothing(Out());
      var ts := line[1..];
      if ts != [] && (ts[0].sym.Number? || ts[0].sym.LabelRef?) {
        EmitTarget(Jump(c), ts[0]);
      }
    }

    method ParseJext(line: seq<Token>)
      requires line != [] && line[0].sym == JEXT
      modifies `compiled, `labelRefs
      ensures Out() == After(old(Out()), LineItems(line))
    {
      hide After;
      AfterNothing(Out());
      var ts := line[1..];
      if ts != [] && ts[0].sym.Number? {
        var flags := ToByte(ts[0].value);
        if |ts| >= 3 && ts[1].sym == Comma && (ts[2].sym.Number? || ts[2].sym.LabelRef?) {
          EmitExt(flags, ts[2]);
        }
      }
    }

    method ParseCall(line: seq<Token>)
      requires line != [] && line[0].sym == CALL
      modifies `compiled, `labelRefs
      ensures Out() == After(old(Out()), LineItems(line))
    {
      hide After;
      AfterNothing(Out());
      var ts := line[1..];
      if ts != [] && ts[0].sym == LabelRef {
        EmitLabel(Call, RefName(ts[0]), 0);
      }
    }

    method ParseRet(line: seq<Token>)
      requires line != [] && line[0].sym == RET
      modifies `compiled, `labelRefs
      ensures Out() == After(old(Out()), LineItems(line))
    {
      hide After;
      AfterNothing(Out());
      var ts := line[1..];
      if ts == [] || ts[0].sym == Comment {
        EmitPlain(Ret);
      } else if ts[0].sym.Number? {
        EmitByte(RetI, ts[0].value);
      }
    }

    method ParseEnter(line: seq<Token>)
      requires line != [] && line[0].sym == ENTER
      modifies `compiled, `labelRefs
      ensures Out() == After(old(Out()), LineItems(line))
    {
      hide After;
      AfterNothing(Out());
      var ts := line[1..];
      if ts != [] && ts[0].sym.Number? {
        EmitByte(Enter, ts[0].value);
      }
    }

    /** A line of numbers, each truncated to a byte. */
    method DataNumbers(line: seq<Token>)
      requires line != [] && line[0].sym.Number?
      modifies `compiled
      ensures Out() == After(old(Out()), LineItems(line))
    {
      hide After, LineItems;
      NumbersLine(line);
      var k := 0;
      while k < |line| && line[k].sym.Number?
        invariant k <= |line| && labelRefs == old(labelRefs)
        invariant compiled + NumberBytes(line[k..]) == old(compiled) + NumberBytes(line)
      {
        assert line[k..][0] == line[k] && line[k..][1..] == line[k + 1..];
        assert NumberBytes(line[k..]) == [ToByte(line[k].value)] + NumberBytes(line[k + 1..]);
        PushImm8(line[k].value);
        k := k + 1;
      }
      assert NumberBytes(line[k..]) == [];
      AfterRaw(old(Out()), NumberBytes(line));
    }

    method DataQuoted(line: seq<Token>)
      requires line != [] && line[0].sym == QuotedBytes
      modifies `compiled
      ensures Out() == After(old(Out()), LineItems(line))
    {
      hide After, LineItems;
      QuotedLine(line);
      var text := line[0].text;
      ghost var bs := QuotedText(line[0]);
      var i := 1;
      while i < |text| - 1
        invariant 1 <= i <= |bs| + 1 && labelRefs == old(labelRefs)
        invariant compiled == old(compiled) + bs[..i - 1]
      {
        PushImm8(text[i] as int);
        assert bs[..i] == bs[..i - 1] + [bs[i - 1]];
        i := i + 1;
      }
      assert bs[..i - 1] == bs;
      AfterRaw(old(Out()), bs);
    }

    /** A label definition or a constant; a name that is already there keeps its value. */
    method DefineLabel(line: seq<Token>)
      requires labelDefs.Valid() && line != [] && (line[0].sym == LabelDef || line[0].sym == LabelRef)
      modifies labelDefs
      ensures labelDefs.Valid()
      ensures labelDefs.contents == Bind(old(labelDefs.contents), line, |compiled|)
    {
      hide *;
      BindsLabel(labelDefs.contents, line, |compiled|);
      var inserted;
      if line[0].sym == LabelDef {
        inserted := labelDefs.Insert(DefName(line[0]), |compiled|);
      } else if |line| >= 3 && line[1].sym == Equals && line[2].sym.Number? {
        inserted := labelDefs.Insert(RefName(line[0]), line[2].value);
      }
    }

    /** `assembleLinePass1` */
    method AssembleLinePass1(line: seq<Token>)
      requires labelDefs.Valid()
      modifies `compiled, `labelRefs, labelDefs
      ensures labelDefs.Valid()
      ensures Out() == After(old(Out()), LineItems(line))
      ensures labelDefs.contents == Bind(old(labelDefs.contents), line, |old(compiled)|)
    {
      hide After, LineItems, Bind;
      if line == [] {
        AfterNothing(Out());
        Silent(line);
        BindsNothing(labelDefs.contents, line, |compiled|);
        return;
      }
      var sym := line[0].sym;
      if sym.LabelDef? || sym.LabelRef? {
        AfterNothing(Out());
        Silent(line);
        DefineLabel(line);
        return;
      }
      BindsNothing(labelDefs.contents, line, |compiled|);
      match sym {
        case PlainSym(_) => ParsePlain(line);
        case LOAD => ParseOperandLine(Load, line);
        case STORE => ParseOperandLine(Store, line);
        case XCH => ParseOperandLine(Xch, line);
        case AluSym(fn) => ParseOperandLine(Alu(fn), line);
        case UnarySym(fn) => ParseOperandLine(Unary(fn), line);
        case WideSym(fn) => ParseWide(fn, line);
        case JumpSym(c) => ParseJmp(c, line);
        case JEXT => ParseJext(line);
        case PUSH => ParsePush(line);
        case POP => ParsePop(line);
        case CALL => ParseCall(line);
        case RET => ParseRet(line);
        case ENTER => ParseEnter(line);
        case Number(_) => DataNumbers(line);
        case QuotedBytes => DataQuoted(line);
        case Comment | Unknown | Register(_) | SP | PC | Comma | LabelIdx | LabelDef | LabelRef
          | Plus | Minus | Equals | LSquare | RSquare | LParen | RParen | LCurly | RCurly =>
          AfterNothing(Out());
          Silent(line);
      }
    }

    method AssemblePass1(lines: seq<seq<Token>>)
      requires labelDefs.Valid() && labelDefs.contents == map[]
      requires compiled == Zeros(256) && labelRefs == []
      modifies `compiled, `labelRefs, labelDefs
      ensures labelDefs.Valid() && labelDefs.contents == Labels(lines)
      ensures compiled == PassOne(lines) && labelRefs == Recorded(lines)
    {
      hide After, LineItems, Bind, Encode, Refs, ItemsTo, LabelsTo, AddressOf;
      ghost var start := Out();
      NoLines(start, lines);
      for i := 0 to |lines|
        invariant labelDefs.Valid() && labelDefs.contents == LabelsTo(lines, i)
        invariant Out() == After(start, ItemsTo(lines, i))
      {
        MoreLines(start, lines, i);
        AssembleLinePass1(lines[i]);
      }
      AfterAll(start, lines);
      HaltOpcode();
      PushOp(Halt);
    }

    /** Adds a label's value to the two bytes of a recorded site. */
    method PatchSite(r: Ref)
      requires labelDefs.Valid() && r.idx + 1 < |compiled|
      modifies `compiled
      ensures compiled == Patch(old(compiled), r, labelDefs.contents)
    {
      hide ToByte;
      var idx := labelDefs.Get(r.name);
      if idx.Some? {
        var baseHigh, baseLow := compiled[r.idx], compiled[r.idx + 1];
        var jmpToHigh := ToByte(baseHigh + ToByte(idx.value / 256));
        var jmpToLow := ToByte(baseLow + ToByte(idx.value));
        PatchBytes(compiled, r, labelDefs.contents, jmpToHigh, jmpToLow);
        compiled := compiled[r.idx := jmpToHigh];
        compiled := compiled[r.idx + 1 := jmpToLow];
      }
    }

    method AssemblePass2()
      requires labelDefs.Valid() && InBounds(compiled, labelRefs)
      modifies `compiled
      ensures compiled == PatchAll(old(compiled), labelRefs, labelDefs.contents)
    {
      hide Patch, InBounds, PatchAll;
      ghost var env := labelDefs.contents;
      assert labelRefs[0..] == labelRefs;
      for i := 0 to |labelRefs|
        invariant |compiled| == |old(compiled)| && InBounds(compiled, labelRefs[i..])
        invariant PatchAll(compiled, labelRefs[i..], env) == PatchAll(old(compiled), labelRefs, env)
      {
        assert labelRefs[i..][0] == labelRefs[i] && labelRefs[i..][1..] == labelRefs[i + 1..];
        PatchNext(compiled, labelRefs[i..], env);
        PatchSite(labelRefs[i]);
      }
      PatchNothing(compiled, env);
    }
  }

  lemma PatchNext(bytes: seq<Byte>, refs: seq<Ref>, env: Env)
    requires refs != [] && InBounds(bytes, refs)
    ensures refs[0].idx + 1 < |bytes| && InBounds(Patch(bytes, refs[0], env), refs[1..])
    ensures PatchAll(bytes, refs, env) == PatchAll(Patch(bytes, refs[0], env), refs[1..], env)
  {
    hide Patch;
  }

  lemma PatchNothing(bytes: seq<Byte>, env: Env)
    ensures InBounds(bytes, []) && PatchAll(bytes, [], env) == bytes
  {
  }

  /** The mnemonics with the common operand switch. */
  function KindOf(sym: Sym): Option<Kind> {
    match sym
    case LOAD => Some(Load)
    case STORE => Some(Store)
    case XCH => Some(Xch)
    case AluSym(fn) => Some(Alu(fn))
    case UnarySym(fn) => Some(Unary(fn))
    case _ => None
  }

  lemma UseLine(line: seq<Token>, kind: Kind)
    requires line != [] && KindOf(line[0].sym) == Some(kind)
    ensures LineItems(line) == OperandItems(kind, ParseOperand(line[1..]))
  {
    hide ParseOperand, LowerUse, Accepts;
  }

  lemma NotWide(fn: WideFn, line: seq<Token>)
    requires |line| > 1 && line[0].sym == WideSym(fn) && !line[1].sym.Number?
    requires line[1].sym.Register? ==> !AcceptsWide(Reg(line[1].sym.mode))
    ensures LineItems(line) == []
  {
    hide ParseExpr;
  }

  lemma NotPushed(line: seq<Token>)
    requires |line| > 1 && (line[0].sym == PUSH || line[0].sym == POP)
    requires line[0].sym == PUSH ==> !line[1].sym.Number?
    requires line[1].sym.Register? ==> !AcceptsPop(Reg(line[1].sym.mode))
    ensures LineItems(line) == []
  {
    hide ParseExpr;
  }

  lemma {:induction false} AfterRaw(out: Output, bs: seq<Byte>)
    ensures AllWellFormed(RawItems(bs))
    ensures After(out, RawItems(bs)) == Output(out.bytes + bs, out.refs)
    decreases |bs|
  {
    hide After, Encode, Refs;
    if bs == [] {
      AfterNothing(out);
      assert RawItems(bs) == [] && out.bytes + bs == out.bytes;
    } else {
      AfterRaw(Output(out.bytes + [bs[0]], out.refs), bs[1..]);
      AfterOne(out, Raw(bs[0]));
      AfterConcat(out, [Raw(bs[0])], RawItems(bs[1..]));
      assert RawItems(bs) == [Raw(bs[0])] + RawItems(bs[1..]);
      assert out.bytes + [bs[0]] + bs[1..] == out.bytes + bs;
      assert out.refs + [] == out.refs;
    }
  }

  lemma NumbersLine(line: seq<Token>)
    requires line != [] && line[0].sym.Number?
    ensures LineItems(line) == RawItems(NumberBytes(line))
  {
    hide NumberBytes, RawItems;
  }

  lemma QuotedLine(line: seq<Token>)
    requires line != [] && line[0].sym == QuotedBytes
    ensures LineItems(line) == RawItems(QuotedText(line[0]))
  {
    hide QuotedText, RawItems;
  }

  /** The lines that emit no code: definitions, comments, and lines that start with a token no
      line may start with. */
  predicate EmitsNothing(sym: Sym) {
    match sym
    case LabelDef | LabelRef | Comment | Unknown | Register(_) | SP | PC | Comma | LabelIdx
      | Plus | Minus | Equals | LSquare | RSquare | LParen | RParen | LCurly | RCurly => true
    case _ => false
  }

  lemma Silent(line: seq<Token>)
    requires line == [] || EmitsNothing(line[0].sym)
    ensures LineItems(line) == []
  {
    SilentStatement(line);
    hide ParseLine, EmitsNothing;
  }

  lemma SilentStatement(line: seq<Token>)
    requires line == [] || EmitsNothing(line[0].sym)
    ensures match ParseLine(line)
            case None => true
            case Some(st) => st.Define? || st.Constant? || st.Blank?
  {
    hide ParseOperand, ParseTarget, NumberBytes, QuotedText, Legal;
  }

  /** What a definition adds to the labels. */
  lemma BindsLabel(env: Env, line: seq<Token>, here: nat)
    requires line != [] && (line[0].sym == LabelDef || line[0].sym == LabelRef)
    ensures Bind(env, line, here) ==
              if line[0].sym == LabelDef then (if DefName(line[0]) in env then env else env[DefName(line[0]) := here])
              else if |line| >= 3 && line[1].sym == Equals && line[2].sym.Number? then
                (if RefName(line[0]) in env then env else env[RefName(line[0]) := line[2].value])
              else env
  {
    hide ParseOperand, ParseTarget, Legal, DefName, RefName;
  }

  lemma BindsNothing(env: Env, line: seq<Token>, here: nat)
    requires line == [] || (line[0].sym != LabelDef && line[0].sym != LabelRef)
    ensures Bind(env, line, here) == env
  {
    hide ParseOperand, ParseTarget, Legal;
  }

  lemma NoLines(start: Output, lines: seq<seq<Token>>)
    ensures LabelsTo(lines, 0) == map[] && After(start, ItemsTo(lines, 0)) == start
  {
  }

  lemma MoreLines(start: Output, lines: seq<seq<Token>>, i: nat)
    requires i < |lines| && start == Output(Zeros(256), [])
    ensures After(start, ItemsTo(lines, i + 1)) == After(After(start, ItemsTo(lines, i)), LineItems(lines[i]))
    ensures |After(start, ItemsTo(lines, i)).bytes| == AddressOf(lines, i)
    ensures LabelsTo(lines, i + 1) == Bind(LabelsTo(lines, i), lines[i], AddressOf(lines, i))
  {
    hide LineItems, Bind, Encode, Refs;
    AfterConcat(start, ItemsTo(lines, i), LineItems(lines[i]));
  }

  lemma AfterAll(start: Output, lines: seq<seq<Token>>)
    requires start == Output(Zeros(256), [])
    ensures After(start, ItemsTo(lines, |lines|))
         == Output(Zeros(256) + Encode(map[], ProgramItems(lines)), Refs(ProgramItems(lines), 256))
    ensures Labels(lines) == LabelsTo(lines, |lines|)
  {
    hide ItemsTo, LabelsTo, Encode, Refs;
  }

  lemma PatchBytes(bytes: seq<Byte>, r: Ref, env: Env, high: Byte, low: Byte)
    requires r.idx + 1 < |bytes| && r.name in env
    requires high == ToByte(bytes[r.idx] + ToByte(env[r.name] / 256))
    requires low == ToByte(bytes[r.idx + 1] + ToByte(env[r.name]))
    ensures Patch(bytes, r, env) == bytes[r.idx := high][r.idx + 1 := low]
  {
    hide ToByte;
    WrapSum(env[r.name] / 256, bytes[r.idx]);
    WrapSum(env[r.name], bytes[r.idx + 1]);
  }

  /** `assemble`: both passes over a program. The result is the one-shot encoding under the final
      label environment, whatever the hash function. */
  method Assemble(lines: seq<seq<Token>>, hash: string -> nat) returns (executable: seq<Byte>)
    ensures executable == OneShot(lines)
  {
    hide *;
    var a := new Assembler(hash);
    a.AssemblePass1(lines);
    TwoPassesAreOne(lines);
    a.AssemblePass2();
    executable := a.compiled;
  }

  /** Patching the output of pass 1 gives the one-shot encoding. */
  lemma TwoPassesAreOne(lines: seq<seq<Token>>)
    ensures InBounds(PassOne(lines), Recorded(lines))
    ensures PatchAll(PassOne(lines), Recorded(lines), Labels(lines)) == OneShot(lines)
  {
    hide Encode, Refs, PatchAll, InBounds, ProgramItems, Labels;
    PatchResolves(Labels(lines), Zeros(256), ProgramItems(lines), [HALT]);
  }
}
