/** Lines and programs of tokens, and the iterator that produces them. Tokens and the blanks
    between them tile the text. */
module Tokenizer {
  import opened Isa
  import opened Syntax
  import opened Lexing

  /** A token as a stretch of the text, with its offset in its line. */
  datatype Lexeme = Lexeme(sym: Sym, start: nat, end: nat, charNr: nat)

  datatype Line = Line(lexemes: seq<Lexeme>, start: nat, end: nat, number: nat)

  const NO_LINE := Line([], 0, 0, 0)

  /** Tokens are non-empty stretches of the text. */
  predicate Within(text: string, ls: seq<Lexeme>) {
    forall i :: 0 <= i < |ls| ==> ls[i].start < ls[i].end <= |text|
  }

  /** The tokens from p, which is not at a space, to the end of the line, and where that is. */
  function LineBody(text: string, p: nat, from: nat): (r: (seq<Lexeme>, nat))
    requires from <= p <= |text| && At(text, p) != ' '
    ensures p <= r.1 <= |text| && At(text, r.1) in {'\0', '\n'}
    ensures Within(text, r.0)
    decreases |text| - p
  {
    if At(text, p) in {'\0', '\n'} then ([], p)
    else
      var x := Symbol(text, p);
      var rest := LineBody(text, Skip(Spaces, text, x.end), from);
      ([Lexeme(x.sym, p, x.end, p - from)] + rest.0, rest.1)
  }

  /** One line: its tokens, and where the next line starts. */
  function LexLine(text: string, p: nat, number: nat): (r: (Line, nat))
    requires p <= |text|
    ensures p <= r.1 <= |text|
    ensures At(text, p) != '\0' ==> p < r.1
    ensures Within(text, r.0.lexemes)
  {
    var q := Skip(Spaces, text, p);
    if At(text, q) == '\n' then (NO_LINE, q + 1)
    else
      var body := LineBody(text, q, p);
      if body.0 == [] then (NO_LINE, body.1)
      else
        assert body.1 > q;
        (Line(body.0, p, body.1, number), if At(text, body.1) == '\n' then body.1 + 1 else body.1)
  }

  /** The lines that have tokens. */
  function LexProgram(text: string, p: nat, number: nat): (lines: seq<Line>)
    requires p <= |text|
    ensures forall i :: 0 <= i < |lines| ==> Within(text, lines[i].lexemes)
    decreases |text| - p
  {
    if At(text, p) == '\0' then []
    else
      var r := LexLine(text, p, number);
      (if r.0.lexemes == [] then [] else [r.0]) + LexProgram(text, r.1, number + 1)
  }

  lemma BodyStep(text: string, p: nat, from: nat)
    requires from <= p <= |text| && At(text, p) !in {'\0', '\n', ' '}
    ensures var x := Symbol(text, p);
            var rest := LineBody(text, Skip(Spaces, text, x.end), from);
            LineBody(text, p, from) == ([Lexeme(x.sym, p, x.end, p - from)] + rest.0, rest.1)
  {
    hide Skip, Symbol;
  }

  lemma BodyEnd(text: string, p: nat, from: nat)
    requires from <= p <= |text| && At(text, p) in {'\0', '\n'}
    ensures LineBody(text, p, from) == ([], p)
  {
  }

  lemma LexLineIs(text: string, p: nat, number: nat)
    requires p <= |text|
    ensures var q := Skip(Spaces, text, p);
            LexLine(text, p, number) ==
              if At(text, q) == '\n' then (NO_LINE, q + 1)
              else
                var body := LineBody(text, q, p);
                if body.0 == [] then (NO_LINE, body.1)
                else (Line(body.0, p, body.1, number), if At(text, body.1) == '\n' then body.1 + 1 else body.1)
  {
    hide Skip, LineBody;
  }

  lemma BadCapped(text: string, p: nat)
    ensures Bad(text, p) == Bad(text, Cap(text, p))
  {
    hide Skip;
  }

  /** Reading past the end leaves the iterator at the end. */
  lemma BadBehind(text: string, p: nat)
    ensures Bad(text, p + 1) == Bad(text, Cap(text, p + 1))
    ensures Bad(text, p + 2) == Bad(text, Cap(text, p + 2))
  {
    hide Skip;
  }

  // ---------- the iterator ----------

  class Iterator {
    const text: string
    var ptr: nat

    predicate Valid()
      reads this
    {
      ptr <= |text|
    }

    constructor (text: string)
      ensures Valid() && this.text == text && ptr == 0
    {
      this.text := text;
      ptr := 0;
    }

    function Peek(): (c: char)
      requires Valid()
      reads this
      ensures c == At(text, ptr)
    {
      if ptr < |text| then text[ptr] else '\0'
    }

    method Next() returns (c: char)
      requires Valid()
      modifies this
      ensures Valid() && c == At(text, old(ptr)) && ptr == Cap(text, old(ptr) + 1)
    {
      c := Peek();
      if ptr < |text| {
        ptr := ptr + 1;
      }
    }

    /** The loop all the skipping functions share. */
    method SkipOver(cls: Class)
      requires Valid()
      modifies this
      ensures Valid() && ptr == Skip(cls, text, old(ptr))
    {
      var p := Peek();
      while p != '\0' && In(cls, p)
        invariant Valid() && p == At(text, ptr)
        invariant Skip(cls, text, ptr) == Skip(cls, text, old(ptr))
        decreases |text| - ptr
      {
        var _ := Next();
        p := Peek();
      }
    }

    method SkipDigits()
      requires Valid()
      modifies this
      ensures Valid() && ptr == SkipNumber(text, old(ptr))
    {
      if ToLower(Peek()) in {'b', 'o', 'x'} {
        var _ := Next();
      }
      SkipOver(HexDigits);
    }

    method SkipUntilDoubleQuotes()
      requires Valid()
      modifies this
      ensures Valid() && ptr == Cap(text, Skip(Unquoted, text, old(ptr)) + 1)
    {
      SkipOver(Unquoted);
      var _ := Next();
    }

    method TokenizeName() returns (sym: Sym)
      requires Valid()
      modifies this
      ensures Valid() && Lexed(sym, ptr) == Name(text, old(ptr))
    {
      SkipOver(LabelChars);
      if Peek() == ':' {
        var _ := Next();
        sym := LabelDef;
      } else if Peek() == '[' {
        sym := LabelIdx;
      } else {
        SkipOver(Alnums);
        sym := Unknown;
      }
    }

    /** `unknown`: skips the rest of the word. */
    method UnknownWord() returns (sym: Sym)
      requires Valid()
      modifies this
      ensures Valid() && Lexed(sym, ptr) == Bad(text, old(ptr))
    {
      hide Skip;
      SkipOver(Alnums);
      sym := Unknown;
    }

    /** A chain of reads, each compared with the next character of the spelling, and the test of what
        follows. */
    method Complete(w: string, f: Follow, found: Sym) returns (sym: Sym)
      requires Valid() && NulFree(w)
      modifies this
      ensures Valid() && Lexed(sym, ptr) == Expect(text, old(ptr), w, f, found)
    {
      hide Skip, Follows;
      for i := 0 to |w|
        invariant Valid() && Expect(text, ptr, w[i..], f, found) == Expect(text, old(ptr), w, f, found)
      {
        assert w[i..][0] == w[i] && w[i..][1..] == w[i + 1..];
        var p := ptr;
        var c := Next();
        if c != w[i] {
          BadCapped(text, p + 1);
          sym := UnknownWord();
          return;
        }
      }
      assert w[|w|..] == "";
      if Follows(f, Peek()) {
        sym := found;
      } else {
        sym := UnknownWord();
      }
    }

    method TokenizeA() returns (sym: Sym)
      requires Valid() && ptr > 0
      modifies this
      ensures Valid() && Lexed(sym, ptr) == WordA(text, old(ptr) - 1)
    {
      hide Expect, Skip, Bad;
      BadBehind(text, ptr);
      var c := Next();
      if c == 'C' {
        sym := Complete("C", Delimiter, Register(Acc));
      } else if c == 'D' {
        var d := Next();
        if d == 'C' {
          sym := Complete("", Delimiter, AluSym(ADC));
        } else if d == 'D' {
          if IsDelimiter(Peek()) {
            sym := AluSym(ADD);
          } else {
            sym := Complete("W", Delimiter, WideSym(ADDW));
          }
        } else {
          sym := UnknownWord();
        }
      } else if c == 'N' {
        sym := Complete("D", Delimiter, AluSym(AND));
      } else {
        sym := UnknownWord();
      }
    }

    method TokenizeB() returns (sym: Sym)
      requires Valid() && ptr > 0
      modifies this
      ensures Valid() && Lexed(sym, ptr) == WordB(text, old(ptr) - 1)
    {
      hide Expect, Skip, Bad;
      BadBehind(text, ptr);
      var c := Next();
      if c == 'P' {
        sym := Register(BP);
      } else {
        sym := UnknownWord();
      }
    }

    method TokenizeC() returns (sym: Sym)
      requires Valid() && ptr > 0
      modifies this
      ensures Valid() && Lexed(sym, ptr) == WordC(text, old(ptr) - 1)
    {
      hide Expect, Skip, Bad;
      BadBehind(text, ptr);
      var c := Next();
      if c == 'A' {
        sym := Complete("LL", Delimiter, CALL);
      } else if c == 'M' {
        sym := Complete("P", Delimiter, AluSym(CMP));
      } else {
        sym := UnknownWord();
      }
    }

    method TokenizeD() returns (sym: Sym)
      requires Valid() && ptr > 0
      modifies this
      ensures Valid() && Lexed(sym, ptr) == WordD(text, old(ptr) - 1)
    {
      hide Expect, Skip, Bad;
      BadBehind(text, ptr);
      var c := Next();
      if c == 'E' {
        sym := Complete("C", Delimiter, UnarySym(DEC));
      } else if c == 'I' {
        if IsDelimiter(Peek()) {
          sym := PlainSym(Di);
        } else {
          sym := Complete("VW", Delimiter, WideSym(DIVW));
        }
      } else if c == 'T' {
        sym := Complete("", Delimiter, PlainSym(Dt));
      } else {
        sym := UnknownWord();
      }
    }

    method TokenizeE() returns (sym: Sym)
      requires Valid() && ptr > 0
      modifies this
      ensures Valid() && Lexed(sym, ptr) == WordE(text, old(ptr) - 1)
    {
      hide Expect, Skip, Bad;
      BadBehind(text, ptr);
      var c := Next();
      if c == 'I' {
        sym := Complete("", Delimiter, PlainSym(Ei));
      } else if c == 'N' {
        sym := Complete("TER", Delimiter, ENTER);
      } else if c == 'T' {
        sym := Complete("", Delimiter, PlainSym(Et));
      } else {
        sym := UnknownWord();
      }
    }

    method TokenizeH() returns (sym: Sym)
      requires Valid() && ptr > 0
      modifies this
      ensures Valid() && Lexed(sym, ptr) == WordH(text, old(ptr) - 1)
    {
      hide Expect, Skip, Bad;
      BadBehind(text, ptr);
      var c := Next();
      if c == 'A' {
        sym := Complete("LT", NotAlnum, PlainSym(Halt));
      } else if c == 'L' {
        sym := Register(HL);
      } else {
        sym := Register(H);
        if c != '\0' {
          ptr := ptr - 1;
        }
      }
    }

    method TokenizeJ() returns (sym: Sym)
      requires Valid() && ptr > 0
      modifies this
      ensures Valid() && Lexed(sym, ptr) == WordJ(text, old(ptr) - 1)
    {
      hide Expect, Skip, Bad;
      BadBehind(text, ptr);
      var c := Next();
      if c == 'C' {
        sym := Complete("", Delimiter, JumpSym(IfCarry));
      } else if c == 'E' {
        sym := Complete("XT", Delimiter, JEXT);
      } else if c == 'N' {
        var d := Next();
        if d == 'C' {
          sym := Complete("", Delimiter, JumpSym(IfNotCarry));
        } else if d == 'S' {
          sym := Complete("", Delimiter, JumpSym(IfNotSign));
        } else if d == 'Z' {
          sym := Complete("", Delimiter, JumpSym(IfNotZero));
        } else {
          sym := UnknownWord();
        }
      } else if c == 'M' {
        sym := Complete("P", Delimiter, JumpSym(Always));
      } else if c == 'S' {
        sym := Complete("", Delimiter, JumpSym(IfSign));
      } else if c == 'Z' {
        sym := Complete("", Delimiter, JumpSym(IfZero));
      } else {
        sym := UnknownWord();
      }
    }

    method TokenizeL() returns (sym: Sym)
      requires Valid() && ptr > 0
      modifies this
      ensures Valid() && Lexed(sym, ptr) == WordL(text, old(ptr) - 1)
    {
      hide Expect, Skip, Bad;
      BadBehind(text, ptr);
      var c := Next();
      if c == 'E' {
        sym := Complete("AVE", Delimiter, PlainSym(Leave));
      } else if c == 'O' {
        sym := Complete("AD", Delimiter, LOAD);
      } else {
        sym := Register(L);
        if c != '\0' {
          ptr := ptr - 1;
        }
      }
    }

    method TokenizeM() returns (sym: Sym)
      requires Valid() && ptr > 0
      modifies this
      ensures Valid() && Lexed(sym, ptr) == WordM(text, old(ptr) - 1)
    {
      hide Expect, Skip, Bad;
      BadBehind(text, ptr);
      var c := Next();
      if c == 'A' {
        sym := Complete("X", Delimiter, AluSym(MAX));
      } else if c == 'I' {
        sym := Complete("N", Delimiter, AluSym(MIN));
      } else if c == 'U' {
        sym := Complete("LW", Delimiter, WideSym(MULW));
      } else {
        sym := UnknownWord();
      }
    }

    method TokenizeN() returns (sym: Sym)
      requires Valid() && ptr > 0
      modifies this
      ensures Valid() && Lexed(sym, ptr) == WordN(text, old(ptr) - 1)
    {
      hide Expect, Skip, Bad;
      BadBehind(text, ptr);
      var c := Next();
      if c == 'E' {
        sym := Complete("G", Delimiter, UnarySym(NEG));
      } else if c == 'O' {
        var d := Next();
        if d == 'O' {
          sym := Complete("P", Delimiter, PlainSym(Noop));
        } else if d == 'T' {
          sym := Complete("", Delimiter, UnarySym(NOT));
        } else {
          sym := UnknownWord();
        }
      } else {
        sym := UnknownWord();
      }
    }

    method TokenizeP() returns (sym: Sym)
      requires Valid() && ptr > 0
      modifies this
      ensures Valid() && Lexed(sym, ptr) == WordP(text, old(ptr) - 1)
    {
      hide Expect, Skip, Bad;
      BadBehind(text, ptr);
      var c := Next();
      if c == 'C' {
        sym := PC;
      } else if c == 'O' {
        sym := Complete("P", Delimiter, POP);
      } else if c == 'U' {
        sym := Complete("SH", Delimiter, PUSH);
      } else {
        sym := UnknownWord();
      }
    }

    method TokenizeR() returns (sym: Sym)
      requires Valid() && ptr > 0
      modifies this
      ensures Valid() && Lexed(sym, ptr) == WordR(text, old(ptr) - 1)
    {
      hide Expect, Skip, Bad;
      BadBehind(text, ptr);
      var c := Next();
      if c == '0' {
        sym := Register(R0);
      } else if c == '1' {
        sym := Register(R1);
      } else if c == 'E' {
        var d := Next();
        if d == 'S' {
          sym := Complete("ET", Delimiter, PlainSym(Reset));
        } else if d == 'T' {
          sym := Complete("", Delimiter, RET);
        } else {
          sym := UnknownWord();
        }
      } else if c == 'O' {
        var d := Next();
        if d == 'L' {
          sym := Complete("", Delimiter, AluSym(ROL));
        } else if d == 'R' {
          sym := Complete("", Delimiter, AluSym(ROR));
        } else {
          sym := UnknownWord();
        }
      } else {
        sym := UnknownWord();
      }
    }

    method TokenizeS() returns (sym: Sym)
      requires Valid() && ptr > 0
      modifies this
      ensures Valid() && Lexed(sym, ptr) == WordS(text, old(ptr) - 1)
    {
      hide Expect, Skip, Bad;
      BadBehind(text, ptr);
      var c := Next();
      if c == 'B' {
        sym := Complete("C", Delimiter, AluSym(SBC));
      } else if c == 'H' {
        var d := Next();
        if d == 'L' {
          sym := Complete("", Delimiter, AluSym(SHL));
        } else if d == 'R' {
          sym := Complete("", Delimiter, AluSym(SHR));
        } else {
          sym := UnknownWord();
        }
      } else if c == 'P' {
        sym := SP;
      } else if c == 'T' {
        sym := Complete("ORE", Delimiter, STORE);
      } else if c == 'U' {
        var d := Next();
        if d == 'B' {
          if IsDelimiter(Peek()) {
            sym := AluSym(SUB);
          } else {
            sym := Complete("W", Delimiter, WideSym(SUBW));
          }
        } else {
          sym := UnknownWord();
        }
      } else {
        sym := UnknownWord();
      }
    }

    method TokenizeX() returns (sym: Sym)
      requires Valid() && ptr > 0
      modifies this
      ensures Valid() && Lexed(sym, ptr) == WordX(text, old(ptr) - 1)
    {
      hide Expect, Skip, Bad;
      BadBehind(text, ptr);
      var c := Next();
      if c == 'C' {
        sym := Complete("H", Delimiter, XCH);
      } else if c == 'O' {
        sym := Complete("R", Delimiter, AluSym(XOR));
      } else {
        sym := UnknownWord();
      }
    }

    /** The switch over the letters mnemonics and registers start with. */
    method TokenizeMnemonic(c: char) returns (sym: Sym)
      requires Valid() && ptr > 0 && c == text[ptr - 1]
      modifies this
      ensures Valid() && Lexed(sym, ptr) == Mnemonic(text, old(ptr) - 1)
    {
      hide Expect, Skip, Bad, WordA, WordB, WordC, WordD, WordE, WordH, WordJ, WordL, WordM, WordN, WordP, WordR, WordS,
           WordX;
      match c
      case 'A' => sym := TokenizeA();
      case 'B' => sym := TokenizeB();
      case 'C' => sym := TokenizeC();
      case 'D' => sym := TokenizeD();
      case 'E' => sym := TokenizeE();
      case 'F' => sym := Complete("LAGS", Delimiter, Register(FLAGS));
      case 'H' => sym := TokenizeH();
      case 'I' => sym := Complete("NC", Delimiter, UnarySym(INC));
      case 'J' => sym := TokenizeJ();
      case 'L' => sym := TokenizeL();
      case 'M' => sym := TokenizeM();
      case 'N' => sym := TokenizeN();
      case 'O' => sym := Complete("R", Delimiter, AluSym(OR));
      case 'P' => sym := TokenizeP();
      case 'R' => sym := TokenizeR();
      case 'S' => sym := TokenizeS();
      case 'X' => sym := TokenizeX();
      case _ => sym := UnknownWord();
    }

    method TokenizeSymbol() returns (sym: Sym)
      requires Valid()
      modifies this
      ensures Valid() && Lexed(sym, ptr) == Symbol(text, old(ptr))
    {
      hide Mnemonic, Skip, Name, SkipNumber;
      var start := ptr;
      var c := Next();
      if c == '\0' && start == |text| {
        SkipOver(Alnums);
        sym := Unknown;
      } else if Punctuation(c).Some? {
        sym := Punctuation(c).value;
      } else if c == '"' {
        SkipUntilDoubleQuotes();
        sym := QuotedBytes;
      } else if c == ';' {
        SkipOver(ToLineEnd);
        sym := Comment;
      } else if c == '.' {
        SkipOver(LabelChars);
        sym := LabelRef;
      } else if IsDigit(c) {
        var radix := RadixOf(Peek());
        SkipDigits();
        sym := Number(radix);
      } else if 'a' <= c <= 'z' || c == '_' {
        sym := TokenizeName();
      } else {
        sym := TokenizeMnemonic(c);
      }
    }

    method TokenizeLine(number: nat) returns (line: Line)
      requires Valid()
      modifies this
      ensures Valid() && (line, ptr) == LexLine(text, old(ptr), number)
    {
      hide Skip, Symbol, LineBody, LexLine;
      LexLineIs(text, ptr, number);
      var from := ptr;
      SkipOver(Spaces);
      if Peek() == '\n' {
        var _ := Next();
        return NO_LINE;
      }
      var res: seq<Lexeme> := [];
      ghost var all := LineBody(text, ptr, from);
      var p := Peek();
      while p != '\0' && p != '\n'
        invariant Valid() && from <= ptr && p == At(text, ptr) && p != ' '
        invariant all.0 == res + LineBody(text, ptr, from).0 && all.1 == LineBody(text, ptr, from).1
        decreases |text| - ptr
      {
        BodyStep(text, ptr, from);
        var start := ptr;
        var sym := TokenizeSymbol();
        res := res + [Lexeme(sym, start, ptr, start - from)];
        SkipOver(Spaces);
        p := Peek();
      }
      BodyEnd(text, ptr, from);
      assert res + [] == res;
      assert all.0 == res && all.1 == ptr;
      if res == [] {
        return NO_LINE;
      }
      line := Line(res, from, ptr, number);
      if Peek() == '\n' {
        var _ := Next();
      }
    }
  }

  /** `tokenizeProgram`. */
  method TokenizeProgram(text: string) returns (lines: seq<Line>)
    ensures lines == LexProgram(text, 0, 1)
  {
    hide LexLine, Within, LexProgram;
    lines := [];
    var number := 1;
    var iter := new Iterator(text);
    while iter.Peek() != '\0'
      invariant iter.Valid() && iter.text == text
      invariant lines + LexProgram(text, iter.ptr, number) == LexProgram(text, 0, 1)
      decreases |text| - iter.ptr
    {
      ProgramStep(text, iter.ptr, number);
      var line := iter.TokenizeLine(number);
      if |line.lexemes| > 0 {
        lines := lines + [line];
      }
      number := number + 1;
    }
    ProgramEnd(text, iter.ptr, number);
  }

  lemma ProgramStep(text: string, p: nat, number: nat)
    requires p <= |text| && At(text, p) != '\0'
    ensures var r := LexLine(text, p, number);
            LexProgram(text, p, number)
              == (if r.0.lexemes == [] then [] else [r.0]) + LexProgram(text, r.1, number + 1)
  {
    hide LexLine;
  }

  lemma ProgramEnd(text: string, p: nat, number: nat)
    requires p <= |text| && At(text, p) == '\0'
    ensures LexProgram(text, p, number) == []
  {
  }

  // ---------- tiling ----------

  predicate Blank(text: string, a: nat, b: nat) {
    a <= b <= |text| && forall i :: a <= i < b ==> text[i] == ' ' || text[i] == '\n'
  }

  /** From p on the text is the tokens in order, none empty, with blanks before, between and after. */
  ghost predicate Tiles(text: string, p: nat, ls: seq<Lexeme>, end: nat)
    decreases |ls|
  {
    if ls == [] then Blank(text, p, end)
    else Blank(text, p, ls[0].start) && ls[0].start < ls[0].end <= |text| && Tiles(text, ls[0].end, ls[1..], end)
  }

  function AllLexemes(lines: seq<Line>): seq<Lexeme>
    decreases |lines|
  {
    if lines == [] then [] else lines[0].lexemes + AllLexemes(lines[1..])
  }

  /** Each token's offset is its distance from the start of its line. */
  ghost predicate Placed(line: Line) {
    forall i :: 0 <= i < |line.lexemes| ==>
      line.start <= line.lexemes[i].start && line.lexemes[i].charNr == line.lexemes[i].start - line.start
  }

  /** A line starts at the start of the text or behind a newline. */
  predicate AtLineStart(text: string, p: nat) { p == 0 || (p <= |text| && text[p - 1] == '\n') }

  lemma BlankJoin(text: string, a: nat, b: nat, c: nat)
    requires Blank(text, a, b) && Blank(text, b, c)
    ensures Blank(text, a, c)
  {
  }

  lemma {:induction false} TilesMore(text: string, p: nat, q: nat, ls: seq<Lexeme>, end: nat)
    requires Blank(text, p, q) && Tiles(text, q, ls, end)
    ensures Tiles(text, p, ls, end)
  {
    BlankJoin(text, p, q, if ls == [] then end else ls[0].start);
  }

  lemma {:induction false} TilesJoin(text: string, p: nat, xs: seq<Lexeme>, q: nat, ys: seq<Lexeme>, end: nat)
    requires Tiles(text, p, xs, q) && Tiles(text, q, ys, end)
    ensures Tiles(text, p, xs + ys, end)
    decreases |xs|
  {
    if xs == [] {
      assert xs + ys == ys;
      TilesMore(text, p, q, ys, end);
    } else {
      TilesJoin(text, xs[0].end, xs[1..], q, ys, end);
      assert (xs + ys)[1..] == xs[1..] + ys;
    }
  }

  lemma SpacesBlank(text: string, p: nat)
    requires p <= |text|
    ensures Blank(text, p, Skip(Spaces, text, p))
  {
  }

  lemma {:induction false} BodyTiles(text: string, p: nat, from: nat)
    requires from <= p <= |text| && At(text, p) != ' '
    ensures var r := LineBody(text, p, from); Tiles(text, p, r.0, r.1) && Placed(Line(r.0, from, r.1, 0))
    decreases |text| - p
  {
    hide LineBody, Symbol, Skip;
    if At(text, p) in {'\0', '\n'} {
      BodyEnd(text, p, from);
    } else {
      BodyStep(text, p, from);
      var x := Symbol(text, p);
      var q := Skip(Spaces, text, x.end);
      SpacesBlank(text, x.end);
      BodyTiles(text, q, from);
      var rest := LineBody(text, q, from);
      TilesMore(text, x.end, q, rest.0, rest.1);
      var ls := [Lexeme(x.sym, p, x.end, p - from)] + rest.0;
      assert ls[1..] == rest.0;
    }
  }

  lemma NewlineBlank(text: string, p: nat)
    requires At(text, p) == '\n'
    ensures p < |text| && Tiles(text, p, [], p + 1) && AtLineStart(text, p + 1)
  {
  }

  lemma NothingPlaced()
    ensures Placed(NO_LINE)
  {
  }

  lemma PlacedSame(line: Line, line': Line)
    requires Placed(line) && line'.lexemes == line.lexemes && line'.start == line.start
    ensures Placed(line')
  {
  }

  /** A line's tokens tile it, up to the start of the next line. */
  lemma LineTiles(text: string, p: nat, number: nat)
    requires p <= |text| && AtLineStart(text, p)
    ensures var r := LexLine(text, p, number);
            && Tiles(text, p, r.0.lexemes, r.1) && Placed(r.0)
            && (r.0.lexemes != [] ==> r.0.start == p && r.0.number == number)
            && (At(text, r.1) != '\0' ==> AtLineStart(text, r.1))
  {
    hide LexLine, LineBody, Skip, Within, Tiles, Placed, Blank;
    LexLineIs(text, p, number);
    var q := Skip(Spaces, text, p);
    SpacesBlank(text, p);
    if At(text, q) == '\n' {
      NewlineBlank(text, q);
      TilesMore(text, p, q, [], q + 1);
      NothingPlaced();
    } else {
      BodyTiles(text, q, p);
      var body := LineBody(text, q, p);
      TilesMore(text, p, q, body.0, body.1);
      PlacedSame(Line(body.0, p, body.1, 0), Line(body.0, p, body.1, number));
      NothingPlaced();
      if At(text, q) == '\0' {
        BodyEnd(text, q, p);
      } else {
        BodyStep(text, q, p);
      }
      if At(text, body.1) == '\n' {
        NewlineBlank(text, body.1);
        TilesJoin(text, p, body.0, body.1, [], body.1 + 1);
        assert body.0 + [] == body.0;
      }
    }
  }

  /** Tokenizing is a tiling: for text without NUL characters, the tokens of all lines, with the
      spaces and newlines between them, are the whole text; every token's offset is the one in its
      line, and every line begins where a line of text does. */
  lemma {:induction false} ProgramTiles(text: string, p: nat, number: nat)
    requires p <= |text| && NulFree(text) && (p < |text| ==> AtLineStart(text, p))
    ensures var lines := LexProgram(text, p, number);
            && Tiles(text, p, AllLexemes(lines), |text|)
            && forall i :: 0 <= i < |lines| ==> Placed(lines[i]) && AtLineStart(text, lines[i].start)
    decreases |text| - p
  {
    hide LexLine, Tiles, Placed;
    if p == |text| {
      TilesNothing(text);
    } else {
      var r := LexLine(text, p, number);
      LineTiles(text, p, number);
      ProgramTiles(text, r.1, number + 1);
      var rest := LexProgram(text, r.1, number + 1);
      TilesJoin(text, p, r.0.lexemes, r.1, AllLexemes(rest), |text|);
      if r.0.lexemes == [] {
        assert LexProgram(text, p, number) == [] + rest == rest;
        assert [] + AllLexemes(rest) == AllLexemes(rest);
      } else {
        assert ([r.0] + rest)[1..] == rest;
      }
    }
  }

  lemma TilesNothing(text: string)
    ensures Tiles(text, |text|, [], |text|)
  {
  }

  /** The text put together again from blanks and tokens. */
  function Rebuild(text: string, p: nat, ls: seq<Lexeme>, end: nat): string
    requires Tiles(text, p, ls, end)
    decreases |ls|
  {
    if ls == [] then text[p..end]
    else text[p..ls[0].start] + text[ls[0].start..ls[0].end] + Rebuild(text, ls[0].end, ls[1..], end)
  }

  lemma {:induction false} RebuildsText(text: string, p: nat, ls: seq<Lexeme>, end: nat)
    requires Tiles(text, p, ls, end)
    ensures p <= end <= |text| && Rebuild(text, p, ls, end) == text[p..end]
    decreases |ls|
  {
    if ls != [] {
      RebuildsText(text, ls[0].end, ls[1..], end);
    }
  }
}
