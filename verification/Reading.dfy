/** What texts can spell: the statements that round-trip through text are those that some text spells,
    besides empty lines and the empty quotation. */
module Reading {
  import opened Syntax
  import opened Spelling
  import opened Lexing
  import Literals
  import opened Tokenizer
  import opened Rendering
  import opened SourceText

  // ---------- the tokens of a text ----------

  /** Names and registers as a text can have them. */
  predicate InText(t: Token) {
    match t.sym
    case LabelRef => t.text[0] == '.' && LabelText(t.text[1..])
    case LabelDef => t.text[|t.text| - 1] == ':' && NameText(t.text[..|t.text| - 1])
    case LabelIdx => NameText(t.text)
    case _ => true
  }

  ghost predicate AllInText(ts: seq<Token>) { forall i :: 0 <= i < |ts| ==> InText(ts[i]) }

  /** Every token is what the symbol at its start is read as. */
  ghost predicate Symbols(text: string, ls: seq<Lexeme>) {
    forall i :: 0 <= i < |ls| ==>
                  ls[i].start < |text| && Symbol(text, ls[i].start) == Lexed(ls[i].sym, ls[i].end)
  }

  lemma {:induction false} BodySymbols(text: string, p: nat, from: nat)
    requires from <= p <= |text| && At(text, p) != ' '
    ensures Symbols(text, LineBody(text, p, from).0)
    decreases |text| - p
  {
    hide Symbol, Skip;
    if At(text, p) !in {'\0', '\n'} {
      BodySymbols(text, Skip(Spaces, text, Symbol(text, p).end), from);
    }
  }

  lemma LineSymbols(text: string, p: nat, number: nat)
    requires p <= |text|
    ensures Symbols(text, LexLine(text, p, number).0.lexemes)
  {
    hide Skip, LineBody, Symbol;
    var q := Skip(Spaces, text, p);
    if At(text, q) != '\n' {
      BodySymbols(text, q, p);
    }
  }

  ghost predicate AllSymbols(text: string, lines: seq<Line>) {
    forall i :: 0 <= i < |lines| ==> Symbols(text, lines[i].lexemes)
  }

  lemma {:induction false} ProgramSymbols(text: string, p: nat, number: nat)
    requires p <= |text|
    ensures AllSymbols(text, LexProgram(text, p, number))
    decreases |text| - p
  {
    hide LexLine, Symbols;
    if At(text, p) != '\0' {
      LineSymbols(text, p, number);
      var r := LexLine(text, p, number);
      ProgramSymbols(text, r.1, number + 1);
      var rest := LexProgram(text, r.1, number + 1);
      assert LexProgram(text, p, number) == (if r.0.lexemes == [] then [] else [r.0]) + rest;
    }
  }

  // ---------- mnemonics are no labels ----------

  /** What the nested switch can return. */
  predicate NoLabel(s: Sym) { s !in {LabelRef, LabelDef, LabelIdx} }

  lemma {:induction false} ExpectIs(text: string, p: nat, w: string, f: Follow, sym: Sym)
    ensures Expect(text, p, w, f, sym).sym in {sym, Unknown}
    decreases |w|
  {
    hide Follows, At;
    if w != "" {
      ExpectIs(text, p + 1, w[1..], f, sym);
    }
  }

  lemma ExpectAll(text: string)
    ensures forall p: nat, w, sym :: Ends(text, p, w, sym).sym in {sym, Unknown}
    ensures forall p: nat, w, f, sym :: Expect(text, p, w, f, sym).sym in {sym, Unknown}
  {
    hide Expect;
    forall p: nat, w, f, sym
      ensures Expect(text, p, w, f, sym).sym in {sym, Unknown}
    {
      ExpectIs(text, p, w, f, sym);
    }
  }

  lemma MnemonicNoLabel(text: string, p: nat)
    ensures NoLabel(Mnemonic(text, p).sym)
  {
    hide Expect, Ends, At, Bad, WordA, WordB, WordC, WordD, WordE, WordH, WordJ, WordL, WordM, WordN, WordP, WordR,
         WordS, WordX;
    ExpectAll(text);
    EarlyNoLabel(text, p);
    MiddleNoLabel(text, p);
    LateNoLabel(text, p);
  }

  lemma EarlyNoLabel(text: string, p: nat)
    ensures NoLabel(WordA(text, p).sym) && NoLabel(WordB(text, p).sym) && NoLabel(WordC(text, p).sym)
    ensures NoLabel(WordD(text, p).sym) && NoLabel(WordE(text, p).sym)
  {
    hide Expect, Ends, At;
    ExpectAll(text);
  }

  lemma MiddleNoLabel(text: string, p: nat)
    ensures NoLabel(WordH(text, p).sym) && NoLabel(WordJ(text, p).sym) && NoLabel(WordL(text, p).sym)
    ensures NoLabel(WordM(text, p).sym) && NoLabel(WordN(text, p).sym)
  {
    hide Expect, Ends, At;
    ExpectAll(text);
  }

  lemma LateNoLabel(text: string, p: nat)
    ensures NoLabel(WordP(text, p).sym) && NoLabel(WordR(text, p).sym)
    ensures NoLabel(WordS(text, p).sym) && NoLabel(WordX(text, p).sym)
  {
    hide Expect, Ends, At;
    ExpectAll(text);
  }

  // ---------- names ----------

  lemma SymbolInText(text: string, p: nat, value: nat)
    requires p < |text|
    ensures var x := Symbol(text, p); InText(RawToken.Token(x.sym, text[p..x.end], value))
  {
    hide Skip, Mnemonic, Name, LabelText, NameText, SkipNumber, RadixOf;
    MnemonicNoLabel(text, p);
    if text[p] == '.' {
      RunInText(text, p + 1);
      assert text[p..Symbol(text, p).end][1..] == text[p + 1..Symbol(text, p).end];
    } else if 'a' <= text[p] <= 'z' || text[p] == '_' {
      NameInText(text, p, value);
    }
  }

  lemma RunInText(text: string, p: nat)
    requires p <= |text|
    ensures LabelText(text[p..Skip(LabelChars, text, p)])
  {
    hide In, NameChar, IsAlnum, Skip;
    var q := Skip(LabelChars, text, p);
    forall i | 0 <= i < |text[p..q]|
      ensures NameChar(text[p..q][i])
    {
      NameCharIs(text[p + i]);
    }
  }

  lemma NameInText(text: string, p: nat, value: nat)
    requires p < |text| && ('a' <= text[p] <= 'z' || text[p] == '_')
    ensures var x := Name(text, p + 1); InText(RawToken.Token(x.sym, text[p..x.end], value))
  {
    hide Skip, NameChar;
    var q := Skip(LabelChars, text, p + 1);
    RunInText(text, p + 1);
    NameCharIs(text[p]);
    var w := text[p..q];
    assert LabelText(w) by {
      assert w == [text[p]] + text[p + 1..q];
    }
    assert At(text, q) == ':' ==> text[p..q + 1][..q - p] == w;
  }

  lemma TokensInText(text: string, i: nat)
    requires i < |TokensOf(text)|
    ensures AllInText(TokensOf(text)[i])
  {
    hide LexProgram, InText, Symbol, Literals.ParseImmediate;
    ProgramSymbols(text, 0, 1);
    var ls := LexProgram(text, 0, 1)[i].lexemes;
    assert Symbols(text, ls);
    var ts := TokensOf(text)[i];
    forall j | 0 <= j < |ts|
      ensures InText(ts[j])
    {
      SymbolInText(text, ls[j].start, ts[j].value);
    }
  }

  // ---------- statements ----------

  /** No number is beyond the range of `long`, as those of a text are unless they are negative. */
  predicate NumbersFit(ts: seq<Token>) { forall i :: 0 <= i < |ts| ==> ts[i].value < Literals.LONG_LIMIT }

  lemma OperandInText(ts: seq<Token>)
    requires AllInText(ts) && NumbersFit(ts)
    ensures var o := ParseOperand(ts); o.Some? ==> Writable(o.value) && OperandText(o.value)
  {
    hide ParseExpr, LabelText, NameText;
    if ts != [] {
      assert InText(ts[0]);
    }
  }

  /** A line of tokens as texts have them spells a statement that can be written. */
  lemma LineInText(line: seq<Token>)
    requires AllInText(line) && NumbersFit(line) && ParseLine(line).Some?
    ensures var st := ParseLine(line).value; st == Blank || st == Bytes([]) || Textual(st)
  {
    if line != [] {
      hide AllInText, ParseOperand, NumberBytes, QuotedText, Legal, OperandText, LabelText, NameText, Writable;
      var ts := line[1..];
      assert AllInText(ts) && NumbersFit(ts) by { RestInText(line); }
      OperandInText(ts);
      assert InText(line[0]) by { RestInText(line); }
      if |ts| > 0 {
        assert InText(ts[0]) by { RestInText(ts); }
      }
      if |ts| > 2 {
        assert InText(ts[2]) by { ThirdInText(ts); }
      }
    }
  }

  lemma RestInText(ts: seq<Token>)
    requires AllInText(ts) && NumbersFit(ts) && ts != []
    ensures InText(ts[0]) && AllInText(ts[1..]) && NumbersFit(ts[1..])
  {
    hide InText;
  }

  lemma ThirdInText(ts: seq<Token>)
    requires AllInText(ts) && |ts| > 2
    ensures InText(ts[2])
  {
    hide InText;
  }

  /** Any text: a line without negative numbers spells nothing, an empty line, the empty quotation, or
      a statement that `SourceText.SourceRoundTrip` writes and reads back. */
  lemma TextSpells(text: string, i: nat)
    requires i < |TokensOf(text)| && NumbersFit(TokensOf(text)[i])
    ensures var st := ParseLine(TokensOf(text)[i]);
            st == None || st == Some(Blank) || st == Some(Bytes([])) || Textual(st.value)
  {
    hide TokensOf, ParseLine, Textual, NumbersFit, AllInText;
    TokensInText(text, i);
    if ParseLine(TokensOf(text)[i]).Some? {
      LineInText(TokensOf(text)[i]);
    }
  }

  /** A negative number: a prefix without digits, behind which the conversion finds a minus sign. */
  lemma NegativeExample()
    ensures Symbol("0x -5", 0) == Lexed(Number(16), 2)
    ensures Literals.ParseImmediate(16, "0x -5", 0) == 0x1_0000_0000_0000_0000 - 5
  {
    var text := "0x -5";
    assert Literals.SkipWhite(text, 2) == 3 by { assert Literals.SkipWhite(text, 3) == 3; }
    assert Literals.DigitsEnd(text, 4, 16) == 5;
    assert Literals.Value(text, 4, 5, 16) == 5 by { assert Literals.Value(text, 4, 4, 16) == 0; }
  }
}
