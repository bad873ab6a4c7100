/** The keyword table, and the proof that the nested switch is a lookup in it: a mnemonic or a
    register is recognised exactly where its spelling stands, followed as its kind requires. */
module Keywords {
  import opened Isa
  import opened Syntax
  import opened Lexing

  datatype Keyword = Keyword(spelling: string, follow: Follow, sym: Sym)

  function Plain(spelling: string, sym: Sym): Keyword { Keyword(spelling, Delimiter, sym) }

  function KeywordsA(): seq<Keyword> {
    [Plain("ACC", Register(Acc)), Plain("AND", AluSym(AND))]
  }

  function KeywordsAD(): seq<Keyword> {
    [Plain("ADC", AluSym(ADC)), Plain("ADD", AluSym(ADD)), Plain("ADDW", WideSym(ADDW))]
  }

  function KeywordsD(): seq<Keyword> {
    [Plain("DEC", UnarySym(DEC)), Plain("DT", PlainSym(Dt))]
  }

  function KeywordsDI(): seq<Keyword> {
    [Plain("DI", PlainSym(Di)), Plain("DIVW", WideSym(DIVW))]
  }

  function KeywordsJ(): seq<Keyword> {
    [Plain("JC", JumpSym(IfCarry)), Plain("JS", JumpSym(IfSign)), Plain("JZ", JumpSym(IfZero))]
  }

  function KeywordsJM(): seq<Keyword> {
    [Plain("JEXT", JEXT), Plain("JMP", JumpSym(Always))]
  }

  function KeywordsJN(): seq<Keyword> {
    [Plain("JNC", JumpSym(IfNotCarry)), Plain("JNS", JumpSym(IfNotSign)), Plain("JNZ", JumpSym(IfNotZero))]
  }

  function KeywordsR(): seq<Keyword> {
    [Keyword("R0", Anything, Register(R0)),
     Keyword("R1", Anything, Register(R1))]
  }

  function KeywordsRE(): seq<Keyword> {
    [Plain("RESET", PlainSym(Reset)),
     Plain("RET", RET)]
  }

  function KeywordsRO(): seq<Keyword> {
    [Plain("ROL", AluSym(ROL)),
     Plain("ROR", AluSym(ROR))]
  }

  function KeywordsS(): seq<Keyword> {
    [Plain("SBC", AluSym(SBC)),
     Keyword("SP", Anything, SP),
     Plain("STORE", STORE)]
  }

  function KeywordsSH(): seq<Keyword> {
    [Plain("SHL", AluSym(SHL)),
     Plain("SHR", AluSym(SHR))]
  }

  function KeywordsSU(): seq<Keyword> {
    [Plain("SUB", AluSym(SUB)),
     Plain("SUBW", WideSym(SUBW))]
  }

  /** The table of mnemonics and registers, by first letter. */
  function KeywordsOf(c: char): seq<Keyword> {
    match c
    case 'A' => KeywordsA() + KeywordsAD()
    case 'B' => [Keyword("BP", Anything, Register(BP))]
    case 'C' => [Plain("CALL", CALL), Plain("CMP", AluSym(CMP))]
    case 'D' => KeywordsD() + KeywordsDI()
    case 'E' => [Plain("EI", PlainSym(Ei)), Plain("ENTER", ENTER), Plain("ET", PlainSym(Et))]
    case 'F' => [Plain("FLAGS", Register(FLAGS))]
    case 'H' => [Keyword("HALT", NotAlnum, PlainSym(Halt)), Keyword("HL", Anything, Register(HL)),
                 Keyword("H", NotOf('A', 'L'), Register(H))]
    case 'I' => [Plain("INC", UnarySym(INC))]
    case 'J' => KeywordsJ() + KeywordsJM() + KeywordsJN()
    case 'L' => [Plain("LEAVE", PlainSym(Leave)), Plain("LOAD", LOAD), Keyword("L", NotOf('E', 'O'), Register(L))]
    case 'M' => [Plain("MAX", AluSym(MAX)), Plain("MIN", AluSym(MIN)), Plain("MULW", WideSym(MULW))]
    case 'N' => [Plain("NEG", UnarySym(NEG)), Plain("NOOP", PlainSym(Noop)), Plain("NOT", UnarySym(NOT))]
    case 'O' => [Plain("OR", AluSym(OR))]
    case 'P' => [Keyword("PC", Anything, PC), Plain("POP", POP), Plain("PUSH", PUSH)]
    case 'R' => KeywordsR() + KeywordsRE() + KeywordsRO()
    case 'S' => KeywordsS() + KeywordsSH() + KeywordsSU()
    case 'X' => [Plain("XCH", XCH), Plain("XOR", AluSym(XOR))]
    case _ => []
  }

  // ---------- how each symbol is written ----------

  function AluText(fn: AluFn): string {
    match fn
    case ADD => "ADD" case ADC => "ADC" case SUB => "SUB" case SBC => "SBC"
    case AND => "AND" case OR => "OR" case XOR => "XOR"
    case SHL => "SHL" case SHR => "SHR" case ROL => "ROL" case ROR => "ROR"
    case CMP => "CMP" case MIN => "MIN" case MAX => "MAX"
  }

  function PlainText(op: Op): string {
    match op
    case Noop => "NOOP" case Halt => "HALT" case Ei => "EI" case Di => "DI"
    case Et => "ET" case Dt => "DT" case Reset => "RESET" case _ => "LEAVE"
  }

  function JumpText(c: Cond): string {
    match c
    case Always => "JMP" case IfSign => "JS" case IfNotSign => "JNS" case IfZero => "JZ"
    case IfNotZero => "JNZ" case IfCarry => "JC" case IfNotCarry => "JNC"
  }

  function RegisterText(m: Mode): string {
    match m
    case Acc => "ACC" case R0 => "R0" case R1 => "R1" case L => "L" case H => "H"
    case HL => "HL" case BP => "BP" case _ => "FLAGS"
  }

  /** The spelling of a mnemonic, a register or a punctuation mark. */
  function TextOf(s: Sym): (w: string)
    ensures w != ""
  {
    match s
    case PlainSym(op) => PlainText(op)
    case LOAD => "LOAD" case STORE => "STORE" case XCH => "XCH"
    case AluSym(fn) => AluText(fn)
    case UnarySym(fn) => (match fn case INC => "INC" case DEC => "DEC" case NEG => "NEG" case NOT => "NOT")
    case WideSym(fn) => (match fn case ADDW => "ADDW" case SUBW => "SUBW" case MULW => "MULW" case DIVW => "DIVW")
    case JumpSym(c) => JumpText(c)
    case JEXT => "JEXT" case PUSH => "PUSH" case POP => "POP" case CALL => "CALL"
    case RET => "RET" case ENTER => "ENTER"
    case Register(m) => RegisterText(m)
    case SP => "SP" case PC => "PC"
    case Comma => "," case Plus => "+" case Minus => "-" case Equals => "="
    case LSquare => "[" case RSquare => "]" case LParen => "(" case RParen => ")" case LCurly => "{" case RCurly => "}"
    case _ => "?"
  }

  // ---------- lookup ----------

  predicate Found(text: string, p: nat, k: Keyword) {
    Spells(text, p, k.spelling) && Follows(k.follow, At(text, p + |k.spelling|))
  }

  /** The result is the keyword of the list that is found at p, and Unknown if none is. */
  ghost predicate Agrees(text: string, p: nat, ks: seq<Keyword>, r: Lexed) {
    && (forall i :: 0 <= i < |ks| && Found(text, p, ks[i]) ==> r == Lexed(ks[i].sym, p + |ks[i].spelling|))
    && (r.sym != Unknown ==> exists i :: 0 <= i < |ks| && Found(text, p, ks[i]))
  }

  // ---------- the switch is the table ----------

  /** Reading on succeeds exactly when the rest of the spelling is there and followed as required. */
  lemma {:induction false} ExpectFinds(text: string, p: nat, w: string, f: Follow, sym: Sym)
    requires NulFree(w) && sym != Unknown
    ensures p <= |text| ==>
              var r, found := Expect(text, p, w, f, sym), Spells(text, p, w) && Follows(f, At(text, p + |w|));
              if found then r == Lexed(sym, p + |w|) else r.sym == Unknown
    decreases |w|
  {
    if w != "" {
      SpellsFirst(text, p, w);
      if At(text, p) == w[0] && p <= |text| {
        ExpectFinds(text, p + 1, w[1..], f, sym);
      }
    }
  }

  lemma SpellsFirst(text: string, p: nat, w: string)
    requires w != "" && w[0] != '\0'
    ensures Spells(text, p, w) <==> At(text, p) == w[0] && Spells(text, p + 1, w[1..])
  {
    if At(text, p) == w[0] && Spells(text, p + 1, w[1..]) {
      forall i | 0 <= i < |w|
        ensures text[p + i] == w[i]
      {
        assert i > 0 ==> text[p + 1 + (i - 1)] == w[1..][i - 1];
      }
    }
    if Spells(text, p, w) {
      assert text[p + 0] == w[0];
      forall i | 0 <= i < |w[1..]|
        ensures text[p + 1 + i] == w[1..][i]
      {
        assert text[p + (i + 1)] == w[i + 1];
      }
    }
  }

  lemma One(text: string, p: nat, w: string, a: char, rest: string)
    requires w == [a] + rest && a != '\0'
    ensures Spells(text, p, w) <==> At(text, p) == a && Spells(text, p + 1, rest)
  {
    SpellsFirst(text, p, w);
    assert w[1..] == rest;
  }

  lemma Two(text: string, p: nat, w: string, a: char, b: char, rest: string)
    requires w == [a, b] + rest && a != '\0' && b != '\0'
    ensures Spells(text, p, w) <==> At(text, p) == a && At(text, p + 1) == b && Spells(text, p + 2, rest)
  {
    hide Spells, At;
    One(text, p, w, a, [b] + rest);
    One(text, p + 1, [b] + rest, b, rest);
  }

  lemma Three(text: string, p: nat, w: string, a: char, b: char, c: char, rest: string)
    requires w == [a, b, c] + rest && a != '\0' && b != '\0' && c != '\0'
    ensures Spells(text, p, w)
       <==> At(text, p) == a && At(text, p + 1) == b && At(text, p + 2) == c && Spells(text, p + 3, rest)
  {
    hide Spells, At;
    Two(text, p, w, a, b, [c] + rest);
    One(text, p + 2, [c] + rest, c, rest);
  }

  /** Behind a character that is not NUL there is at least the end of the text. */
  lemma NearEnd(text: string, p: nat)
    ensures At(text, p) != '\0' ==> p < |text| && Spells(text, p + 1, "")
    ensures At(text, p + 1) != '\0' ==> p + 1 < |text| && Spells(text, p + 2, "")
    ensures At(text, p + 2) != '\0' ==> p + 2 < |text| && Spells(text, p + 3, "")
    ensures At(text, p + 3) != '\0' ==> p + 3 < |text| && Spells(text, p + 4, "")
  {
  }

  lemma NoNul(text: string, p: nat)
    requires NulFree(text) && At(text, p) == '\0'
    ensures p >= |text|
  {
  }

  /** No keyword with another second character is found. */
  lemma NoneFound(text: string, p: nat, ks: seq<Keyword>)
    requires forall i :: 0 <= i < |ks| ==> |ks[i].spelling| >= 2 && ks[i].spelling[1] != At(text, p + 1)
    ensures forall i :: 0 <= i < |ks| ==> !Found(text, p, ks[i])
  {
    hide Found, At;
    forall i | 0 <= i < |ks|
      ensures !Found(text, p, ks[i])
    {
      if Found(text, p, ks[i]) {
        SecondIs(text, p, ks[i]);
      }
    }
  }

  lemma SecondIs(text: string, p: nat, k: Keyword)
    requires Found(text, p, k) && |k.spelling| >= 2
    ensures At(text, p + 1) == k.spelling[1]
  {
    assert text[p + 1] == k.spelling[1];
  }

  /** The keywords of one list are those of two, none of the other being found. */
  lemma AgreesOne(text: string, p: nat, a: seq<Keyword>, b: seq<Keyword>, r: Lexed)
    requires Agrees(text, p, a, r) && forall i :: 0 <= i < |b| ==> !Found(text, p, b[i])
    ensures Agrees(text, p, a + b, r) && Agrees(text, p, b + a, r)
  {
    hide Found;
    forall i | 0 <= i < |a|
      ensures (a + b)[i] == a[i] && (b + a)[|b| + i] == a[i]
    {
    }
  }

  lemma FoundAll(text: string, p: nat, ks: seq<Keyword>)
    ensures |ks| > 0 ==> var k := ks[0];
              Found(text, p, k) == (Spells(text, p, k.spelling) && Follows(k.follow, At(text, p + |k.spelling|)))
    ensures |ks| > 1 ==> var k := ks[1];
              Found(text, p, k) == (Spells(text, p, k.spelling) && Follows(k.follow, At(text, p + |k.spelling|)))
    ensures |ks| > 2 ==> var k := ks[2];
              Found(text, p, k) == (Spells(text, p, k.spelling) && Follows(k.follow, At(text, p + |k.spelling|)))
    ensures |ks| > 3 ==> var k := ks[3];
              Found(text, p, k) == (Spells(text, p, k.spelling) && Follows(k.follow, At(text, p + |k.spelling|)))
    ensures |ks| > 4 ==> var k := ks[4];
              Found(text, p, k) == (Spells(text, p, k.spelling) && Follows(k.follow, At(text, p + |k.spelling|)))
  {
  }

  lemma AgreesAOther(text: string, p: nat)
    requires NulFree(text) && At(text, p) == 'A' && At(text, p + 1) != 'D'
    ensures Agrees(text, p, KeywordsA(), WordA(text, p))
  {
    hide At, Spells, Expect, Skip, Found, NulFree;
    var ks := KeywordsA();
    FoundAll(text, p, ks);
    NearEnd(text, p);
    Two(text, p, "ACC", 'A', 'C', "C");
    Two(text, p, "AND", 'A', 'N', "D");
    ExpectFinds(text, p + 2, "C", Delimiter, Register(Acc));
    ExpectFinds(text, p + 2, "D", Delimiter, AluSym(AND));
  }

  lemma AgreesAD(text: string, p: nat)
    requires NulFree(text) && At(text, p) == 'A' && At(text, p + 1) == 'D'
    ensures Agrees(text, p, KeywordsAD(), WordA(text, p))
  {
    hide At, Spells, Expect, Skip, Found, NulFree;
    var ks := KeywordsAD();
    FoundAll(text, p, ks);
    NearEnd(text, p);
    Three(text, p, "ADC", 'A', 'D', 'C', "");
    Three(text, p, "ADD", 'A', 'D', 'D', "");
    Three(text, p, "ADDW", 'A', 'D', 'D', "W");
    ExpectFinds(text, p + 3, "", Delimiter, AluSym(ADC));
    ExpectFinds(text, p + 3, "W", Delimiter, WideSym(ADDW));
    One(text, p + 3, "W", 'W', "");
  }

  lemma AgreesA(text: string, p: nat)
    requires NulFree(text) && At(text, p) == 'A'
    ensures Agrees(text, p, KeywordsOf('A'), WordA(text, p))
  {
    hide At, Spells, Expect, Skip, Found, NulFree, WordA, Agrees;
    var a, b := KeywordsA(), KeywordsAD();
    if At(text, p + 1) == 'D' {
      AgreesAD(text, p);
      NoneFound(text, p, a);
      AgreesOne(text, p, b, a, WordA(text, p));
    } else {
      AgreesAOther(text, p);
      NoneFound(text, p, b);
      AgreesOne(text, p, a, b, WordA(text, p));
    }
  }

  lemma AgreesB(text: string, p: nat)
    requires NulFree(text) && At(text, p) == 'B'
    ensures Agrees(text, p, KeywordsOf('B'), WordB(text, p))
  {
    hide At, Spells, Expect, Skip, Found, NulFree;
    var ks := KeywordsOf('B');
    FoundAll(text, p, ks);
    NearEnd(text, p);
    Two(text, p, "BP", 'B', 'P', "");
  }

  lemma AgreesC(text: string, p: nat)
    requires NulFree(text) && At(text, p) == 'C'
    ensures Agrees(text, p, KeywordsOf('C'), WordC(text, p))
  {
    hide At, Spells, Expect, Skip, Found, NulFree, Follows;
    var ks := KeywordsOf('C');
    FoundAll(text, p, ks);
    NearEnd(text, p);
    Two(text, p, "CALL", 'C', 'A', "LL");
    Two(text, p, "CMP", 'C', 'M', "P");
    ExpectFinds(text, p + 2, "LL", Delimiter, CALL);
    ExpectFinds(text, p + 2, "P", Delimiter, AluSym(CMP));
  }

  lemma AgreesDOther(text: string, p: nat)
    requires NulFree(text) && At(text, p) == 'D' && At(text, p + 1) != 'I'
    ensures Agrees(text, p, KeywordsD(), WordD(text, p))
  {
    hide At, Spells, Expect, Skip, Found, NulFree;
    var ks := KeywordsD();
    FoundAll(text, p, ks);
    NearEnd(text, p);
    Two(text, p, "DEC", 'D', 'E', "C");
    Two(text, p, "DT", 'D', 'T', "");
    ExpectFinds(text, p + 2, "C", Delimiter, UnarySym(DEC));
    ExpectFinds(text, p + 2, "", Delimiter, PlainSym(Dt));
  }

  lemma AgreesDI(text: string, p: nat)
    requires NulFree(text) && At(text, p) == 'D' && At(text, p + 1) == 'I'
    ensures Agrees(text, p, KeywordsDI(), WordD(text, p))
  {
    hide At, Spells, Expect, Skip, Found, NulFree;
    var ks := KeywordsDI();
    FoundAll(text, p, ks);
    NearEnd(text, p);
    Two(text, p, "DI", 'D', 'I', "");
    Two(text, p, "DIVW", 'D', 'I', "VW");
    One(text, p + 2, "VW", 'V', "W");
    ExpectFinds(text, p + 2, "VW", Delimiter, WideSym(DIVW));
  }

  lemma AgreesD(text: string, p: nat)
    requires NulFree(text) && At(text, p) == 'D'
    ensures Agrees(text, p, KeywordsOf('D'), WordD(text, p))
  {
    hide At, Spells, Expect, Skip, Found, NulFree, WordD, Agrees;
    var a, b := KeywordsD(), KeywordsDI();
    if At(text, p + 1) == 'I' {
      AgreesDI(text, p);
      NoneFound(text, p, a);
      AgreesOne(text, p, b, a, WordD(text, p));
    } else {
      AgreesDOther(text, p);
      NoneFound(text, p, b);
      AgreesOne(text, p, a, b, WordD(text, p));
    }
  }

  lemma AgreesE(text: string, p: nat)
    requires NulFree(text) && At(text, p) == 'E'
    ensures Agrees(text, p, KeywordsOf('E'), WordE(text, p))
  {
    hide At, Spells, Expect, Skip, Found, NulFree, Follows;
    var ks := KeywordsOf('E');
    FoundAll(text, p, ks);
    NearEnd(text, p);
    Two(text, p, "EI", 'E', 'I', "");
    Two(text, p, "ENTER", 'E', 'N', "TER");
    Two(text, p, "ET", 'E', 'T', "");
    ExpectFinds(text, p + 2, "", Delimiter, PlainSym(Ei));
    ExpectFinds(text, p + 2, "TER", Delimiter, ENTER);
    ExpectFinds(text, p + 2, "", Delimiter, PlainSym(Et));
  }

  lemma AgreesF(text: string, p: nat)
    requires NulFree(text) && At(text, p) == 'F'
    ensures Agrees(text, p, KeywordsOf('F'), Ends(text, p + 1, "LAGS", Register(FLAGS)))
  {
    hide At, Spells, Expect, Skip, Found, NulFree, Follows;
    var ks := KeywordsOf('F');
    FoundAll(text, p, ks);
    NearEnd(text, p);
    One(text, p, "FLAGS", 'F', "LAGS");
    ExpectFinds(text, p + 1, "LAGS", Delimiter, Register(FLAGS));
  }

  lemma AgreesH(text: string, p: nat)
    requires NulFree(text) && At(text, p) == 'H'
    ensures Agrees(text, p, KeywordsOf('H'), WordH(text, p))
  {
    hide At, Spells, Expect, Skip, Found, NulFree;
    var ks := KeywordsOf('H');
    FoundAll(text, p, ks);
    NearEnd(text, p);
    Two(text, p, "HALT", 'H', 'A', "LT");
    Two(text, p, "HL", 'H', 'L', "");
    One(text, p, "H", 'H', "");
    ExpectFinds(text, p + 2, "LT", NotAlnum, PlainSym(Halt));
    if At(text, p + 1) == '\0' { NoNul(text, p + 1); }
  }

  lemma AgreesI(text: string, p: nat)
    requires NulFree(text) && At(text, p) == 'I'
    ensures Agrees(text, p, KeywordsOf('I'), Ends(text, p + 1, "NC", UnarySym(INC)))
  {
    hide At, Spells, Expect, Skip, Found, NulFree, Follows;
    var ks := KeywordsOf('I');
    FoundAll(text, p, ks);
    NearEnd(text, p);
    One(text, p, "INC", 'I', "NC");
    ExpectFinds(text, p + 1, "NC", Delimiter, UnarySym(INC));
  }

  lemma AgreesJN(text: string, p: nat)
    requires NulFree(text) && At(text, p) == 'J' && At(text, p + 1) == 'N'
    ensures Agrees(text, p, KeywordsJN(), WordJ(text, p))
  {
    hide At, Spells, Expect, Skip, Found, NulFree, Follows;
    var ks := KeywordsJN();
    FoundAll(text, p, ks);
    NearEnd(text, p);
    Three(text, p, "JNC", 'J', 'N', 'C', "");
    Three(text, p, "JNS", 'J', 'N', 'S', "");
    Three(text, p, "JNZ", 'J', 'N', 'Z', "");
    ExpectFinds(text, p + 3, "", Delimiter, JumpSym(IfNotCarry));
    ExpectFinds(text, p + 3, "", Delimiter, JumpSym(IfNotSign));
    ExpectFinds(text, p + 3, "", Delimiter, JumpSym(IfNotZero));
  }

  lemma AgreesJM(text: string, p: nat)
    requires NulFree(text) && At(text, p) == 'J' && At(text, p + 1) in {'E', 'M'}
    ensures Agrees(text, p, KeywordsJM(), WordJ(text, p))
  {
    hide At, Spells, Expect, Skip, Found, NulFree, Follows;
    var ks := KeywordsJM();
    FoundAll(text, p, ks);
    NearEnd(text, p);
    Two(text, p, "JEXT", 'J', 'E', "XT");
    Two(text, p, "JMP", 'J', 'M', "P");
    ExpectFinds(text, p + 2, "XT", Delimiter, JEXT);
    ExpectFinds(text, p + 2, "P", Delimiter, JumpSym(Always));
  }

  lemma AgreesJOther(text: string, p: nat)
    requires NulFree(text) && At(text, p) == 'J' && At(text, p + 1) !in {'E', 'M', 'N'}
    ensures Agrees(text, p, KeywordsJ(), WordJ(text, p))
  {
    hide At, Spells, Expect, Skip, Found, NulFree, Follows;
    var ks := KeywordsJ();
    FoundAll(text, p, ks);
    NearEnd(text, p);
    Two(text, p, "JC", 'J', 'C', "");
    Two(text, p, "JS", 'J', 'S', "");
    Two(text, p, "JZ", 'J', 'Z', "");
    ExpectFinds(text, p + 2, "", Delimiter, JumpSym(IfCarry));
    ExpectFinds(text, p + 2, "", Delimiter, JumpSym(IfSign));
    ExpectFinds(text, p + 2, "", Delimiter, JumpSym(IfZero));
  }

  lemma AgreesJ(text: string, p: nat)
    requires NulFree(text) && At(text, p) == 'J'
    ensures Agrees(text, p, KeywordsOf('J'), WordJ(text, p))
  {
    hide At, Spells, Expect, Skip, Found, NulFree, WordJ, Agrees;
    var a, b, c, r := KeywordsJ(), KeywordsJM(), KeywordsJN(), WordJ(text, p);
    if At(text, p + 1) == 'N' {
      AgreesJN(text, p);
      NoneFound(text, p, a);
      NoneFound(text, p, b);
      AgreesOne(text, p, c, a + b, r);
    } else if At(text, p + 1) in {'E', 'M'} {
      AgreesJM(text, p);
      NoneFound(text, p, a);
      NoneFound(text, p, c);
      AgreesOne(text, p, b, a, r);
      AgreesOne(text, p, a + b, c, r);
    } else {
      AgreesJOther(text, p);
      NoneFound(text, p, b);
      NoneFound(text, p, c);
      AgreesOne(text, p, a, b, r);
      AgreesOne(text, p, a + b, c, r);
    }
  }

  lemma AgreesL(text: string, p: nat)
    requires NulFree(text) && At(text, p) == 'L'
    ensures Agrees(text, p, KeywordsOf('L'), WordL(text, p))
  {
    hide At, Spells, Expect, Skip, Found, NulFree;
    var ks := KeywordsOf('L');
    FoundAll(text, p, ks);
    NearEnd(text, p);
    Two(text, p, "LEAVE", 'L', 'E', "AVE");
    Two(text, p, "LOAD", 'L', 'O', "AD");
    One(text, p, "L", 'L', "");
    ExpectFinds(text, p + 2, "AVE", Delimiter, PlainSym(Leave));
    ExpectFinds(text, p + 2, "AD", Delimiter, LOAD);
    if At(text, p + 1) == '\0' { NoNul(text, p + 1); }
  }

  lemma AgreesM(text: string, p: nat)
    requires NulFree(text) && At(text, p) == 'M'
    ensures Agrees(text, p, KeywordsOf('M'), WordM(text, p))
  {
    hide At, Spells, Expect, Skip, Found, NulFree, Follows;
    var ks := KeywordsOf('M');
    FoundAll(text, p, ks);
    NearEnd(text, p);
    Two(text, p, "MAX", 'M', 'A', "X");
    Two(text, p, "MIN", 'M', 'I', "N");
    Two(text, p, "MULW", 'M', 'U', "LW");
    ExpectFinds(text, p + 2, "X", Delimiter, AluSym(MAX));
    ExpectFinds(text, p + 2, "N", Delimiter, AluSym(MIN));
    ExpectFinds(text, p + 2, "LW", Delimiter, WideSym(MULW));
  }

  lemma AgreesN(text: string, p: nat)
    requires NulFree(text) && At(text, p) == 'N'
    ensures Agrees(text, p, KeywordsOf('N'), WordN(text, p))
  {
    hide At, Spells, Expect, Skip, Found, NulFree, Follows;
    var ks := KeywordsOf('N');
    FoundAll(text, p, ks);
    NearEnd(text, p);
    Two(text, p, "NEG", 'N', 'E', "G");
    Three(text, p, "NOOP", 'N', 'O', 'O', "P");
    Three(text, p, "NOT", 'N', 'O', 'T', "");
    ExpectFinds(text, p + 2, "G", Delimiter, UnarySym(NEG));
    ExpectFinds(text, p + 3, "P", Delimiter, PlainSym(Noop));
    ExpectFinds(text, p + 3, "", Delimiter, UnarySym(NOT));
  }

  lemma AgreesO(text: string, p: nat)
    requires NulFree(text) && At(text, p) == 'O'
    ensures Agrees(text, p, KeywordsOf('O'), Ends(text, p + 1, "R", AluSym(OR)))
  {
    hide At, Spells, Expect, Skip, Found, NulFree, Follows;
    var ks := KeywordsOf('O');
    FoundAll(text, p, ks);
    NearEnd(text, p);
    One(text, p, "OR", 'O', "R");
    ExpectFinds(text, p + 1, "R", Delimiter, AluSym(OR));
  }

  lemma AgreesP(text: string, p: nat)
    requires NulFree(text) && At(text, p) == 'P'
    ensures Agrees(text, p, KeywordsOf('P'), WordP(text, p))
  {
    hide At, Spells, Expect, Skip, Found, NulFree;
    var ks := KeywordsOf('P');
    FoundAll(text, p, ks);
    NearEnd(text, p);
    Two(text, p, "PC", 'P', 'C', "");
    Two(text, p, "POP", 'P', 'O', "P");
    Two(text, p, "PUSH", 'P', 'U', "SH");
    ExpectFinds(text, p + 2, "P", Delimiter, POP);
    ExpectFinds(text, p + 2, "SH", Delimiter, PUSH);
  }

  lemma AgreesROther(text: string, p: nat)
    requires NulFree(text) && At(text, p) == 'R' && At(text, p + 1) != 'E' && At(text, p + 1) != 'O'
    ensures Agrees(text, p, KeywordsR(), WordR(text, p))
  {
    hide At, Spells, Expect, Skip, Found, NulFree;
    var ks := KeywordsR();
    FoundAll(text, p, ks);
    NearEnd(text, p);
    Two(text, p, "R0", 'R', '0', "");
    Two(text, p, "R1", 'R', '1', "");
  }

  lemma AgreesRE(text: string, p: nat)
    requires NulFree(text) && At(text, p) == 'R' && At(text, p + 1) == 'E'
    ensures Agrees(text, p, KeywordsRE(), WordR(text, p))
  {
    hide At, Spells, Expect, Skip, Found, NulFree;
    var ks := KeywordsRE();
    FoundAll(text, p, ks);
    NearEnd(text, p);
    Three(text, p, "RESET", 'R', 'E', 'S', "ET");
    Three(text, p, "RET", 'R', 'E', 'T', "");
    ExpectFinds(text, p + 3, "ET", Delimiter, PlainSym(Reset));
    ExpectFinds(text, p + 3, "", Delimiter, RET);
  }

  lemma AgreesRO(text: string, p: nat)
    requires NulFree(text) && At(text, p) == 'R' && At(text, p + 1) == 'O'
    ensures Agrees(text, p, KeywordsRO(), WordR(text, p))
  {
    hide At, Spells, Expect, Skip, Found, NulFree;
    var ks := KeywordsRO();
    FoundAll(text, p, ks);
    NearEnd(text, p);
    Three(text, p, "ROL", 'R', 'O', 'L', "");
    Three(text, p, "ROR", 'R', 'O', 'R', "");
    ExpectFinds(text, p + 3, "", Delimiter, AluSym(ROL));
    ExpectFinds(text, p + 3, "", Delimiter, AluSym(ROR));
  }

  lemma AgreesR(text: string, p: nat)
    requires NulFree(text) && At(text, p) == 'R'
    ensures Agrees(text, p, KeywordsOf('R'), WordR(text, p))
  {
    hide At, Spells, Expect, Skip, Found, NulFree, WordR, Agrees;
    var a, b, c, r := KeywordsR(), KeywordsRE(), KeywordsRO(), WordR(text, p);
    if At(text, p + 1) == 'E' {
      AgreesRE(text, p);
      NoneFound(text, p, a);
      NoneFound(text, p, c);
      AgreesOne(text, p, b, a, r);
      AgreesOne(text, p, a + b, c, r);
    } else if At(text, p + 1) == 'O' {
      AgreesRO(text, p);
      NoneFound(text, p, a);
      NoneFound(text, p, b);
      AgreesOne(text, p, c, a + b, r);
    } else {
      AgreesROther(text, p);
      NoneFound(text, p, b);
      NoneFound(text, p, c);
      AgreesOne(text, p, a, b, r);
      AgreesOne(text, p, a + b, c, r);
    }
  }

  lemma AgreesSOther(text: string, p: nat)
    requires NulFree(text) && At(text, p) == 'S' && At(text, p + 1) != 'H' && At(text, p + 1) != 'U'
    ensures Agrees(text, p, KeywordsS(), WordS(text, p))
  {
    hide At, Spells, Expect, Skip, Found, NulFree;
    var ks := KeywordsS();
    FoundAll(text, p, ks);
    NearEnd(text, p);
    Two(text, p, "SBC", 'S', 'B', "C");
    Two(text, p, "SP", 'S', 'P', "");
    Two(text, p, "STORE", 'S', 'T', "ORE");
    ExpectFinds(text, p + 2, "C", Delimiter, AluSym(SBC));
    ExpectFinds(text, p + 2, "ORE", Delimiter, STORE);
  }

  lemma AgreesSH(text: string, p: nat)
    requires NulFree(text) && At(text, p) == 'S' && At(text, p + 1) == 'H'
    ensures Agrees(text, p, KeywordsSH(), WordS(text, p))
  {
    hide At, Spells, Expect, Skip, Found, NulFree;
    var ks := KeywordsSH();
    FoundAll(text, p, ks);
    NearEnd(text, p);
    Three(text, p, "SHL", 'S', 'H', 'L', "");
    Three(text, p, "SHR", 'S', 'H', 'R', "");
    ExpectFinds(text, p + 3, "", Delimiter, AluSym(SHL));
    ExpectFinds(text, p + 3, "", Delimiter, AluSym(SHR));
  }

  lemma AgreesSU(text: string, p: nat)
    requires NulFree(text) && At(text, p) == 'S' && At(text, p + 1) == 'U'
    ensures Agrees(text, p, KeywordsSU(), WordS(text, p))
  {
    hide At, Spells, Expect, Skip, Found, NulFree;
    var ks := KeywordsSU();
    FoundAll(text, p, ks);
    NearEnd(text, p);
    Three(text, p, "SUB", 'S', 'U', 'B', "");
    Three(text, p, "SUBW", 'S', 'U', 'B', "W");
    ExpectFinds(text, p + 3, "W", Delimiter, WideSym(SUBW));
    One(text, p + 3, "W", 'W', "");
  }

  lemma AgreesS(text: string, p: nat)
    requires NulFree(text) && At(text, p) == 'S'
    ensures Agrees(text, p, KeywordsOf('S'), WordS(text, p))
  {
    hide At, Spells, Expect, Skip, Found, NulFree, WordS, Agrees;
    var a, b, c, r := KeywordsS(), KeywordsSH(), KeywordsSU(), WordS(text, p);
    if At(text, p + 1) == 'H' {
      AgreesSH(text, p);
      NoneFound(text, p, a);
      NoneFound(text, p, c);
      AgreesOne(text, p, b, a, r);
      AgreesOne(text, p, a + b, c, r);
    } else if At(text, p + 1) == 'U' {
      AgreesSU(text, p);
      NoneFound(text, p, a);
      NoneFound(text, p, b);
      AgreesOne(text, p, c, a + b, r);
    } else {
      AgreesSOther(text, p);
      NoneFound(text, p, b);
      NoneFound(text, p, c);
      AgreesOne(text, p, a, b, r);
      AgreesOne(text, p, a + b, c, r);
    }
  }

  lemma AgreesX(text: string, p: nat)
    requires NulFree(text) && At(text, p) == 'X'
    ensures Agrees(text, p, KeywordsOf('X'), WordX(text, p))
  {
    hide At, Spells, Expect, Skip, Found, NulFree, Follows;
    var ks := KeywordsOf('X');
    FoundAll(text, p, ks);
    NearEnd(text, p);
    Two(text, p, "XCH", 'X', 'C', "H");
    Two(text, p, "XOR", 'X', 'O', "R");
    ExpectFinds(text, p + 2, "H", Delimiter, XCH);
    ExpectFinds(text, p + 2, "R", Delimiter, AluSym(XOR));
  }

  lemma MnemonicAgrees(text: string, p: nat)
    requires NulFree(text)
    ensures Agrees(text, p, KeywordsOf(At(text, p)), Mnemonic(text, p))
  {
    hide At, Spells, Expect, Skip, Found, NulFree, Agrees, WordA, WordB, WordC, WordD, WordE, WordH, WordJ, WordL,
         WordM, WordN, WordP, WordR, WordS, WordX, Ends, KeywordsOf;
    match At(text, p)
    case 'A' => AgreesA(text, p);
    case 'B' => AgreesB(text, p);
    case 'C' => AgreesC(text, p);
    case 'D' => AgreesD(text, p);
    case 'E' => AgreesE(text, p);
    case 'F' => AgreesF(text, p);
    case 'H' => AgreesH(text, p);
    case 'I' => AgreesI(text, p);
    case 'J' => AgreesJ(text, p);
    case 'L' => AgreesL(text, p);
    case 'M' => AgreesM(text, p);
    case 'N' => AgreesN(text, p);
    case 'O' => AgreesO(text, p);
    case 'P' => AgreesP(text, p);
    case 'R' => AgreesR(text, p);
    case 'S' => AgreesS(text, p);
    case 'X' => AgreesX(text, p);
    case _ => AgreesNone(text, p);
  }

  /** No keyword begins with any other character. */
  lemma AgreesNone(text: string, p: nat)
    requires At(text, p) !in "ABCDEFHIJLMNOPRSX"
    ensures Agrees(text, p, KeywordsOf(At(text, p)), Mnemonic(text, p))
  {
    hide At, Spells, Expect, Skip, Found;
  }
}
