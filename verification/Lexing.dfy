/** Tokens out of text: the character loops, the nested switch that recognises mnemonics, and the
    keyword table it amounts to. */
module Lexing {
  import opened Isa
  import opened Syntax

  // ---------- characters ----------

  /** `str_iter_peek`: the character at a position, or NUL behind the last. */
  function At(text: string, p: nat): char { if p < |text| then text[p] else '\0' }

  predicate NulFree(text: string) { forall i :: 0 <= i < |text| ==> text[i] != '\0' }

  predicate IsDigit(c: char) { '0' <= c <= '9' }

  predicate IsLetter(c: char) { 'a' <= c <= 'z' || 'A' <= c <= 'Z' }

  predicate IsHexDigit(c: char) { IsDigit(c) || 'a' <= c <= 'f' || 'A' <= c <= 'F' }

  predicate IsAlnum(c: char) { IsDigit(c) || IsLetter(c) }

  /** `istokdelim`. */
  predicate IsDelimiter(c: char) { c == ' ' || c == '\0' || c == '\t' || c == '\n' }

  /** What each skipping loop runs over. */
  datatype Class = Spaces | ToLineEnd | HexDigits | LabelChars | Unquoted | Alnums

  predicate In(cls: Class, c: char) {
    match cls
    case Spaces => c == ' '
    case ToLineEnd => c != '\n'
    case HexDigits => IsHexDigit(c)
    case LabelChars => IsAlnum(c) || c == '_'
    case Unquoted => c != '"'
    case Alnums => IsAlnum(c)
  }

  /** Where such a loop stops: at the first character outside the class, or NUL. */
  function Skip(cls: Class, text: string, p: nat): (r: nat)
    requires p <= |text|
    ensures p <= r <= |text|
    ensures forall i :: p <= i < r ==> text[i] != '\0' && In(cls, text[i])
    ensures At(text, r) == '\0' || !In(cls, At(text, r))
    decreases |text| - p
  {
    if At(text, p) != '\0' && In(cls, At(text, p)) then Skip(cls, text, p + 1) else p
  }

  /** The position of the iterator after reading up to position p: it stops behind the text. */
  function Cap(text: string, p: nat): (r: nat)
    ensures r <= |text|
  {
    if p <= |text| then p else |text|
  }

  /** The text has the given characters from position p on. */
  predicate Spells(text: string, p: nat, w: string) {
    p + |w| <= |text| && forall i :: 0 <= i < |w| ==> text[p + i] == w[i]
  }

  // ---------- symbols ----------

  /** The symbol found and where it ends. */
  datatype Lexed = Lexed(sym: Sym, end: nat)

  /** `unknown`: the rest of the word. */
  function Bad(text: string, p: nat): (r: Lexed)
    ensures Cap(text, p) <= r.end <= |text| && r.sym == Unknown
  {
    Lexed(Unknown, Skip(Alnums, text, Cap(text, p)))
  }

  /** What must follow a spelling: a delimiter, anything but a letter or digit, anything, or
      anything but two given characters. */
  datatype Follow = Delimiter | NotAlnum | Anything | NotOf(a: char, b: char)

  predicate Follows(f: Follow, c: char) {
    match f
    case Delimiter => IsDelimiter(c)
    case NotAlnum => !IsAlnum(c)
    case Anything => true
    case NotOf(a, b) => c != a && c != b
  }

  /** A conjunction of reads, `next == w[0] && next == w[1] && ...`, then the test of what follows. */
  function Expect(text: string, p: nat, w: string, f: Follow, sym: Sym): (r: Lexed)
    ensures Cap(text, p) <= r.end <= |text|
    decreases |w|
  {
    if w == "" then (if Follows(f, At(text, p)) then Lexed(sym, Cap(text, p)) else Bad(text, p))
    else if At(text, p) == w[0] then Expect(text, p + 1, w[1..], f, sym)
    else Bad(text, p + 1)
  }

  /** The common case, a mnemonic ended by a delimiter. */
  function Ends(text: string, p: nat, w: string, sym: Sym): (r: Lexed)
    ensures Cap(text, p) <= r.end <= |text|
  {
    Expect(text, p, w, Delimiter, sym)
  }

  // The switch, one function for each first letter; p is its position.

  function WordA(text: string, p: nat): (r: Lexed)
    ensures p < |text| ==> p < r.end <= |text|
  {
    match At(text, p + 1)
    case 'C' => Ends(text, p + 2, "C", Register(Acc))
    case 'D' => (
      match At(text, p + 2)
      case 'C' => Ends(text, p + 3, "", AluSym(ADC))
      case 'D' => if IsDelimiter(At(text, p + 3)) then Lexed(AluSym(ADD), Cap(text, p + 3))
                  else Ends(text, p + 3, "W", WideSym(ADDW))
      case _ => Bad(text, p + 3))
    case 'N' => Ends(text, p + 2, "D", AluSym(AND))
    case _ => Bad(text, p + 2)
  }

  function WordB(text: string, p: nat): (r: Lexed)
    ensures p < |text| ==> p < r.end <= |text|
  {
    if At(text, p + 1) == 'P' then Lexed(Register(BP), Cap(text, p + 2)) else Bad(text, p + 2)
  }

  function WordC(text: string, p: nat): (r: Lexed)
    ensures p < |text| ==> p < r.end <= |text|
  {
    match At(text, p + 1)
    case 'A' => Ends(text, p + 2, "LL", CALL)
    case 'M' => Ends(text, p + 2, "P", AluSym(CMP))
    case _ => Bad(text, p + 2)
  }

  function WordD(text: string, p: nat): (r: Lexed)
    ensures p < |text| ==> p < r.end <= |text|
  {
    match At(text, p + 1)
    case 'E' => Ends(text, p + 2, "C", UnarySym(DEC))
    case 'I' => if IsDelimiter(At(text, p + 2)) then Lexed(PlainSym(Di), Cap(text, p + 2))
                else Ends(text, p + 2, "VW", WideSym(DIVW))
    case 'T' => Ends(text, p + 2, "", PlainSym(Dt))
    case _ => Bad(text, p + 2)
  }

  function WordE(text: string, p: nat): (r: Lexed)
    ensures p < |text| ==> p < r.end <= |text|
  {
    match At(text, p + 1)
    case 'I' => Ends(text, p + 2, "", PlainSym(Ei))
    case 'N' => Ends(text, p + 2, "TER", ENTER)
    case 'T' => Ends(text, p + 2, "", PlainSym(Et))
    case _ => Bad(text, p + 2)
  }

  /** A letter that ends a register name unless one of two letters follows is given back. */
  function LoneLetter(text: string, p: nat, m: Mode): (r: Lexed)
    ensures p < |text| ==> p < r.end <= |text|
  {
    Lexed(Register(m), if At(text, p + 1) == '\0' then Cap(text, p + 2) else p + 1)
  }

  function WordH(text: string, p: nat): (r: Lexed)
    ensures p < |text| ==> p < r.end <= |text|
  {
    match At(text, p + 1)
    case 'A' => Expect(text, p + 2, "LT", NotAlnum, PlainSym(Halt))
    case 'L' => Lexed(Register(HL), Cap(text, p + 2))
    case _ => LoneLetter(text, p, H)
  }

  function WordJ(text: string, p: nat): (r: Lexed)
    ensures p < |text| ==> p < r.end <= |text|
  {
    match At(text, p + 1)
    case 'C' => Ends(text, p + 2, "", JumpSym(IfCarry))
    case 'E' => Ends(text, p + 2, "XT", JEXT)
    case 'N' => (
      match At(text, p + 2)
      case 'C' => Ends(text, p + 3, "", JumpSym(IfNotCarry))
      case 'S' => Ends(text, p + 3, "", JumpSym(IfNotSign))
      case 'Z' => Ends(text, p + 3, "", JumpSym(IfNotZero))
      case _ => Bad(text, p + 3))
    case 'M' => Ends(text, p + 2, "P", JumpSym(Always))
    case 'S' => Ends(text, p + 2, "", JumpSym(IfSign))
    case 'Z' => Ends(text, p + 2, "", JumpSym(IfZero))
    case _ => Bad(text, p + 2)
  }

  function WordL(text: string, p: nat): (r: Lexed)
    ensures p < |text| ==> p < r.end <= |text|
  {
    match At(text, p + 1)
    case 'E' => Ends(text, p + 2, "AVE", PlainSym(Leave))
    case 'O' => Ends(text, p + 2, "AD", LOAD)
    case _ => LoneLetter(text, p, L)
  }

  function WordM(text: string, p: nat): (r: Lexed)
    ensures p < |text| ==> p < r.end <= |text|
  {
    match At(text, p + 1)
    case 'A' => Ends(text, p + 2, "X", AluSym(MAX))
    case 'I' => Ends(text, p + 2, "N", AluSym(MIN))
    case 'U' => Ends(text, p + 2, "LW", WideSym(MULW))
    case _ => Bad(text, p + 2)
  }

  function WordN(text: string, p: nat): (r: Lexed)
    ensures p < |text| ==> p < r.end <= |text|
  {
    match At(text, p + 1)
    case 'E' => Ends(text, p + 2, "G", UnarySym(NEG))
    case 'O' => (
      match At(text, p + 2)
      case 'O' => Ends(text, p + 3, "P", PlainSym(Noop))
      case 'T' => Ends(text, p + 3, "", UnarySym(NOT))
      case _ => Bad(text, p + 3))
    case _ => Bad(text, p + 2)
  }

  function WordP(text: string, p: nat): (r: Lexed)
    ensures p < |text| ==> p < r.end <= |text|
  {
    match At(text, p + 1)
    case 'C' => Lexed(PC, Cap(text, p + 2))
    case 'O' => Ends(text, p + 2, "P", POP)
    case 'U' => Ends(text, p + 2, "SH", PUSH)
    case _ => Bad(text, p + 2)
  }

  function WordR(text: string, p: nat): (r: Lexed)
    ensures p < |text| ==> p < r.end <= |text|
  {
    match At(text, p + 1)
    case '0' => Lexed(Register(R0), Cap(text, p + 2))
    case '1' => Lexed(Register(R1), Cap(text, p + 2))
    case 'E' => (
      match At(text, p + 2)
      case 'S' => Ends(text, p + 3, "ET", PlainSym(Reset))
      case 'T' => Ends(text, p + 3, "", RET)
      case _ => Bad(text, p + 3))
    case 'O' => (
      match At(text, p + 2)
      case 'L' => Ends(text, p + 3, "", AluSym(ROL))
      case 'R' => Ends(text, p + 3, "", AluSym(ROR))
      case _ => Bad(text, p + 3))
    case _ => Bad(text, p + 2)
  }

  function WordS(text: string, p: nat): (r: Lexed)
    ensures p < |text| ==> p < r.end <= |text|
  {
    match At(text, p + 1)
    case 'B' => Ends(text, p + 2, "C", AluSym(SBC))
    case 'H' => (
      match At(text, p + 2)
      case 'L' => Ends(text, p + 3, "", AluSym(SHL))
      case 'R' => Ends(text, p + 3, "", AluSym(SHR))
      case _ => Bad(text, p + 3))
    case 'P' => Lexed(SP, Cap(text, p + 2))
    case 'T' => Ends(text, p + 2, "ORE", STORE)
    case 'U' =>
      if At(text, p + 2) != 'B' then Bad(text, p + 3)
      else if IsDelimiter(At(text, p + 3)) then Lexed(AluSym(SUB), Cap(text, p + 3))
      else Ends(text, p + 3, "W", WideSym(SUBW))
    case _ => Bad(text, p + 2)
  }

  function WordX(text: string, p: nat): (r: Lexed)
    ensures p < |text| ==> p < r.end <= |text|
  {
    match At(text, p + 1)
    case 'C' => Ends(text, p + 2, "H", XCH)
    case 'O' => Ends(text, p + 2, "R", AluSym(XOR))
    case _ => Bad(text, p + 2)
  }

  function Mnemonic(text: string, p: nat): (r: Lexed)
    ensures p < |text| ==> p < r.end <= |text|
  {
    match At(text, p)
    case 'A' => WordA(text, p)
    case 'B' => WordB(text, p)
    case 'C' => WordC(text, p)
    case 'D' => WordD(text, p)
    case 'E' => WordE(text, p)
    case 'F' => Ends(text, p + 1, "LAGS", Register(FLAGS))
    case 'H' => WordH(text, p)
    case 'I' => Ends(text, p + 1, "NC", UnarySym(INC))
    case 'J' => WordJ(text, p)
    case 'L' => WordL(text, p)
    case 'M' => WordM(text, p)
    case 'N' => WordN(text, p)
    case 'O' => Ends(text, p + 1, "R", AluSym(OR))
    case 'P' => WordP(text, p)
    case 'R' => WordR(text, p)
    case 'S' => WordS(text, p)
    case 'X' => WordX(text, p)
    case _ => Bad(text, p + 1)
  }

  // ---------- all symbols ----------

  function ToLower(c: char): char { if 'A' <= c <= 'Z' then c + 32 as char else c }

  /** `str_iter_skip_number`. */
  function SkipNumber(text: string, p: nat): (r: nat)
    requires p <= |text|
    ensures p <= r <= |text|
  {
    Skip(HexDigits, text, if ToLower(At(text, p)) in {'b', 'o', 'x'} then p + 1 else p)
  }

  /** The radix the second character of a number stands for. */
  function RadixOf(c: char): nat {
    match ToLower(c)
    case 'b' => 2
    case 'o' => 8
    case 'x' => 16
    case _ => 10
  }

  /** A name ends in a colon or before a bracket. */
  function Name(text: string, p: nat): (r: Lexed)
    requires p <= |text|
    ensures p <= r.end <= |text|
  {
    var q := Skip(LabelChars, text, p);
    if At(text, q) == ':' then Lexed(LabelDef, q + 1)
    else if At(text, q) == '[' then Lexed(LabelIdx, q)
    else Bad(text, q)
  }

  function Punctuation(c: char): Option<Sym> {
    match c
    case '(' => Some(LParen) case ')' => Some(RParen)
    case '[' => Some(LSquare) case ']' => Some(RSquare)
    case '{' => Some(LCurly) case '}' => Some(RCurly)
    case '+' => Some(Plus) case '-' => Some(Minus) case '=' => Some(Equals) case ',' => Some(Comma)
    case _ => None
  }

  /** `tokenizeSymbol`: the symbol at position p. */
  function Symbol(text: string, p: nat): (r: Lexed)
    requires p <= |text|
    ensures p <= r.end <= |text|
    ensures p < |text| ==> p < r.end
  {
    var c := At(text, p);
    if p == |text| then Bad(text, p)
    else if Punctuation(c).Some? then Lexed(Punctuation(c).value, p + 1)
    else if c == '"' then Lexed(QuotedBytes, Cap(text, Skip(Unquoted, text, p + 1) + 1))
    else if c == ';' then Lexed(Comment, Skip(ToLineEnd, text, p + 1))
    else if c == '.' then Lexed(LabelRef, Skip(LabelChars, text, p + 1))
    else if IsDigit(c) then Lexed(Number(RadixOf(At(text, p + 1))), SkipNumber(text, p + 1))
    else if 'a' <= c <= 'z' || c == '_' then Name(text, p + 1)
    else Mnemonic(text, p)
  }
}
