/** The tokens character by character: what the text at a position is read as. */
module Characters {
  import opened Syntax
  import opened Lexing
  import opened Rendering

  /** The characters from a up to b are all of a name, or all hexadecimal digits of either case. */
  predicate NameRun(text: string, a: nat, b: nat) {
    a <= b <= |text| && forall i :: a <= i < b ==> NameChar(text[i])
  }

  predicate HexChar(c: char) { '0' <= c <= '9' || 'a' <= c <= 'f' || 'A' <= c <= 'F' }

  predicate HexRun(text: string, a: nat, b: nat) {
    a <= b <= |text| && forall i :: a <= i < b ==> HexChar(text[i])
  }

  lemma NameSkipped(text: string, a: nat, b: nat)
    requires NameRun(text, a, b) && !NameChar(At(text, b))
    ensures Skip(LabelChars, text, a) == b
  {
    hide Skip, NameChar, In, IsAlnum;
    NameCharIs(At(text, b));
    forall i | a <= i < b
      ensures text[i] != '\0' && In(LabelChars, text[i])
    {
      NameCharIs(text[i]);
    }
    SkipsTo(LabelChars, text, a, b);
  }

  /** A name that starts with a small letter or an underscore is a definition before a colon, an
      indexed label before a bracket, and unknown before anything else. */
  lemma NameLaw(text: string, p: nat, q: nat)
    requires p < q && ('a' <= At(text, p) <= 'z' || At(text, p) == '_') && NameRun(text, p + 1, q)
    requires !NameChar(At(text, q))
    ensures p <= |text|
    ensures Symbol(text, p) ==
              if At(text, q) == ':' then Lexed(LabelDef, q + 1)
              else if At(text, q) == '[' then Lexed(LabelIdx, q)
              else Lexed(Unknown, q)
  {
    hide Skip, NameChar;
    NameSkipped(text, p + 1, q);
    NameCharIs(At(text, q));
    NothingSkipped(text, q);
    NameSymbol(text, p);
  }

  lemma NameSymbol(text: string, p: nat)
    requires 'a' <= At(text, p) <= 'z' || At(text, p) == '_'
    ensures p < |text| && Symbol(text, p) == Name(text, p + 1)
  {
    hide Name, Mnemonic, Skip;
  }

  lemma NothingSkipped(text: string, q: nat)
    requires q <= |text| && !IsAlnum(At(text, q))
    ensures Skip(Alnums, text, q) == q
  {
  }

  /** A dot and any number of such characters are a reference. */
  lemma ReferenceLaw(text: string, p: nat, q: nat)
    requires p < q && At(text, p) == '.' && NameRun(text, p + 1, q) && !NameChar(At(text, q))
    ensures p <= |text| && Symbol(text, p) == Lexed(LabelRef, q)
  {
    hide Skip, NameChar;
    NameSkipped(text, p + 1, q);
  }

  /** Digits and letters up to f after a digit are one number; a second character b, o or x in either
      case gives its base. */
  lemma NumberLaw(text: string, p: nat, q: nat)
    requires p < q && '0' <= At(text, p) <= '9' && !HexChar(At(text, q))
    requires var a := if At(text, p + 1) in {'b', 'B', 'o', 'O', 'x', 'X'} then p + 2 else p + 1;
             HexRun(text, a, q)
    ensures p <= |text|
    ensures Symbol(text, p) ==
              var c := At(text, p + 1);
              Lexed(Number(if c in {'b', 'B'} then 2 else if c in {'o', 'O'} then 8 else if c in {'x', 'X'} then 16 else 10),
                    q)
  {
    hide Skip;
    var a := if At(text, p + 1) in {'b', 'B', 'o', 'O', 'x', 'X'} then p + 2 else p + 1;
    HexSkipped(text, a, q);
  }

  lemma HexSkipped(text: string, a: nat, b: nat)
    requires HexRun(text, a, b) && !HexChar(At(text, b))
    ensures Skip(HexDigits, text, a) == b
  {
    hide Skip;
    SkipsTo(HexDigits, text, a, b);
  }

  /** A quotation ends at the next quote, a comment at the end of the line. */
  lemma QuoteLaw(text: string, p: nat, q: nat)
    requires p < q < |text| && text[p] == '"' && text[q] == '"'
    requires forall i :: p < i < q ==> text[i] != '"' && text[i] != '\0'
    ensures Symbol(text, p) == Lexed(QuotedBytes, q + 1)
  {
    hide Skip;
    SkipsTo(Unquoted, text, p + 1, q);
  }

  lemma CommentLaw(text: string, p: nat, q: nat)
    requires p < q <= |text| && text[p] == ';' && (q == |text| || text[q] == '\n')
    requires forall i :: p < i < q ==> text[i] != '\n' && text[i] != '\0'
    ensures Symbol(text, p) == Lexed(Comment, q)
  {
    hide Skip;
    SkipsTo(ToLineEnd, text, p + 1, q);
  }

  /** The ten punctuation characters stand for themselves. */
  lemma PunctuationLaw(text: string, p: nat)
    requires p < |text|
    ensures text[p] == '(' ==> Symbol(text, p) == Lexed(LParen, p + 1)
    ensures text[p] == ')' ==> Symbol(text, p) == Lexed(RParen, p + 1)
    ensures text[p] == '[' ==> Symbol(text, p) == Lexed(LSquare, p + 1)
    ensures text[p] == ']' ==> Symbol(text, p) == Lexed(RSquare, p + 1)
    ensures text[p] == '{' ==> Symbol(text, p) == Lexed(LCurly, p + 1)
    ensures text[p] == '}' ==> Symbol(text, p) == Lexed(RCurly, p + 1)
    ensures text[p] == '+' ==> Symbol(text, p) == Lexed(Plus, p + 1)
    ensures text[p] == '-' ==> Symbol(text, p) == Lexed(Minus, p + 1)
    ensures text[p] == '=' ==> Symbol(text, p) == Lexed(Equals, p + 1)
    ensures text[p] == ',' ==> Symbol(text, p) == Lexed(Comma, p + 1)
  {
    hide Skip, Mnemonic, Name;
  }
}
