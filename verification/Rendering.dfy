/** Rendering and tokenizing are inverse: token lines written with any indentation and any number of
    spaces behind each token, none where the next token may follow directly, and any blank lines in
    between, with or without a final newline, are read back with the same kinds, texts and values. */
module Rendering {
  import opened Syntax
  import opened Lexing
  import opened Keywords
  import opened Literals
  import opened Tokenizer

  // ---------- the assembler's tokens of a text ----------

  function TokenOf(text: string, l: Lexeme): Token
    requires l.start < l.end <= |text|
  {
    RawToken.Token(l.sym, text[l.start..l.end],
                   if l.sym.Number? then ParseImmediate(l.sym.radix, text, l.start) else 0)
  }

  function LineTokens(text: string, ls: seq<Lexeme>): (ts: seq<Token>)
    requires Within(text, ls)
    ensures |ts| == |ls|
  {
    seq(|ls|, i requires 0 <= i < |ls| => TokenOf(text, ls[i]))
  }

  function LinesTokens(text: string, lines: seq<Line>): (r: seq<seq<Token>>)
    requires forall i :: 0 <= i < |lines| ==> Within(text, lines[i].lexemes)
    ensures |r| == |lines|
  {
    seq(|lines|, i requires 0 <= i < |lines| => LineTokens(text, lines[i].lexemes))
  }

  /** The token lines of a source text. */
  function TokensOf(text: string): seq<seq<Token>> { LinesTokens(text, LexProgram(text, 0, 1)) }

  // ---------- well-formed tokens ----------

  predicate AllIn(cls: Class, s: string) {
    forall i :: 0 <= i < |s| ==> s[i] != '\0' && In(cls, s[i])
  }

  /** The characters of names, written out. */
  predicate NameChar(c: char) { 'a' <= c <= 'z' || 'A' <= c <= 'Z' || '0' <= c <= '9' || c == '_' }

  predicate AllNameChars(s: string) { forall i :: 0 <= i < |s| ==> NameChar(s[i]) }

  /** Text that can stand between quotes, and text that can stand in a comment. */
  predicate Quotable(s: string) { forall i :: 0 <= i < |s| ==> s[i] != '"' && s[i] != '\0' }

  predicate OneLine(s: string) { forall i :: 0 <= i < |s| ==> s[i] != '\n' && s[i] != '\0' }

  /** The tokenizer's loops run over these. */
  lemma NameCharIs(c: char)
    ensures In(LabelChars, c) == NameChar(c)
    ensures NameChar(c) ==> c != '\0'
    ensures IsAlnum(c) == (NameChar(c) && c != '_')
  {
  }

  lemma NameCharsIn(s: string)
    ensures AllIn(LabelChars, s) == AllNameChars(s)
  {
    hide In, NameChar, IsAlnum;
    forall i | 0 <= i < |s|
      ensures In(LabelChars, s[i]) == NameChar(s[i]) && (NameChar(s[i]) ==> s[i] != '\0')
    {
      NameCharIs(s[i]);
    }
  }

  lemma QuotableIn(s: string)
    ensures AllIn(Unquoted, s) == Quotable(s)
  {
  }

  lemma OneLineIn(s: string)
    ensures AllIn(ToLineEnd, s) == OneLine(s)
  {
  }

  predicate NameStart(c: char) { 'a' <= c <= 'z' || c == '_' }

  ghost predicate IsKeyword(sym: Sym, w: string) {
    && w != ""
    && exists i :: 0 <= i < |KeywordsOf(w[0])| && KeywordsOf(w[0])[i].spelling == w && KeywordsOf(w[0])[i].sym == sym
  }

  /** A token that stands for itself: its text is what its kind is written as. */
  ghost predicate WellFormed(t: Token) {
    match t.sym
    case Number(r) => IsBase(r) && t.value < LONG_LIMIT && t.text == LiteralText(t.value, r)
    case QuotedBytes =>
      && |t.text| >= 2 && t.text[0] == '"' && t.text[|t.text| - 1] == '"'
      && Quotable(t.text[1..|t.text| - 1]) && t.value == 0
    case Comment => t.text[0] == ';' && OneLine(t.text[1..]) && t.value == 0
    case LabelRef => t.text[0] == '.' && AllNameChars(t.text[1..]) && t.value == 0
    case LabelDef =>
      && |t.text| >= 2 && NameStart(t.text[0]) && t.text[|t.text| - 1] == ':'
      && AllNameChars(t.text[1..|t.text| - 1]) && t.value == 0
    case LabelIdx => NameStart(t.text[0]) && AllNameChars(t.text[1..]) && t.value == 0
    case Unknown => false
    case _ => t.value == 0 && ((|t.text| == 1 && Punctuation(t.text[0]) == Some(t.sym)) || IsKeyword(t.sym, t.text))
  }

  /** Whatever entry of the keyword table the word is, it may be followed by c. */
  ghost predicate KeywordBefore(sym: Sym, w: string, c: char)
    requires w != ""
  {
    forall i :: 0 <= i < |KeywordsOf(w[0])| && KeywordsOf(w[0])[i].spelling == w && KeywordsOf(w[0])[i].sym == sym
      ==> Follows(KeywordsOf(w[0])[i].follow, c)
  }

  /** The character behind a token: a comment goes on to the end of its line, an indexed label to
      its bracket, and other tokens to any character that is not read as part of them. */
  ghost predicate Behind(t: Token, c: char) {
    match t.sym
    case Comment => c == '\n' || c == '\0'
    case LabelIdx => c == '['
    case QuotedBytes | LabelDef => true
    case LabelRef => !NameChar(c)
    case Number(_) => !NameChar(c) || c == '_'
    case _ => KeywordBefore(t.sym, t.text, c)
  }

  // ---------- each token is read back ----------

  lemma {:induction false} SkipsTo(cls: Class, text: string, p: nat, q: nat)
    requires p <= q <= |text| && (At(text, q) == '\0' || !In(cls, At(text, q)))
    requires forall i :: p <= i < q ==> text[i] != '\0' && In(cls, text[i])
    ensures Skip(cls, text, p) == q
    decreases q - p
  {
    if p < q {
      SkipsTo(cls, text, p + 1, q);
    }
  }

  /** A loop over a class runs over the part a of a spelling from i to j. */
  lemma SkipsPart(cls: Class, text: string, p: nat, w: string, i: nat, j: nat)
    requires Spells(text, p, w) && i <= j <= |w| && AllIn(cls, w[i..j])
    requires At(text, p + j) == '\0' || !In(cls, At(text, p + j))
    ensures Skip(cls, text, p + i) == p + j
  {
    forall k | p + i <= k < p + j
      ensures text[k] != '\0' && In(cls, text[k])
    {
      assert text[p + (k - p)] == w[k - p] == w[i..j][k - p - i];
    }
    SkipsTo(cls, text, p + i, p + j);
  }

  lemma QuotedLexes(t: Token, text: string, p: nat)
    requires WellFormed(t) && t.sym == QuotedBytes && Spells(text, p, t.text)
    ensures p <= |text| && Symbol(text, p) == Lexed(t.sym, p + |t.text|)
  {
    hide Skip;
    assert text[p + 0] == t.text[0] && text[p + (|t.text| - 1)] == t.text[|t.text| - 1];
    QuotableIn(t.text[1..|t.text| - 1]);
    SkipsPart(Unquoted, text, p, t.text, 1, |t.text| - 1);
  }

  lemma CommentLexes(t: Token, text: string, p: nat)
    requires WellFormed(t) && t.sym == Comment && Spells(text, p, t.text) && Behind(t, At(text, p + |t.text|))
    ensures p <= |text| && Symbol(text, p) == Lexed(t.sym, p + |t.text|)
  {
    hide Skip;
    assert text[p + 0] == t.text[0];
    assert t.text[1..|t.text|] == t.text[1..];
    OneLineIn(t.text[1..]);
    SkipsPart(ToLineEnd, text, p, t.text, 1, |t.text|);
  }

  lemma ReferenceLexes(t: Token, text: string, p: nat)
    requires WellFormed(t) && t.sym == LabelRef && Spells(text, p, t.text) && Behind(t, At(text, p + |t.text|))
    ensures p <= |text| && Symbol(text, p) == Lexed(t.sym, p + |t.text|)
  {
    hide Skip;
    assert text[p + 0] == t.text[0];
    assert t.text[1..|t.text|] == t.text[1..];
    NameCharsIn(t.text[1..]);
    NameCharIs(At(text, p + |t.text|));
    SkipsPart(LabelChars, text, p, t.text, 1, |t.text|);
  }

  lemma NameLexes(t: Token, text: string, p: nat)
    requires WellFormed(t) && (t.sym == LabelDef || t.sym == LabelIdx) && Spells(text, p, t.text)
    requires Behind(t, At(text, p + |t.text|))
    ensures p <= |text| && Symbol(text, p) == Lexed(t.sym, p + |t.text|)
  {
    hide Skip, AllIn;
    assert text[p + 0] == t.text[0];
    if t.sym == LabelDef {
      assert text[p + (|t.text| - 1)] == ':';
      NameCharsIn(t.text[1..|t.text| - 1]);
      SkipsPart(LabelChars, text, p, t.text, 1, |t.text| - 1);
      DefinitionEnds(text, p, p + |t.text| - 1);
    } else {
      assert t.text[1..|t.text|] == t.text[1..];
      NameCharsIn(t.text[1..]);
      SkipsPart(LabelChars, text, p, t.text, 1, |t.text|);
      IndexEnds(text, p, p + |t.text|);
    }
  }

  lemma DefinitionEnds(text: string, p: nat, q: nat)
    requires p < |text| && NameStart(text[p]) && Skip(LabelChars, text, p + 1) == q && At(text, q) == ':'
    ensures Symbol(text, p) == Lexed(LabelDef, q + 1)
  {
    hide Skip;
  }

  lemma IndexEnds(text: string, p: nat, q: nat)
    requires p < |text| && NameStart(text[p]) && Skip(LabelChars, text, p + 1) == q && At(text, q) == '['
    ensures Symbol(text, p) == Lexed(LabelIdx, q)
  {
    hide Skip;
  }

  lemma PunctuationLexes(t: Token, text: string, p: nat)
    requires |t.text| == 1 && Punctuation(t.text[0]) == Some(t.sym) && Spells(text, p, t.text)
    ensures p <= |text| && Symbol(text, p) == Lexed(t.sym, p + |t.text|)
  {
    assert text[p + 0] == t.text[0];
  }

  lemma KeywordStart(c: char)
    requires KeywordsOf(c) != []
    ensures 'A' <= c <= 'Z'
  {
  }

  lemma KeywordLexes(t: Token, text: string, p: nat)
    requires NulFree(text) && IsKeyword(t.sym, t.text) && Spells(text, p, t.text)
    requires KeywordBefore(t.sym, t.text, At(text, p + |t.text|))
    ensures p <= |text| && Symbol(text, p) == Lexed(t.sym, p + |t.text|)
  {
    hide KeywordsOf, Mnemonic, Skip, Follows;
    var c := t.text[0];
    assert text[p + 0] == c;
    var i :| 0 <= i < |KeywordsOf(c)| && KeywordsOf(c)[i].spelling == t.text && KeywordsOf(c)[i].sym == t.sym;
    KeywordStart(c);
    MnemonicAgrees(text, p);
    assert Found(text, p, KeywordsOf(c)[i]);
  }

  lemma NumberLexes(t: Token, text: string, p: nat)
    requires WellFormed(t) && t.sym.Number? && Spells(text, p, t.text) && Behind(t, At(text, p + |t.text|))
    ensures p <= |text| && Symbol(text, p) == Lexed(t.sym, p + |t.text|)
    ensures ParseImmediate(t.sym.radix, text, p) == t.value
  {
    hide LiteralText, Symbol, ParseImmediate;
    NameCharIs(At(text, p + |t.text|));
    LiteralRoundTrip(t.value, t.sym.radix, text, p);
  }

  /** A well-formed token in its place is read back. */
  lemma TokenLexes(t: Token, text: string, p: nat)
    requires NulFree(text) && WellFormed(t) && Spells(text, p, t.text) && Behind(t, At(text, p + |t.text|))
    ensures p + |t.text| <= |text|
    ensures Symbol(text, p) == Lexed(t.sym, p + |t.text|)
    ensures TokenOf(text, Lexeme(t.sym, p, p + |t.text|, 0)) == t
  {
    hide Symbol, ParseImmediate, Punctuation, IsKeyword, LiteralText;
    assert text[p..p + |t.text|] == t.text;
    match t.sym
    case Number(_) => NumberLexes(t, text, p);
    case QuotedBytes => QuotedLexes(t, text, p);
    case Comment => CommentLexes(t, text, p);
    case LabelRef => ReferenceLexes(t, text, p);
    case LabelDef => NameLexes(t, text, p);
    case LabelIdx => NameLexes(t, text, p);
    case _ =>
      if IsKeyword(t.sym, t.text) {
        KeywordLexes(t, text, p);
      } else {
        PunctuationLexes(t, text, p);
      }
  }

  // ---------- lines ----------

  /** A well-formed token; a comment only at the end, an indexed label only before a bracket. */
  ghost predicate FitsAt(ts: seq<Token>, i: nat)
    requires i < |ts|
  {
    && WellFormed(ts[i])
    && (ts[i].sym == Comment ==> i == |ts| - 1)
    && (ts[i].sym == LabelIdx ==> i + 1 < |ts| && ts[i + 1].sym == LSquare)
  }

  ghost predicate WellFormedLine(ts: seq<Token>) { forall i :: 0 <= i < |ts| ==> FitsAt(ts, i) }

  function Spaced(n: nat): (w: string)
    ensures |w| == n && forall i :: 0 <= i < n ==> w[i] == ' '
  {
    seq(n, _ => ' ')
  }

  /** Tokens with the numbers of spaces behind them. */
  function Render(ts: seq<Token>, gaps: seq<nat>): string
    requires |gaps| == |ts|
    decreases |ts|
  {
    if ts == [] then "" else ts[0].text + Spaced(gaps[0]) + Render(ts[1..], gaps[1..])
  }

  /** A token followed by a space, by the next token, or by the end of its line. */
  ghost predicate GapAt(ts: seq<Token>, gaps: seq<nat>, i: nat)
    requires i < |ts| == |gaps|
  {
    if gaps[i] > 0 then ts[i].sym != Comment && ts[i].sym != LabelIdx
    else i + 1 < |ts| ==> Behind(ts[i], ts[i + 1].text[0])
  }

  ghost predicate Gapped(ts: seq<Token>, gaps: seq<nat>) {
    |gaps| == |ts| && forall i :: 0 <= i < |ts| ==> GapAt(ts, gaps, i)
  }

  /** A line as it is laid out. */
  datatype RawLaid = Laid(indent: nat, tokens: seq<Token>, gaps: seq<nat>)

  type Laid = l: RawLaid | |l.gaps| == |l.tokens| witness RawLaid.Laid(0, [], [])

  ghost predicate WellLaid(l: Laid) { WellFormedLine(l.tokens) && Gapped(l.tokens, l.gaps) }

  function LineText(l: Laid): string { Spaced(l.indent) + Render(l.tokens, l.gaps) }

  /** Lines with newlines between them. A text that ends in a newline has an empty last line. */
  function RenderAll(ls: seq<Laid>): string
    decreases |ls|
  {
    if ls == [] then ""
    else if |ls| == 1 then LineText(ls[0])
    else LineText(ls[0]) + "\n" + RenderAll(ls[1..])
  }

  /** The lines that have tokens. */
  function Kept(ls: seq<Laid>): seq<seq<Token>>
    decreases |ls|
  {
    if ls == [] then [] else (if ls[0].tokens == [] then [] else [ls[0].tokens]) + Kept(ls[1..])
  }

  /** Any keyword may be followed by a blank. */
  lemma KeywordFollowed(c: char, i: nat, b: char)
    requires i < |KeywordsOf(c)| && (b == ' ' || b == '\n' || b == '\0')
    ensures Follows(KeywordsOf(c)[i].follow, b)
  {
  }

  /** A blank may stand behind any token but an indexed label, and only the end of the line behind a
      comment. */
  lemma BlankBehind(t: Token, c: char)
    requires WellFormed(t) && (c == ' ' || c == '\n' || c == '\0') && t.sym != LabelIdx
    requires t.sym == Comment ==> c != ' '
    ensures Behind(t, c)
  {
    hide KeywordsOf, Punctuation, Follows, WellFormed;
    forall i | 0 <= i < |KeywordsOf(t.text[0])|
      ensures Follows(KeywordsOf(t.text[0])[i].follow, c)
    {
      KeywordFollowed(t.text[0], i, c);
    }
  }

  /** A token begins with none of the characters that end a line or separate tokens. */
  lemma FirstCharacter(t: Token)
    requires WellFormed(t)
    ensures t.text[0] !in {' ', '\n', '\0'}
    ensures t.sym == LSquare ==> t.text[0] == '['
  {
    if t.sym.Number? {
      NumberStart(t.value, t.sym.radix);
    } else if IsKeyword(t.sym, t.text) {
      KeywordStart(t.text[0]);
      NoBracketWord(t);
    }
  }

  lemma NumberStart(n: nat, base: nat)
    requires IsBase(base)
    ensures IsDigit(LiteralText(n, base)[0])
    decreases n
  {
    if base == 10 && n >= base {
      NumberStart(n / base, base);
    }
  }

  lemma NoBracketWord(t: Token)
    requires IsKeyword(t.sym, t.text)
    ensures t.sym != LSquare
  {
  }

  lemma SpellsJoin(text: string, p: nat, a: string, b: string)
    ensures Spells(text, p, a + b) <==> Spells(text, p, a) && Spells(text, p + |a|, b)
  {
    if Spells(text, p, a + b) {
      assert forall i :: 0 <= i < |a| ==> (a + b)[i] == a[i];
      forall i | 0 <= i < |b|
        ensures text[p + |a| + i] == b[i]
      {
        assert (a + b)[|a| + i] == b[i] && text[p + (|a| + i)] == b[i];
      }
    }
    if Spells(text, p, a) && Spells(text, p + |a|, b) {
      forall i | 0 <= i < |a + b|
        ensures text[p + i] == (a + b)[i]
      {
        assert i >= |a| ==> text[p + |a| + (i - |a|)] == b[i - |a|];
      }
    }
  }

  /** The pieces of a rendered line in a text. */
  lemma RenderParts(text: string, p: nat, ts: seq<Token>, gaps: seq<nat>)
    requires ts != [] && |gaps| == |ts| && Spells(text, p, Render(ts, gaps))
    ensures Spells(text, p, ts[0].text) && Spells(text, p + |ts[0].text|, Spaced(gaps[0]))
    ensures Spells(text, p + |ts[0].text| + gaps[0], Render(ts[1..], gaps[1..]))
    ensures |Render(ts, gaps)| == |ts[0].text| + gaps[0] + |Render(ts[1..], gaps[1..])|
  {
    hide Spells, Spaced;
    SpellsJoin(text, p, ts[0].text + Spaced(gaps[0]), Render(ts[1..], gaps[1..]));
    SpellsJoin(text, p, ts[0].text, Spaced(gaps[0]));
  }

  lemma RenderStart(text: string, p: nat, ts: seq<Token>, gaps: seq<nat>)
    requires ts != [] && |gaps| == |ts| && Spells(text, p, Render(ts, gaps))
    ensures At(text, p) == ts[0].text[0]
  {
    hide Render;
    RenderParts(text, p, ts, gaps);
    assert text[p + 0] == ts[0].text[0];
  }

  lemma SpellsOne(text: string, p: nat, w: string)
    requires Spells(text, p, w) && |w| == 1
    ensures At(text, p) == w[0]
  {
    assert text[p + 0] == w[0];
  }

  /** A loop over spaces runs over a stretch of them. */
  lemma SkipsSpaces(text: string, p: nat, n: nat)
    requires Spells(text, p, Spaced(n)) && At(text, p + n) != ' '
    ensures Skip(Spaces, text, p) == p + n
    ensures n > 0 ==> At(text, p) == ' '
  {
    hide Skip;
    forall k | p <= k < p + n
      ensures text[k] == ' '
    {
      assert text[p + (k - p)] == Spaced(n)[k - p];
    }
    SkipsTo(Spaces, text, p, p + n);
  }

  /** What follows the first token, and where the next one is. */
  lemma AfterFirst(text: string, p: nat, ts: seq<Token>, gaps: seq<nat>)
    requires ts != [] && WellFormedLine(ts) && Gapped(ts, gaps) && Spells(text, p, Render(ts, gaps))
    requires At(text, p + |Render(ts, gaps)|) in {'\n', '\0'}
    ensures var e := p + |ts[0].text|;
            && e <= |text| && Behind(ts[0], At(text, e))
            && Skip(Spaces, text, e) == e + gaps[0]
            && (|ts| > 1 ==> At(text, e + gaps[0]) !in {' ', '\n', '\0'})
  {
    hide WellFormed, Render, Skip, Spells, Behind, Spaced;
    RenderParts(text, p, ts, gaps);
    assert FitsAt(ts, 0) && GapAt(ts, gaps, 0);
    var e, n := p + |ts[0].text|, gaps[0];
    if |ts| == 1 {
      RenderNothing(ts, gaps);
    } else {
      assert FitsAt(ts, 1);
      FirstCharacter(ts[1]);
      RenderStart(text, e + n, ts[1..], gaps[1..]);
    }
    SkipsSpaces(text, e, n);
    SpellsInside(text, p, ts[0].text);
    if n > 0 || |ts| == 1 {
      BlankBehind(ts[0], At(text, e));
    }
  }

  lemma SpellsInside(text: string, p: nat, w: string)
    requires Spells(text, p, w)
    ensures p + |w| <= |text|
  {
  }

  lemma RenderNothing(ts: seq<Token>, gaps: seq<nat>)
    requires |ts| == |gaps| == 1
    ensures Render(ts[1..], gaps[1..]) == ""
  {
  }

  lemma TailWellFormed(ts: seq<Token>, gaps: seq<nat>)
    requires ts != [] && WellFormedLine(ts) && Gapped(ts, gaps)
    ensures WellFormed(ts[0]) && WellFormedLine(ts[1..]) && Gapped(ts[1..], gaps[1..])
  {
    hide WellFormed, Behind;
    var rest := ts[1..];
    assert FitsAt(ts, 0);
    forall i | 0 <= i < |rest|
      ensures FitsAt(rest, i) && GapAt(rest, gaps[1..], i)
    {
      assert FitsAt(ts, i + 1) && GapAt(ts, gaps, i + 1);
    }
  }

  /** A rendered line is read back. */
  lemma {:induction false} BodyRenders(text: string, p: nat, ts: seq<Token>, gaps: seq<nat>, from: nat)
    requires NulFree(text) && ts != [] && WellFormedLine(ts) && Gapped(ts, gaps)
    requires Spells(text, p, Render(ts, gaps)) && from <= p
    requires At(text, p + |Render(ts, gaps)|) in {'\n', '\0'}
    ensures p <= |text| && At(text, p) !in {' ', '\n', '\0'}
    ensures var r := LineBody(text, p, from); r.1 == p + |Render(ts, gaps)| && LineTokens(text, r.0) == ts
    decreases |ts|
  {
    hide WellFormedLine, WellFormed, Spells, Render, Skip, Symbol, LineBody, TokenOf, Behind, At, GapAt, Spaced;
    TailWellFormed(ts, gaps);
    AfterFirst(text, p, ts, gaps);
    RenderParts(text, p, ts, gaps);
    FirstCharacter(ts[0]);
    RenderStart(text, p, ts, gaps);
    TokenLexes(ts[0], text, p);
    var e := p + |ts[0].text|;
    var q := e + gaps[0];
    BodyStep(text, p, from);
    if |ts| == 1 {
      RenderNothing(ts, gaps);
      BodyEnd(text, q, from);
    } else {
      BodyRenders(text, q, ts[1..], gaps[1..], from);
    }
    TokensCons(text, p, e, p - from, LineBody(text, q, from).0, ts);
  }

  lemma TokensCons(text: string, p: nat, e: nat, charNr: nat, ls: seq<Lexeme>, ts: seq<Token>)
    requires ts != [] && p < e <= |text| && Within(text, ls) && LineTokens(text, ls) == ts[1..]
    requires TokenOf(text, Lexeme(ts[0].sym, p, e, 0)) == ts[0]
    ensures Within(text, [Lexeme(ts[0].sym, p, e, charNr)] + ls)
    ensures LineTokens(text, [Lexeme(ts[0].sym, p, e, charNr)] + ls) == ts
  {
    hide ParseImmediate;
    var all := [Lexeme(ts[0].sym, p, e, charNr)] + ls;
    assert TokenOf(text, all[0]) == ts[0];
    forall i | 0 <= i < |all|
      ensures TokenOf(text, all[i]) == ts[i]
    {
      assert i > 0 ==> LineTokens(text, ls)[i - 1] == ts[1..][i - 1];
    }
  }

  // ---------- programs ----------

  lemma {:induction false} ProgramRenders(text: string, p: nat, ls: seq<Laid>, number: nat)
    requires NulFree(text) && Spells(text, p, RenderAll(ls)) && p + |RenderAll(ls)| == |text|
    requires forall i :: 0 <= i < |ls| ==> WellLaid(ls[i])
    ensures LinesTokens(text, LexProgram(text, p, number)) == Kept(ls)
    decreases |ls|
  {
    hide WellLaid, LineText, Spells, LexLine, LineTokens, At, LexProgram, LinesTokens, Within;
    BehindText(text, |text|);
    if p == |text| {
      ProgramEnd(text, p, number);
      NothingLaid(ls);
      NoLines(text);
    } else {
      var l, rest := ls[0], ls[1..];
      AllParts(text, p, ls);
      LineRenders(text, p, l, number);
      BeforeEnd(text, p);
      ProgramStep(text, p, number);
      var r := LexLine(text, p, number);
      if rest == [] {
        ProgramEnd(text, r.1, number + 1);
        NoLines(text);
      } else {
        ProgramRenders(text, r.1, rest, number + 1);
      }
      LinesJoin(text, r.0, LexProgram(text, r.1, number + 1), l.tokens, Kept(rest));
    }
  }

  lemma BehindText(text: string, p: nat)
    requires p == |text|
    ensures At(text, p) == '\0'
  {
  }

  lemma BeforeEnd(text: string, p: nat)
    requires NulFree(text) && p < |text|
    ensures At(text, p) != '\0'
  {
  }

  lemma NoLines(text: string)
    ensures LinesTokens(text, []) == []
  {
  }

  /** Only lines without tokens are laid out as no text at all. */
  lemma NothingLaid(ls: seq<Laid>)
    requires RenderAll(ls) == ""
    ensures Kept(ls) == []
  {
    if ls != [] {
      assert |ls| == 1;
      assert ls[0].tokens == [];
      assert Kept(ls[1..]) == [];
    }
  }

  /** One laid out line is read back, whether a newline or the end of the text is behind it. */
  lemma LineRenders(text: string, p: nat, l: Laid, number: nat)
    requires NulFree(text) && WellLaid(l) && Spells(text, p, LineText(l))
    requires At(text, p + |LineText(l)|) in {'\n', '\0'}
    ensures p <= |text|
    ensures var r, e := LexLine(text, p, number), p + |LineText(l)|;
            LineTokens(text, r.0.lexemes) == l.tokens && r.1 == if At(text, e) == '\n' then e + 1 else e
  {
    hide WellFormedLine, Render, Spells, LineBody, LexLine, Skip, LineTokens, At, Gapped, Spaced;
    var q, ts := p + l.indent, l.tokens;
    SpellsJoin(text, p, Spaced(l.indent), Render(ts, l.gaps));
    SpellsInside(text, p, Spaced(l.indent));
    if ts == [] {
      NothingRendered(l);
      NoTokens(text);
      SkipsSpaces(text, p, l.indent);
      LexLineIs(text, p, number);
      if At(text, q) == '\0' {
        BodyEnd(text, q, p);
      }
    } else {
      BodyRenders(text, q, ts, l.gaps, p);
      NotEmpty(text, LineBody(text, q, p).0, ts);
      SkipsSpaces(text, p, l.indent);
      LexLineIs(text, p, number);
    }
  }

  lemma NothingRendered(l: Laid)
    requires l.tokens == []
    ensures Render(l.tokens, l.gaps) == ""
  {
  }

  lemma NoTokens(text: string)
    ensures LineTokens(text, NO_LINE.lexemes) == []
  {
  }

  lemma NotEmpty(text: string, ls: seq<Lexeme>, ts: seq<Token>)
    requires Within(text, ls) && LineTokens(text, ls) == ts
    ensures ls == [] <==> ts == []
  {
  }

  lemma AllParts(text: string, p: nat, ls: seq<Laid>)
    requires ls != [] && Spells(text, p, RenderAll(ls)) && p + |RenderAll(ls)| == |text|
    ensures var e := p + |LineText(ls[0])|;
            && Spells(text, p, LineText(ls[0]))
            && (if |ls| == 1 then e == |text| && At(text, e) == '\0'
                else At(text, e) == '\n' && Spells(text, e + 1, RenderAll(ls[1..]))
                     && e + 1 + |RenderAll(ls[1..])| == |text|)
  {
    hide LineText, Spells;
    if |ls| > 1 {
      var a, rest := LineText(ls[0]), RenderAll(ls[1..]);
      SpellsJoin(text, p, a + "\n", rest);
      SpellsJoin(text, p, a, "\n");
      SpellsOne(text, p + |a|, "\n");
    }
  }

  /** A line that has tokens and the lines behind it. */
  lemma LinesJoin(text: string, line: Line, rest: seq<Line>, ts: seq<Token>, lines: seq<seq<Token>>)
    requires Within(text, line.lexemes) && forall i :: 0 <= i < |rest| ==> Within(text, rest[i].lexemes)
    requires LineTokens(text, line.lexemes) == ts && LinesTokens(text, rest) == lines
    ensures var all := (if line.lexemes == [] then [] else [line]) + rest;
            && (forall i :: 0 <= i < |all| ==> Within(text, all[i].lexemes))
            && LinesTokens(text, all) == (if ts == [] then [] else [ts]) + lines
  {
    hide LineTokens, Within;
    NotEmpty(text, line.lexemes, ts);
    if ts == [] {
      assert [] + rest == rest && [] + lines == lines;
    } else {
      var all := [line] + rest;
      forall i | 0 <= i < |all|
        ensures Within(text, all[i].lexemes) && LineTokens(text, all[i].lexemes) == ([ts] + lines)[i]
      {
        assert i > 0 ==> LinesTokens(text, rest)[i - 1] == lines[i - 1];
      }
    }
  }

  // ---------- no NUL characters are rendered ----------

  lemma NulFreeJoin(a: string, b: string)
    requires NulFree(a) && NulFree(b)
    ensures NulFree(a + b)
  {
  }

  ghost predicate AllNulFreeWords(ks: seq<Keyword>) { forall i :: 0 <= i < |ks| ==> NulFree(ks[i].spelling) }

  lemma WordsJoin(a: seq<Keyword>, b: seq<Keyword>)
    requires AllNulFreeWords(a) && AllNulFreeWords(b)
    ensures AllNulFreeWords(a + b)
  {
    hide NulFree;
  }

  lemma KeywordNulFree(c: char, i: nat)
    requires i < |KeywordsOf(c)|
    ensures NulFree(KeywordsOf(c)[i].spelling)
  {
    hide NulFree;
    WordsNulFree(c);
  }

  lemma WordsNulFree(c: char)
    ensures AllNulFreeWords(KeywordsOf(c))
  {
    if c == 'A' {
      hide AllNulFreeWords;
      SmallLists();
      WordsJoin(KeywordsA(), KeywordsAD());
    } else if c == 'J' {
      hide AllNulFreeWords;
      JumpLists();
      WordsJoin(KeywordsJ(), KeywordsJM());
      WordsJoin(KeywordsJ() + KeywordsJM(), KeywordsJN());
    } else if c == 'D' {
      hide AllNulFreeWords;
      SmallLists();
      WordsJoin(KeywordsD(), KeywordsDI());
    } else if c == 'R' {
      hide AllNulFreeWords;
      RegisterLists();
      WordsJoin(KeywordsR(), KeywordsRE());
      WordsJoin(KeywordsR() + KeywordsRE(), KeywordsRO());
    } else if c == 'S' {
      hide AllNulFreeWords;
      ShiftLists();
      WordsJoin(KeywordsS(), KeywordsSH());
      WordsJoin(KeywordsS() + KeywordsSH(), KeywordsSU());
    } else if c < 'D' {
      EarlyWords(c);
    } else if c < 'H' {
      MiddleWords(c);
    } else if c < 'J' {
      InnerWords(c);
    } else if c < 'N' {
      LaterWords(c);
    } else if c < 'O' {
      UpperWords(c);
    } else {
      LastWords(c);
    }
  }

  lemma SmallLists()
    ensures AllNulFreeWords(KeywordsA()) && AllNulFreeWords(KeywordsAD())
    ensures AllNulFreeWords(KeywordsD()) && AllNulFreeWords(KeywordsDI())
  {
  }

  lemma RegisterLists()
    ensures AllNulFreeWords(KeywordsR()) && AllNulFreeWords(KeywordsRE()) && AllNulFreeWords(KeywordsRO())
  {
  }

  lemma JumpLists()
    ensures AllNulFreeWords(KeywordsJ()) && AllNulFreeWords(KeywordsJM()) && AllNulFreeWords(KeywordsJN())
  {
  }

  lemma ShiftLists()
    ensures AllNulFreeWords(KeywordsS()) && AllNulFreeWords(KeywordsSH()) && AllNulFreeWords(KeywordsSU())
  {
  }

  lemma EarlyWords(c: char)
    requires c < 'D' && c != 'A'
    ensures AllNulFreeWords(KeywordsOf(c))
  {
  }

  lemma MiddleWords(c: char)
    requires 'E' <= c < 'H'
    ensures AllNulFreeWords(KeywordsOf(c))
  {
  }

  lemma InnerWords(c: char)
    requires 'H' <= c < 'J'
    ensures AllNulFreeWords(KeywordsOf(c))
  {
  }

  lemma LaterWords(c: char)
    requires 'J' < c < 'N'
    ensures AllNulFreeWords(KeywordsOf(c))
  {
  }

  lemma UpperWords(c: char)
    requires c == 'N'
    ensures AllNulFreeWords(KeywordsOf(c))
  {
  }

  lemma LastWords(c: char)
    requires c >= 'O' && c != 'R' && c != 'S'
    ensures AllNulFreeWords(KeywordsOf(c))
  {
  }

  lemma {:induction false} DigitsNulFree(n: nat, base: nat)
    requires IsBase(base)
    ensures NulFree(Digits(n, base))
    decreases n
  {
    if n >= base {
      DigitsNulFree(n / base, base);
      NulFreeJoin(Digits(n / base, base), [DigitChar(n % base)]);
    }
  }

  lemma InnerNulFree(cls: Class, w: string, i: nat, j: nat)
    requires i <= 1 && |w| - 1 <= j <= |w| && i <= j && AllIn(cls, w[i..j])
    requires i == 1 ==> w[0] != '\0'
    requires j < |w| ==> w[j] != '\0'
    ensures NulFree(w)
  {
    forall k | 0 <= k < |w|
      ensures w[k] != '\0'
    {
      assert i <= k < j ==> w[k] == w[i..j][k - i];
    }
  }

  lemma TokenNulFree(t: Token)
    requires WellFormed(t)
    ensures NulFree(t.text)
  {
    hide NulFree, AllIn, KeywordsOf;
    match t.sym
    case Number(r) =>
      DigitsNulFree(t.value, r);
      PrefixNulFree(r);
      NulFreeJoin(Prefix(r), Digits(t.value, r));
    case QuotedBytes =>
      QuotableIn(t.text[1..|t.text| - 1]);
      InnerNulFree(Unquoted, t.text, 1, |t.text| - 1);
    case LabelDef =>
      NameCharsIn(t.text[1..|t.text| - 1]);
      InnerNulFree(LabelChars, t.text, 1, |t.text| - 1);
    case Comment =>
      OneLineIn(t.text[1..]);
      RestNulFree(ToLineEnd, t.text);
    case LabelRef | LabelIdx =>
      NameCharsIn(t.text[1..]);
      RestNulFree(LabelChars, t.text);
    case _ =>
      if IsKeyword(t.sym, t.text) {
        var i :| 0 <= i < |KeywordsOf(t.text[0])| && KeywordsOf(t.text[0])[i].spelling == t.text;
        KeywordNulFree(t.text[0], i);
      } else {
        OneNulFree(t);
      }
  }

  lemma PrefixNulFree(base: nat)
    ensures NulFree(Prefix(base))
  {
  }

  lemma RestNulFree(cls: Class, w: string)
    requires w != "" && w[0] != '\0' && AllIn(cls, w[1..])
    ensures NulFree(w)
  {
    assert w[1..|w|] == w[1..];
    InnerNulFree(cls, w, 1, |w|);
  }

  lemma OneNulFree(t: Token)
    requires |t.text| == 1 && Punctuation(t.text[0]).Some?
    ensures NulFree(t.text)
  {
  }

  lemma {:induction false} RenderNulFree(ts: seq<Token>, gaps: seq<nat>)
    requires WellFormedLine(ts) && Gapped(ts, gaps)
    ensures NulFree(Render(ts, gaps))
    decreases |ts|
  {
    hide NulFree, WellFormed, WellFormedLine, GapAt, Spaced;
    if ts == [] {
      EmptyNulFree();
    } else {
      TailWellFormed(ts, gaps);
      TokenNulFree(ts[0]);
      SpacedNulFree(gaps[0]);
      NulFreeJoin(ts[0].text, Spaced(gaps[0]));
      RenderNulFree(ts[1..], gaps[1..]);
      NulFreeJoin(ts[0].text + Spaced(gaps[0]), Render(ts[1..], gaps[1..]));
    }
  }

  lemma SpacedNulFree(n: nat)
    ensures NulFree(Spaced(n))
  {
  }

  lemma EmptyNulFree()
    ensures NulFree("") && NulFree("\n")
  {
  }

  lemma {:induction false} AllNulFree(ls: seq<Laid>)
    requires forall i :: 0 <= i < |ls| ==> WellLaid(ls[i])
    ensures NulFree(RenderAll(ls))
    decreases |ls|
  {
    hide NulFree, WellLaid, LineText;
    EmptyNulFree();
    if ls != [] {
      LineNulFree(ls[0]);
      NulFreeJoin(LineText(ls[0]), "\n");
      AllNulFree(ls[1..]);
      NulFreeJoin(LineText(ls[0]) + "\n", RenderAll(ls[1..]));
    }
  }

  lemma LineNulFree(l: Laid)
    requires WellLaid(l)
    ensures NulFree(LineText(l))
  {
    hide NulFree, WellFormedLine, Gapped, Render, Spaced;
    SpacedNulFree(l.indent);
    RenderNulFree(l.tokens, l.gaps);
    NulFreeJoin(Spaced(l.indent), Render(l.tokens, l.gaps));
  }

  /** Rendering laid out lines of well-formed tokens and tokenizing the text gives the lines that
      have tokens back. */
  lemma RenderingRoundTrip(ls: seq<Laid>)
    requires forall i :: 0 <= i < |ls| ==> WellLaid(ls[i])
    ensures TokensOf(RenderAll(ls)) == Kept(ls)
  {
    hide WellLaid, LexProgram, LinesTokens, NulFree, RenderAll;
    AllNulFree(ls);
    SpellsItself(RenderAll(ls));
    ProgramRenders(RenderAll(ls), 0, ls, 1);
  }

  lemma SpellsItself(text: string)
    ensures Spells(text, 0, text)
  {
  }
}
