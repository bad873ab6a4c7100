/** Memory expressions against their grammar: `parse_mem_expr` accepts an optional sign followed
    by operands separated by signs, with at most one register, up to the closing bracket, and
    computes the register and the signed sum of the numbers modulo 65536. */
module Expressions {
  import opened Words
  import opened Syntax

  /** An operand with the sign in front of it. */
  datatype Term = Term(minus: bool, token: Token)

  function RegisterBase(s: Sym): Base {
    match s
    case Register(L) => ByL
    case Register(HL) => ByHL
    case Register(BP) => ByBP
    case _ => Absolute
  }

  predicate IsRegister(t: Token) { RegisterBase(t.sym) != Absolute }

  predicate IsOperand(t: Token) { t.sym.Number? || IsRegister(t) }

  predicate AllOperands(terms: seq<Term>) {
    forall i :: 0 <= i < |terms| ==> IsOperand(terms[i].token)
  }

  function Registers(terms: seq<Term>): nat
    decreases |terms|
  {
    if terms == [] then 0 else (if IsRegister(terms[0].token) then 1 else 0) + Registers(terms[1..])
  }

  /** The sum of the numbers with their signs; the sign of a register does not matter. */
  function Sum(terms: seq<Term>): int
    decreases |terms|
  {
    if terms == [] then 0
    else (if terms[0].token.sym.Number? then Signed(terms[0].minus, terms[0].token.value) else 0) + Sum(terms[1..])
  }

  /** The register of the terms, when there is one. */
  function BaseOf(terms: seq<Term>): Base
    decreases |terms|
  {
    if terms == [] then Absolute
    else if IsRegister(terms[0].token) then RegisterBase(terms[0].token.sym)
    else BaseOf(terms[1..])
  }

  /** The tokens spell the terms, the first of which has the given sign, and then the bracket. */
  ghost predicate Spells(ts: seq<Token>, minus: bool, terms: seq<Term>, end: Sym)
    decreases |terms|
  {
    && terms != [] && |ts| >= 2
    && terms[0] == Term(minus, ts[0])
    && if |terms| == 1 then ts[1].sym == end
       else IsSign(ts[1].sym) && Spells(ts[2..], ts[1].sym == Minus, terms[1..], end)
  }

  /** The grammar: the first sign is optional. */
  ghost predicate Derives(ts: seq<Token>, terms: seq<Term>, end: Sym) {
    && AllOperands(terms) && Registers(terms) <= 1
    && if ts != [] && IsSign(ts[0].sym) then Spells(ts[1..], ts[0].sym == Minus, terms, end)
       else Spells(ts, false, terms, end)
  }

  function Total(e: MemExpr, terms: seq<Term>): MemExpr {
    MemExpr(if e.base != Absolute then e.base else BaseOf(terms), ToWord(e.disp + Sum(terms)))
  }

  /** Registers already used. */
  function Used(e: MemExpr): nat { if e.base == Absolute then 0 else 1 }

  lemma TermApplied(e: MemExpr, minus: bool, t: Token, rest: seq<Term>)
    ensures ApplyTerm(e, minus, t).Some?
       <==> IsOperand(t) && (if IsRegister(t) then 1 else 0) + Used(e) <= 1
    ensures ApplyTerm(e, minus, t).Some? ==>
              var e' := ApplyTerm(e, minus, t).value;
              && Used(e') == Used(e) + (if IsRegister(t) then 1 else 0)
              && (Registers(rest) + Used(e') <= 1 ==> Total(e', rest) == Total(e, [Term(minus, t)] + rest))
  {
    var terms := [Term(minus, t)] + rest;
    assert terms[1..] == rest;
    WrapSum(e.disp + Signed(minus, t.value), Sum(rest));
    if Registers(rest) == 0 { NoRegister(rest); }
  }

  lemma {:induction false} NoRegister(terms: seq<Term>)
    requires Registers(terms) == 0
    ensures BaseOf(terms) == Absolute
    decreases |terms|
  {
    if terms != [] {
      NoRegister(terms[1..]);
    }
  }

  /** What the parser accepts, the grammar derives. */
  lemma {:induction false} TermsSound(ts: seq<Token>, minus: bool, e: MemExpr, end: Sym) returns (terms: seq<Term>)
    requires !IsSign(end) && ParseTerms(ts, minus, e, end).Some?
    ensures Spells(ts, minus, terms, end) && AllOperands(terms)
    ensures Registers(terms) + Used(e) <= 1
    ensures ParseTerms(ts, minus, e, end).value == Total(e, terms)
    decreases |ts|
  {
    hide ApplyTerm, IsOperand, IsRegister, Total, Used;
    var rest: seq<Term> := [];
    var e' := ApplyTerm(e, minus, ts[0]).value;
    if IsSign(ts[1].sym) {
      rest := TermsSound(ts[2..], ts[1].sym == Minus, e', end);
    } else {
      NothingAdded(e');
    }
    terms := [Term(minus, ts[0])] + rest;
    assert terms[1..] == rest;
    TermApplied(e, minus, ts[0], rest);
  }

  lemma NothingAdded(e: MemExpr)
    ensures Total(e, []) == e && Used(e) <= 1
  {
  }

  /** What the grammar derives, the parser accepts with the meaning the grammar gives it. */
  lemma {:induction false} TermsComplete(ts: seq<Token>, minus: bool, e: MemExpr, end: Sym, terms: seq<Term>)
    requires !IsSign(end) && Spells(ts, minus, terms, end) && AllOperands(terms)
    requires Registers(terms) + Used(e) <= 1
    ensures ParseTerms(ts, minus, e, end) == Some(Total(e, terms))
    decreases |ts|
  {
    hide ApplyTerm, IsOperand, IsRegister, Total, Used, ParseTerms, Registers, Spells;
    SpellsFirst(ts, minus, terms, end);
    var rest := terms[1..];
    FirstRegisters(terms);
    TermApplied(e, minus, ts[0], rest);
    var e' := ApplyTerm(e, minus, ts[0]).value;
    ParseFirst(ts, minus, e, end);
    if |terms| == 1 {
      NothingAdded(e');
    } else {
      TermsComplete(ts[2..], ts[1].sym == Minus, e', end, rest);
    }
  }

  lemma SpellsFirst(ts: seq<Token>, minus: bool, terms: seq<Term>, end: Sym)
    requires Spells(ts, minus, terms, end) && AllOperands(terms)
    ensures terms != [] && |ts| >= 2 && terms == [Term(minus, ts[0])] + terms[1..]
    ensures IsOperand(ts[0]) && AllOperands(terms[1..])
    ensures |terms| == 1 ==> ts[1].sym == end
    ensures |terms| > 1 ==> IsSign(ts[1].sym) && Spells(ts[2..], ts[1].sym == Minus, terms[1..], end)
  {
    hide IsOperand;
    assert IsOperand(terms[0].token);
  }

  lemma FirstRegisters(terms: seq<Term>)
    requires terms != []
    ensures Registers(terms) == (if IsRegister(terms[0].token) then 1 else 0) + Registers(terms[1..])
  {
    hide IsRegister;
  }

  lemma ParseFirst(ts: seq<Token>, minus: bool, e: MemExpr, end: Sym)
    requires |ts| >= 2 && ApplyTerm(e, minus, ts[0]).Some?
    ensures var e' := ApplyTerm(e, minus, ts[0]).value;
            ParseTerms(ts, minus, e, end)
              == if IsSign(ts[1].sym) then ParseTerms(ts[2..], ts[1].sym == Minus, e', end)
                 else if ts[1].sym == end then Some(e')
                 else None
  {
    hide ApplyTerm;
  }

  /** The parser succeeds exactly on the grammar's expressions, with the grammar's meaning. */
  lemma ParsesTheGrammar(ts: seq<Token>, end: Sym, e: MemExpr)
    requires !IsSign(end)
    ensures ParseExpr(ts, end) == Some(e)
       <==> exists terms :: Derives(ts, terms, end) && e == MemExpr(BaseOf(terms), ToWord(Sum(terms)))
  {
    hide *;
    var zero := MemExpr(Absolute, 0);
    if ParseExpr(ts, end) == Some(e) {
      var terms := ExprSound(ts, end);
      assert Derives(ts, terms, end) && e == MemExpr(BaseOf(terms), ToWord(Sum(terms)));
    }
    if terms :| Derives(ts, terms, end) && e == MemExpr(BaseOf(terms), ToWord(Sum(terms))) {
      ExprComplete(ts, end, terms);
    }
  }

  lemma ExprSound(ts: seq<Token>, end: Sym) returns (terms: seq<Term>)
    requires !IsSign(end) && ParseExpr(ts, end).Some?
    ensures Derives(ts, terms, end)
    ensures ParseExpr(ts, end) == Some(MemExpr(BaseOf(terms), ToWord(Sum(terms))))
  {
    hide ParseTerms, Spells, AllOperands, Registers, BaseOf, Sum;
    var zero := MemExpr(Absolute, 0);
    if ts != [] && IsSign(ts[0].sym) {
      terms := TermsSound(ts[1..], ts[0].sym == Minus, zero, end);
    } else {
      terms := TermsSound(ts, false, zero, end);
    }
  }

  lemma ExprComplete(ts: seq<Token>, end: Sym, terms: seq<Term>)
    requires !IsSign(end) && Derives(ts, terms, end)
    ensures ParseExpr(ts, end) == Some(MemExpr(BaseOf(terms), ToWord(Sum(terms))))
  {
    hide ParseTerms, Spells, AllOperands, Registers, BaseOf, Sum;
    var zero := MemExpr(Absolute, 0);
    if ts != [] && IsSign(ts[0].sym) {
      TermsComplete(ts[1..], ts[0].sym == Minus, zero, end, terms);
    } else {
      TermsComplete(ts, false, zero, end, terms);
    }
  }

  /** An expression has one reading. */
  lemma {:induction false} OneReading(ts: seq<Token>, minus: bool, a: seq<Term>, b: seq<Term>, end: Sym)
    requires !IsSign(end) && Spells(ts, minus, a, end) && Spells(ts, minus, b, end)
    ensures a == b
    decreases |a|
  {
    if |a| > 1 && |b| > 1 {
      OneReading(ts[2..], ts[1].sym == Minus, a[1..], b[1..], end);
      assert a == [a[0]] + a[1..] && b == [b[0]] + b[1..];
    }
  }
}
