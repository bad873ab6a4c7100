/** Numeric literals: the value `parse_immediate` gives a token, with `strtol` as specified in
    section 7.22.1.4 of ISO/IEC 9899:2011, and the round trip from numbers to text and back. */
module Literals {
  import opened Syntax
  import opened Lexing

  const LONG_LIMIT := 0x8000_0000_0000_0000

  predicate IsBase(base: nat) { base == 2 || base == 8 || base == 10 || base == 16 }

  /** `isspace`. */
  predicate IsSpace(c: char) { c == ' ' || 9 <= c as int <= 13 }

  /** A digit's value in any base up to 36; 36 for other characters. */
  function DigitValue(c: char): (v: nat)
    ensures v <= 36
  {
    if IsDigit(c) then c as int - '0' as int
    else if IsLetter(c) then ToLower(c) as int - 'a' as int + 10
    else 36
  }

  function SkipWhite(text: string, p: nat): nat
    decreases |text| - p
  {
    if p < |text| && IsSpace(text[p]) then SkipWhite(text, p + 1) else p
  }

  function DigitsEnd(text: string, p: nat, base: nat): (q: nat)
    ensures p <= q && (p <= |text| ==> q <= |text|)
    decreases |text| - p
  {
    if p < |text| && DigitValue(text[p]) < base then DigitsEnd(text, p + 1, base) else p
  }

  function Value(text: string, a: nat, b: nat, base: nat): nat
    requires a <= b <= |text|
    decreases b
  {
    if a == b then 0 else Value(text, a, b - 1, base) * base + DigitValue(text[b - 1])
  }

  function Clamped(v: int): int {
    if v >= LONG_LIMIT then LONG_LIMIT - 1 else if v < -LONG_LIMIT then -LONG_LIMIT else v
  }

  /** White space, an optional sign, for base 16 an optional prefix, and digits; no digits mean 0,
      and values outside the range of `long` are its limits. The text is taken to end in a
      character that is no digit. */
  function Strtol(text: string, p: nat, base: nat): int {
    var q := SkipWhite(text, p);
    var negative := At(text, q) == '-';
    var r := if negative || At(text, q) == '+' then q + 1 else q;
    var hasPrefix :=
      base == 16 && At(text, r) == '0' && ToLower(At(text, r + 1)) == 'x' && DigitValue(At(text, r + 2)) < 16;
    var a := if hasPrefix then r + 2 else r;
    if a >= |text| then 0
    else var v := Value(text, a, DigitsEnd(text, a, base), base); Clamped(if negative then 0 - v else v)
  }

  /** `parse_immediate`: the two characters of a prefix are skipped, and the result is converted to
      `size_t`. */
  function ParseImmediate(radix: nat, text: string, start: nat): nat {
    Strtol(text, if radix == 10 then start else start + 2, radix) % (2 * LONG_LIMIT)
  }

  // ---------- numbers as text ----------

  function DigitChar(d: nat): char
    requires d < 16
  {
    if d < 10 then ('0' as int + d) as char else ('a' as int + d - 10) as char
  }

  function Digits(n: nat, base: nat): (s: string)
    requires IsBase(base)
    ensures s != ""
    decreases n
  {
    if n < base then [DigitChar(n)] else Digits(n / base, base) + [DigitChar(n % base)]
  }

  function Prefix(base: nat): string {
    match base
    case 2 => "0b"
    case 8 => "0o"
    case 16 => "0x"
    case _ => ""
  }

  function LiteralText(n: nat, base: nat): string
    requires IsBase(base)
  {
    Prefix(base) + Digits(n, base)
  }

  /** The text's digits from a to b. */
  ghost predicate AllDigits(text: string, a: nat, b: nat, base: nat) {
    a <= b <= |text| && forall i :: a <= i < b ==> DigitValue(text[i]) < base && IsHexDigit(text[i])
  }

  lemma DigitIs(d: nat)
    requires d < 16
    ensures DigitValue(DigitChar(d)) == d && IsHexDigit(DigitChar(d))
  {
  }

  lemma OneMoreDigit(text: string, p: nat, q: nat, base: nat, d: nat)
    requires IsBase(base) && d < base && AllDigits(text, p, q, base) && q < |text| && text[q] == DigitChar(d)
    ensures AllDigits(text, p, q + 1, base) && Value(text, p, q + 1, base) == Value(text, p, q, base) * base + d
  {
    hide DigitValue, DigitChar;
    DigitIs(d);
  }

  lemma NoDigits(text: string, p: nat, base: nat)
    requires p <= |text|
    ensures AllDigits(text, p, p, base) && Value(text, p, p, base) == 0
  {
  }

  lemma SpellsParts(text: string, p: nat, w: string, c: char)
    requires Spells(text, p, w + [c])
    ensures Spells(text, p, w) && p + |w| < |text| && text[p + |w|] == c
  {
    assert forall i :: 0 <= i < |w| ==> (w + [c])[i] == w[i];
    assert (w + [c])[|w|] == c;
  }

  lemma DigitsSplit(n: nat, base: nat)
    requires IsBase(base)
    ensures Digits(n, base) == (if n < base then [] else Digits(n / base, base)) + [DigitChar(n % base)]
    ensures n == (n / base) * base + n % base
  {
    hide DigitChar;
  }

  lemma {:induction false} DigitsRead(n: nat, base: nat, text: string, p: nat)
    requires IsBase(base) && Spells(text, p, Digits(n, base))
    ensures AllDigits(text, p, p + |Digits(n, base)|, base)
    ensures Value(text, p, p + |Digits(n, base)|, base) == n
    decreases n
  {
    hide Digits, DigitChar, AllDigits, Value, Spells;
    DigitsSplit(n, base);
    var front := if n < base then [] else Digits(n / base, base);
    SpellsParts(text, p, front, DigitChar(n % base));
    if n < base {
      NoDigits(text, p, base);
    } else {
      DigitsRead(n / base, base, text, p);
    }
    OneMoreDigit(text, p, p + |front|, base, n % base);
  }

  lemma {:induction false} RunEnds(text: string, a: nat, b: nat, base: nat)
    requires AllDigits(text, a, b, base) && DigitValue(At(text, b)) == 36 && base <= 16
    ensures DigitsEnd(text, a, base) == b && Skip(HexDigits, text, a) == b
    decreases b - a
  {
    NotHex(At(text, b));
    if a < b {
      HexNotNul(text[a]);
      RunEnds(text, a + 1, b, base);
    }
  }

  lemma NotHex(c: char)
    requires DigitValue(c) == 36
    ensures !IsHexDigit(c)
  {
  }

  lemma HexNotNul(c: char)
    requires IsHexDigit(c)
    ensures c != '\0'
  {
  }

  lemma PlainDigits(text: string, p: nat, q: nat, base: nat)
    requires IsBase(base) && AllDigits(text, p, q, base) && p < q && DigitValue(At(text, q)) == 36
    ensures Strtol(text, p, base) == Clamped(Value(text, p, q, base))
  {
    hide Value, Clamped, AllDigits;
    RunEnds(text, p, q, base);
    FirstDigit(text, p, q, base);
  }

  lemma FirstDigit(text: string, p: nat, q: nat, base: nat)
    requires IsBase(base) && AllDigits(text, p, q, base) && p < q && DigitValue(At(text, q)) == 36
    ensures p < |text| && SkipWhite(text, p) == p && At(text, p) != '-' && At(text, p) != '+'
    ensures ToLower(At(text, p + 1)) !in {'x', 'o'} && (base <= 10 ==> ToLower(At(text, p + 1)) != 'b')
    ensures IsHexDigit(text[p]) && (base == 10 ==> IsDigit(text[p]))
  {
    assert IsHexDigit(text[p]);
    if p + 1 < q {
      assert IsHexDigit(text[p + 1]) && DigitValue(text[p + 1]) < base;
    } else {
      assert At(text, p + 1) == At(text, q);
    }
  }

  /** Every number below 2^63, written in any of the four bases before a character that is no
      letter or digit, is one token of that base, and its value is the number. */
  lemma LiteralRoundTrip(n: nat, base: nat, text: string, p: nat)
    requires IsBase(base) && n < LONG_LIMIT && Spells(text, p, LiteralText(n, base))
    requires !IsAlnum(At(text, p + |LiteralText(n, base)|))
    ensures p <= |text| && Symbol(text, p) == Lexed(Number(base), p + |LiteralText(n, base)|)
    ensures ParseImmediate(base, text, p) == n
  {
    hide Digits, Value, AllDigits, Strtol, Symbol, DigitValue;
    var a := p + |Prefix(base)|;
    var b := a + |Digits(n, base)|;
    var lit := LiteralText(n, base);
    assert Spells(text, a, Digits(n, base)) by {
      forall i | 0 <= i < |Digits(n, base)|
        ensures text[a + i] == Digits(n, base)[i]
      {
        assert lit[|Prefix(base)| + i] == Digits(n, base)[i];
        assert text[p + (|Prefix(base)| + i)] == lit[|Prefix(base)| + i];
      }
    }
    DigitsRead(n, base, text, a);
    NoDigit(At(text, b));
    PlainDigits(text, a, b, base);
    RunEnds(text, a, b, base);
    FirstDigit(text, a, b, base);
    if base == 10 {
      DecimalSymbol(text, p, b);
    } else {
      assert text[p + 0] == lit[0] && text[p + 1] == lit[1];
      PrefixedSymbol(text, p, b, base);
    }
  }

  lemma NoDigit(c: char)
    requires !IsAlnum(c)
    ensures DigitValue(c) == 36
  {
  }

  lemma DecimalSymbol(text: string, p: nat, b: nat)
    requires p < b <= |text| && IsDigit(text[p]) && ToLower(At(text, p + 1)) !in {'x', 'o', 'b'}
    requires Skip(HexDigits, text, p) == b
    ensures Symbol(text, p) == Lexed(Number(10), b)
  {
    assert Skip(HexDigits, text, p) == Skip(HexDigits, text, p + 1);
  }

  lemma PrefixedSymbol(text: string, p: nat, b: nat, base: nat)
    requires p + 2 <= |text| && text[p] == '0' && base in {2, 8, 16} && text[p + 1] == Prefix(base)[1]
    requires Skip(HexDigits, text, p + 2) == b
    ensures Symbol(text, p) == Lexed(Number(base), b)
  {
    hide Skip;
  }

  // ---------- any digits ----------

  /** The value of a hexadecimal digit of either case. */
  function DigitOf(c: char): int {
    if '0' <= c <= '9' then c as int - '0' as int
    else if 'a' <= c <= 'f' then c as int - 'a' as int + 10
    else if 'A' <= c <= 'F' then c as int - 'A' as int + 10
    else -1
  }

  predicate AreDigits(ds: string, base: nat) { forall i :: 0 <= i < |ds| ==> 0 <= DigitOf(ds[i]) < base }

  /** The number the digits stand for, highest first. */
  function NumberOf(ds: string, base: nat): int
    decreases |ds|
  {
    if ds == "" then 0 else NumberOf(ds[..|ds| - 1], base) * base + DigitOf(ds[|ds| - 1])
  }

  lemma DigitAgrees(c: char, base: nat)
    requires IsBase(base)
    ensures 0 <= DigitOf(c) < base ==> DigitValue(c) == DigitOf(c) && IsHexDigit(c)
  {
  }

  lemma {:induction false} AnyDigitsRead(ds: string, base: nat, text: string, p: nat)
    requires IsBase(base) && AreDigits(ds, base) && Spells(text, p, ds)
    ensures AllDigits(text, p, p + |ds|, base) && Value(text, p, p + |ds|, base) == NumberOf(ds, base)
    decreases |ds|
  {
    hide DigitValue, DigitOf, IsHexDigit;
    if ds == "" {
      NoDigits(text, p, base);
    } else {
      var n := |ds| - 1;
      assert text[p + n] == ds[n];
      AnyDigitsRead(ds[..n], base, text, p);
      DigitAgrees(ds[n], base);
      OneDigitMore(text, p, p + n, base, ds[n]);
    }
  }

  lemma OneDigitMore(text: string, p: nat, q: nat, base: nat, c: char)
    requires AllDigits(text, p, q, base) && q < |text| && text[q] == c && DigitValue(c) < base && IsHexDigit(c)
    ensures AllDigits(text, p, q + 1, base)
    ensures Value(text, p, q + 1, base) == Value(text, p, q, base) * base + DigitValue(c)
  {
    hide DigitValue, IsHexDigit;
  }

  /** The prefix of a base: none for 10; for the others any digit and the base's letter in either
      case. */
  predicate IsPrefix(w: string, base: nat) {
    if base == 10 then w == ""
    else |w| == 2 && '0' <= w[0] <= '9'
         && (base == 2 ==> w[1] == 'b' || w[1] == 'B')
         && (base == 8 ==> w[1] == 'o' || w[1] == 'O')
         && (base == 16 ==> w[1] == 'x' || w[1] == 'X')
  }

  /** Any digits of the base behind its prefix, in either case and with any leading zeros, before a
      character that is no letter or digit, are one token whose value is the number they stand for,
      or the largest number `long` holds if it is too large. */
  lemma AnyLiteral(w: string, ds: string, base: nat, text: string, p: nat)
    requires IsBase(base) && IsPrefix(w, base) && ds != "" && AreDigits(ds, base)
    requires Spells(text, p, w + ds) && !IsAlnum(At(text, p + |w + ds|))
    ensures p <= |text| && Symbol(text, p) == Lexed(Number(base), p + |w + ds|)
    ensures ParseImmediate(base, text, p)
         == if NumberOf(ds, base) < LONG_LIMIT then NumberOf(ds, base) else LONG_LIMIT - 1
  {
    hide Value, AllDigits, Strtol, Symbol, DigitValue, DigitOf, NumberOf;
    var a := p + |w|;
    var b := a + |ds|;
    assert Spells(text, a, ds) by {
      forall i | 0 <= i < |ds|
        ensures text[a + i] == ds[i]
      {
        assert (w + ds)[|w| + i] == ds[i];
        assert text[p + (|w| + i)] == (w + ds)[|w| + i];
      }
    }
    AnyDigitsRead(ds, base, text, a);
    NoDigit(At(text, b));
    PlainDigits(text, a, b, base);
    RunEnds(text, a, b, base);
    FirstDigit(text, a, b, base);
    if base == 10 {
      DecimalSymbol(text, p, b);
    } else {
      assert text[p + 0] == (w + ds)[0] && text[p + 1] == (w + ds)[1];
      AnyPrefixSymbol(text, p, b, base);
    }
  }

  lemma AnyPrefixSymbol(text: string, p: nat, b: nat, base: nat)
    requires p + 2 <= |text| && base in {2, 8, 16} && IsPrefix(text[p..p + 2], base)
    requires Skip(HexDigits, text, p + 2) == b
    ensures Symbol(text, p) == Lexed(Number(base), b)
  {
    hide Skip;
  }
}
