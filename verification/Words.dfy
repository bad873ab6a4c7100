/** Fixed-width unsigned arithmetic: the `uint8_t` and `uint16_t` of the virtual machine.
    Both are ranges of mathematical integers, so every wrap-around and truncation below is
    written out. */
module Words {

  type Byte = x: int | 0 <= x < 256
  type Word = x: int | 0 <= x < 65536

  /** The conversion to `uint8_t`: the low eight bits, for negative operands too. */
  function ToByte(x: int): Byte { x % 256 }

  /** The conversion to `uint16_t`. */
  function ToWord(x: int): Word { x % 65536 }

  function High(w: Word): Byte { w / 256 }

  function Low(w: Word): Byte { w % 256 }

  /** The big-endian pair of bytes read as one word. */
  function Join(high: Byte, low: Byte): Word { high * 256 + low }

  /** Wrapping early makes no difference to a sum. */
  lemma WrapSum(x: int, y: int)
    ensures ToByte(ToByte(x) + y) == ToByte(x + y)
    ensures ToWord(ToWord(x) + y) == ToWord(x + y)
  {
    hide ToByte, ToWord;
    ByteParts(x);
    WholeTurns(ToByte(x) + y, x / 256);
    WordParts(x);
    WholeTurns(ToWord(x) + y, x / 65536);
  }

  lemma BytesThemselves(b: Byte)
    ensures ToByte(b) == b
  {
  }

  lemma WordsThemselves(w: Word)
    ensures ToWord(w) == w && Low(0) == 0
  {
  }

  lemma ByteParts(x: int)
    ensures x == ToByte(x) + 256 * (x / 256)
  {
  }

  lemma WordParts(x: int)
    ensures x == ToWord(x) + 65536 * (x / 65536)
  {
  }

  lemma WholeTurns(x: int, k: int)
    ensures ToByte(x + 256 * k) == ToByte(x)
    ensures ToWord(x + 65536 * k) == ToWord(x)
  {
  }

  lemma WordOf(h: nat, l: Byte)
    ensures ToWord(256 * h + l) == Join(ToByte(h), l)
  {
  }

  lemma JoinParts(h: Byte, l: Byte)
    ensures High(Join(h, l)) == h && Low(Join(h, l)) == l
  {
  }

  lemma WholeWord(w: Word)
    ensures Join(High(w), Low(w)) == w
  {
  }

  lemma ZeroPair(w: Word)
    ensures (High(w) == 0 && Low(w) == 0) == (w == 0)
  {
  }

  /** n zero bytes, as `calloc` returns them. */
  function Zeros(n: nat): (z: seq<Byte>)
    ensures |z| == n
    ensures forall i :: 0 <= i < n ==> z[i] == 0
  {
    seq(n, _ => 0)
  }

  function Pow2(n: nat): (p: nat)
    ensures p >= 1
  {
    if n == 0 then 1 else 2 * Pow2(n - 1)
  }

  // Bits, lowest first.

  function Bit(b: bool): Byte { if b then 1 else 0 }

  function FromBits(bits: seq<bool>): nat {
    if bits == [] then 0 else Bit(bits[0]) + 2 * FromBits(bits[1..])
  }

  function ToBits(a: nat, n: nat): (bits: seq<bool>)
    ensures |bits| == n
  {
    if n == 0 then [] else [a % 2 == 1] + ToBits(a / 2, n - 1)
  }

  lemma {:induction false} BitsRoundTrip(bits: seq<bool>)
    ensures FromBits(bits) < Pow2(|bits|) && ToBits(FromBits(bits), |bits|) == bits
  {
    if bits != [] {
      BitsRoundTrip(bits[1..]);
      assert FromBits(bits) / 2 == FromBits(bits[1..]);
    }
  }

  lemma {:induction false} NumberRoundTrip(a: nat, n: nat)
    requires a < Pow2(n)
    ensures FromBits(ToBits(a, n)) == a
  {
    if n > 0 {
      NumberRoundTrip(a / 2, n - 1);
      assert ToBits(a, n)[1..] == ToBits(a / 2, n - 1);
    }
  }

  // Bitwise operations, bit by bit.

  function And(a: nat, b: nat): (r: nat)
    ensures r <= a && r <= b
  {
    if a == 0 || b == 0 then 0 else (a % 2) * (b % 2) + 2 * And(a / 2, b / 2)
  }

  function Or(a: nat, b: nat): (r: nat)
    ensures a <= r && b <= r && r <= a + b
  {
    if a == 0 then b
    else if b == 0 then a
    else (if a % 2 == 1 || b % 2 == 1 then 1 else 0) + 2 * Or(a / 2, b / 2)
  }

  function Xor(a: nat, b: nat): (r: nat)
    ensures r <= a + b
  {
    if a == 0 then b
    else if b == 0 then a
    else (if a % 2 != b % 2 then 1 else 0) + 2 * Xor(a / 2, b / 2)
  }

  /** Or and Xor of two k-bit numbers are k-bit numbers. */
  lemma {:induction false} BitwiseFits(a: nat, b: nat, k: nat)
    requires a < Pow2(k) && b < Pow2(k)
    ensures Or(a, b) < Pow2(k) && Xor(a, b) < Pow2(k)
  {
    if a != 0 && b != 0 {
      BitwiseFits(a / 2, b / 2, k - 1);
    }
  }

  function AndByte(a: Byte, b: Byte): Byte { And(a, b) }

  function OrByte(a: Byte, b: Byte): Byte {
    assert Pow2(8) == 256;
    BitwiseFits(a, b, 8);
    Or(a, b)
  }

  function XorByte(a: Byte, b: Byte): Byte {
    assert Pow2(8) == 256;
    BitwiseFits(a, b, 8);
    Xor(a, b)
  }

  /** Masking with 2^k - 1 is the remainder modulo 2^k. */
  lemma {:induction false} MaskIsMod(a: nat, k: nat)
    ensures And(a, Pow2(k) - 1) == a % Pow2(k)
  {
    hide And;
    if a == 0 || k == 0 {
      AndNothing(a, Pow2(k) - 1);
    } else {
      MaskIsMod(a / 2, k - 1);
      AndOdd(a, Pow2(k - 1));
      ModDouble(a, Pow2(k - 1));
    }
  }

  lemma AndNothing(a: nat, b: nat)
    requires a == 0 || b == 0
    ensures And(a, b) == 0
  {
  }

  lemma AndOdd(a: nat, p: nat)
    requires a != 0 && p > 0
    ensures And(a, 2 * p - 1) == a % 2 + 2 * And(a / 2, p - 1)
  {
    var b := 2 * p - 1;
    assert b / 2 == p - 1 && b % 2 == 1;
  }

  lemma ModDouble(a: nat, p: nat)
    requires p > 0
    ensures a % (2 * p) == a % 2 + 2 * ((a / 2) % p)
  {
    var q, r := (a / 2) / p, 2 * ((a / 2) % p) + a % 2;
    assert a / 2 == q * p + (a / 2) % p;
    assert a == (2 * p) * q + r;
    RemainderUnique(a, 2 * p, q, r);
  }

  lemma RemainderUnique(a: nat, m: nat, q: nat, r: nat)
    requires r < m && a == m * q + r
    ensures a % m == r && a / m == q
  {
    var d := a / m - q;
    assert m * d == m * (a / m) - m * q;
    assert a == m * (a / m) + a % m;
    NoMultipleBetween(m, d);
  }

  lemma NoMultipleBetween(m: nat, d: int)
    requires 0 - m < m * d < m
    ensures d == 0
  {
  }
}
