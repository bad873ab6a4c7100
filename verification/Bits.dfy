/** Numbers bit by bit: what the bitwise operations and the shifts do to each bit. */
module Bits {
  import opened Words

  /** Bit i of a number, the lowest first. */
  predicate BitSet(a: nat, i: nat)
    decreases i
  {
    if i == 0 then a % 2 == 1 else BitSet(a / 2, i - 1)
  }

  lemma {:induction false} ZeroBit(i: nat)
    ensures !BitSet(0, i)
    decreases i
  {
    if i > 0 {
      ZeroBit(i - 1);
    }
  }

  // ---------- bitwise operations ----------

  lemma {:induction false} AndBit(a: nat, b: nat, i: nat)
    ensures BitSet(And(a, b), i) <==> BitSet(a, i) && BitSet(b, i)
    decreases i
  {
    if a == 0 || b == 0 {
      ZeroBit(i);
    } else if i > 0 {
      AndBit(a / 2, b / 2, i - 1);
      HalfOf(a % 2 * (b % 2), And(a / 2, b / 2));
    }
  }

  lemma {:induction false} OrBit(a: nat, b: nat, i: nat)
    ensures BitSet(Or(a, b), i) <==> BitSet(a, i) || BitSet(b, i)
    decreases i
  {
    if a == 0 || b == 0 {
      ZeroBit(i);
    } else if i > 0 {
      OrBit(a / 2, b / 2, i - 1);
    }
  }

  lemma {:induction false} XorBit(a: nat, b: nat, i: nat)
    ensures BitSet(Xor(a, b), i) <==> BitSet(a, i) != BitSet(b, i)
    decreases i
  {
    if a == 0 || b == 0 {
      ZeroBit(i);
    } else if i > 0 {
      XorBit(a / 2, b / 2, i - 1);
    }
  }

  lemma HalfOf(r: nat, q: nat)
    requires r < 2
    ensures (r + 2 * q) / 2 == q && (r + 2 * q) % 2 == r
  {
  }

  // ---------- truncation and shifts ----------

  /** The remainder modulo 2^n keeps the bits below n. */
  lemma {:induction false} LowBits(a: nat, n: nat, i: nat)
    requires i < n
    ensures BitSet(a % Pow2(n), i) <==> BitSet(a, i)
    decreases n
  {
    ModDouble(a, Pow2(n - 1));
    HalfOf(a % 2, (a / 2) % Pow2(n - 1));
    if i > 0 {
      LowBits(a / 2, n - 1, i - 1);
    }
  }

  /** A number has no bits from n on if it is below 2^n. */
  lemma {:induction false} NoHighBits(a: nat, n: nat, i: nat)
    requires a < Pow2(n) && n <= i
    ensures !BitSet(a, i)
    decreases n
  {
    if n == 0 {
      ZeroBit(i);
    } else {
      NoHighBits(a / 2, n - 1, i - 1);
    }
  }

  lemma {:induction false} ShiftedUp(a: nat, v: nat, i: nat)
    ensures BitSet(a * Pow2(v), i) <==> i >= v && BitSet(a, i - v)
    decreases v
  {
    if v > 0 {
      var y := a * Pow2(v - 1);
      assert a * Pow2(v) == 2 * y by { DoubleTimes(a, Pow2(v - 1)); }
      HalfOf(0, y);
      if i > 0 {
        ShiftedUp(a, v - 1, i - 1);
      }
    }
  }

  lemma DoubleTimes(a: nat, p: nat)
    ensures a * (2 * p) == 2 * (a * p)
  {
  }

  /** The number without its v lowest bits. */
  function Above(a: nat, v: nat): nat {
    var p := Pow2(v);
    a / p
  }

  lemma {:induction false} ShiftedDown(a: nat, v: nat, i: nat)
    ensures BitSet(Above(a, v), i) <==> BitSet(a, i + v)
    decreases v
  {
    if v > 0 {
      HalvesDown(a, Pow2(v - 1));
      ShiftedDown(a / 2, v - 1, i);
    }
  }

  lemma HalvesDown(a: nat, p: nat)
    requires p > 0
    ensures a / (2 * p) == (a / 2) / p
  {
    var q, r := (a / 2) / p, (a / 2) % p;
    assert a / 2 == p * q + r;
    assert a == 2 * (p * q) + (2 * r + a % 2);
    DoubleFactor(p, q);
    RemainderUnique(a, 2 * p, q, 2 * r + a % 2);
  }

  lemma DoubleFactor(p: nat, q: nat)
    ensures 2 * (p * q) == (2 * p) * q
  {
  }

  lemma {:induction false} PowerGrows(n: nat, m: nat)
    requires n <= m
    ensures Pow2(n) <= Pow2(m)
    decreases m
  {
    if n < m {
      PowerGrows(n, m - 1);
    }
  }

  // ---------- bytes ----------

  lemma ByteBits(x: nat, i: nat)
    requires i < 8
    ensures BitSet(ToByte(x), i) <==> BitSet(x, i)
  {
    assert Pow2(8) == 256;
    LowBits(x, 8, i);
  }

  lemma NoNinthBit(a: Byte, i: nat)
    requires i >= 8
    ensures !BitSet(a, i)
  {
    assert Pow2(8) == 256;
    NoHighBits(a, 8, i);
  }

  /** Shifted left in a byte, zeros coming in. */
  lemma ByteUp(a: Byte, v: nat, i: nat)
    requires i < 8
    ensures BitSet(ToByte(a * Pow2(v)), i) <==> i >= v && BitSet(a, i - v)
  {
    hide ToByte, BitSet, Pow2;
    ByteBits(a * Pow2(v), i);
    ShiftedUp(a, v, i);
  }

  /** Shifted right in a byte, zeros coming in. */
  lemma ByteDown(a: Byte, v: nat, i: nat)
    requires i < 8
    ensures BitSet(ToByte(a / Pow2(v)), i) <==> i + v < 8 && BitSet(a, i + v)
  {
    hide ToByte, BitSet, Pow2;
    ByteBits(a / Pow2(v), i);
    ShiftedDown(a, v, i);
    if i + v >= 8 {
      NoNinthBit(a, i + v);
    }
  }

  /** The two shifts of a rotation by k places to the left, k below eight, meet in no bit. */
  lemma RotatedUp(a: Byte, k: nat, i: nat)
    requires k < 8 && i < 8
    ensures BitSet(OrByte(ToByte(a * Pow2(k)), ToByte(a / Pow2((8 - k) % 8))), i) <==> BitSet(a, (i + 8 - k) % 8)
  {
    hide ToByte, BitSet, Pow2, Or;
    OrBit(ToByte(a * Pow2(k)), ToByte(a / Pow2((8 - k) % 8)), i);
    ByteUp(a, k, i);
    ByteDown(a, (8 - k) % 8, i);
  }

  lemma RotatedDown(a: Byte, k: nat, i: nat)
    requires k < 8 && i < 8
    ensures BitSet(OrByte(ToByte(a / Pow2(k)), ToByte(a * Pow2((8 - k) % 8))), i) <==> BitSet(a, (i + k) % 8)
  {
    hide ToByte, BitSet, Pow2, Or;
    OrBit(ToByte(a / Pow2(k)), ToByte(a * Pow2((8 - k) % 8)), i);
    ByteDown(a, k, i);
    ByteUp(a, (8 - k) % 8, i);
  }

  /** Bytes with the same bits are the same. */
  lemma {:induction false} SameBits(a: nat, b: nat, n: nat)
    requires a < Pow2(n) && b < Pow2(n)
    requires forall i :: 0 <= i < n ==> BitSet(a, i) == BitSet(b, i)
    ensures a == b
    decreases n
  {
    if n > 0 {
      assert BitSet(a, 0) == BitSet(b, 0);
      forall i | 0 <= i < n - 1
        ensures BitSet(a / 2, i) == BitSet(b / 2, i)
      {
        assert BitSet(a, i + 1) == BitSet(b, i + 1);
      }
      SameBits(a / 2, b / 2, n - 1);
    }
  }

  /** No bit from lo up to hi is set. */
  ghost predicate NoBits(a: nat, lo: nat, hi: nat) { forall j: nat :: lo <= j < hi ==> !BitSet(a, j) }

  /** The low bits are zero exactly when the remainder is. */
  lemma LowZero(a: nat, n: nat)
    ensures NoBits(a, 0, n) == (a % Pow2(n) == 0)
  {
    hide BitSet, Pow2;
    var r := a % Pow2(n);
    forall j: nat | j < n
      ensures BitSet(r, j) == BitSet(a, j)
    {
      LowBits(a, n, j);
    }
    forall j: nat
      ensures !BitSet(0, j)
    {
      ZeroBit(j);
    }
    if NoBits(a, 0, n) {
      SameBits(r, 0, n);
    } else {
      var j: nat :| 0 <= j < n && BitSet(a, j);
      assert BitSet(r, j);
    }
  }

  /** The bits of a byte from k on are zero exactly when it is below 2^k. */
  lemma HighZero(a: Byte, k: nat)
    requires k <= 8
    ensures NoBits(a, k, 8) == (a < Pow2(k))
  {
    hide BitSet, Pow2;
    var r := a % Pow2(k);
    BytePower();
    PowerGrows(k, 8);
    if a < Pow2(k) {
      forall j: nat | k <= j < 8
        ensures !BitSet(a, j)
      {
        NoHighBits(a, k, j);
      }
    } else if NoBits(a, k, 8) {
      forall j: nat | j < 8
        ensures BitSet(r, j) == BitSet(a, j)
      {
        if j < k {
          LowBits(a, k, j);
        } else {
          NoHighBits(r, k, j);
        }
      }
      SameBits(a, r, 8);
    }
  }

  lemma BytePower()
    ensures Pow2(8) == 256
  {
  }

  /** The complement of an n-bit number has the other bits. */
  lemma {:induction false} NotBit(a: nat, n: nat, i: nat)
    requires a < Pow2(n) && i < n
    ensures BitSet(Pow2(n) - 1 - a, i) != BitSet(a, i)
    decreases n
  {
    var p, b := Pow2(n - 1), a / 2;
    assert Pow2(n) - 1 - a == (1 - a % 2) + 2 * (p - 1 - b);
    HalfOf(1 - a % 2, p - 1 - b);
    if i > 0 {
      NotBit(b, n - 1, i - 1);
    }
  }

  /** The bits as a sequence. */
  lemma {:induction false} BitsAre(a: nat, n: nat, i: nat)
    requires i < n
    ensures ToBits(a, n)[i] == BitSet(a, i)
    decreases n
  {
    if i > 0 {
      BitsAre(a / 2, n - 1, i - 1);
    }
  }
}
