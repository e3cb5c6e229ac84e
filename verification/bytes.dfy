/** Bytes as numbers, and the single-bit operations the raster code applies to them. */
module Bytes {
  type byte = b: int | 0 <= b < 256

  function Pow2(w: nat): (p: nat)
    ensures p >= 1
  {
    if w == 0 then 1 else 2 * Pow2(w - 1)
  }

  /** Bit k of n, counted from the least significant bit: `n & (1 << k) != 0`. */
  predicate HasBit(n: nat, k: nat)
  {
    if k == 0 then n % 2 == 1 else HasBit(n / 2, k - 1)
  }

  /** `n | (1 << k)`; BitAfterSet says that it is. */
  function SetBit(n: nat, k: nat): (r: nat)
  {
    if k == 0 then n / 2 * 2 + 1 else SetBit(n / 2, k - 1) * 2 + n % 2
  }

  /** Setting one bit sets that bit and leaves all others as they were. */
  lemma {:induction false} BitAfterSet(n: nat, k: nat, j: nat)
    ensures HasBit(SetBit(n, k), j) <==> j == k || HasBit(n, j)
  {
    if k > 0 {
      assert SetBit(n, k) / 2 == SetBit(n / 2, k - 1);
      if j > 0 {
        BitAfterSet(n / 2, k - 1, j - 1);
      }
    }
  }

  /** Setting a bit below the width keeps a number within the width. */
  lemma {:induction false} SetBitWithin(n: nat, k: nat, w: nat)
    requires n < Pow2(w) && k < w
    ensures SetBit(n, k) < Pow2(w)
  {
    var half := Pow2(w - 1);
    assert Pow2(w) == 2 * half;
    assert n / 2 < half;
    if k > 0 {
      SetBitWithin(n / 2, k - 1, w - 1);
      assert SetBit(n / 2, k - 1) + 1 <= half;
    }
  }

  /** `b |= 1 << k` on a byte. */
  function ByteWithBit(b: byte, k: nat): (r: byte)
    requires k < 8
    ensures r == SetBit(b, k)
  {
    assert Pow2(8) == 256 by { assert Pow2(4) == 16; }
    SetBitWithin(b, k, 8);
    SetBit(b, k)
  }

  /** Numbers within a width that agree on every bit below it are equal. */
  lemma {:induction false} SameBits(a: nat, b: nat, w: nat)
    requires a < Pow2(w) && b < Pow2(w)
    requires forall k: nat | k < w :: HasBit(a, k) <==> HasBit(b, k)
    ensures a == b
  {
    if w > 0 {
      forall k: nat | k < w - 1
        ensures HasBit(a / 2, k) <==> HasBit(b / 2, k)
      {
        assert HasBit(a, k + 1) <==> HasBit(b, k + 1);
      }
      SameBits(a / 2, b / 2, w - 1);
      assert HasBit(a, 0) <==> HasBit(b, 0);
    }
  }

  /** A byte is its eight bits. */
  lemma {:induction false} SameByte(a: byte, b: byte)
    requires forall k: nat | k < 8 :: HasBit(a, k) <==> HasBit(b, k)
    ensures a == b
  {
    assert Pow2(8) == 256 by { assert Pow2(4) == 16; }
    SameBits(a, b, 8);
  }

  lemma {:induction false} ZeroBits(k: nat)
    ensures !HasBit(0, k)
  {
    if k > 0 {
      ZeroBits(k - 1);
    }
  }

  /** The bits of a byte, by division. */
  lemma {:induction false} ByteBits(b: byte)
    ensures HasBit(b, 0) <==> b % 2 == 1
    ensures HasBit(b, 1) <==> b / 2 % 2 == 1
    ensures HasBit(b, 2) <==> b / 4 % 2 == 1
    ensures HasBit(b, 3) <==> b / 8 % 2 == 1
    ensures HasBit(b, 4) <==> b / 16 % 2 == 1
    ensures HasBit(b, 5) <==> b / 32 % 2 == 1
    ensures HasBit(b, 6) <==> b / 64 % 2 == 1
    ensures HasBit(b, 7) <==> b / 128 % 2 == 1
  {
    hide HasBit;
    Halves(b);
    LowBits(b);
    FourBits(b);
    FourBits(b / 4);
    LaterBits(b, 2);
    LaterBits(b, 3);
    LaterBits(b, 4);
    LaterBits(b, 5);
    LaterBits(b / 4, 2);
    LaterBits(b / 4, 3);
    FourBits(b / 16);
  }

  /** Halving again and again. */
  lemma Halves(n: nat)
    ensures n / 4 / 2 == n / 8 && n / 4 / 4 == n / 16 && n / 16 / 2 == n / 32 && n / 16 / 4 == n / 64
    ensures n / 64 / 2 == n / 128 && n / 4 / 8 == n / 32 && n / 16 / 8 == n / 128
  {
  }

  lemma FourBits(n: nat)
    ensures HasBit(n, 2) <==> n / 4 % 2 == 1
    ensures HasBit(n, 3) <==> n / 8 % 2 == 1
  {
    Halves(n);
    LaterBits(n, 0);
    LaterBits(n, 1);
    LowBits(n / 4);
  }

  lemma Half(n: nat, half: nat)
    requires half == n / 2
    ensures n == n % 2 + 2 * half
  {
  }

  lemma HalfAgain(n: nat)
    ensures n / 4 == n / 2 / 2 && n / 8 == n / 4 / 2 && n / 16 == n / 8 / 2
  {
  }

  /** A byte is the sum of its bits. */
  lemma BitSum(b: byte)
    ensures b == b % 2 + 2 * (b / 2 % 2) + 4 * (b / 4 % 2) + 8 * (b / 8 % 2)
      + 16 * (b / 16 % 2) + 32 * (b / 32 % 2) + 64 * (b / 64 % 2) + 128 * (b / 128)
    ensures b / 128 % 2 == b / 128 <= 1
  {
    HalfAgain(b);
    Halves(b);
    HalfAgain(b / 16);
    Half(b, b / 2);
    Half(b / 2, b / 4);
    Half(b / 4, b / 8);
    Half(b / 8, b / 16);
    Half(b / 16, b / 32);
    Half(b / 32, b / 64);
    Half(b / 64, b / 128);
  }

  lemma LowBits(n: nat)
    ensures HasBit(n, 0) <==> n % 2 == 1
    ensures HasBit(n, 1) <==> n / 2 % 2 == 1
  {
  }

  lemma LaterBits(n: nat, k: nat)
    ensures HasBit(n, k + 2) <==> HasBit(n / 4, k)
  {
    assert HasBit(n, k + 2) == HasBit(n / 2, k + 1) == HasBit(n / 2 / 2, k);
  }

  /** n bytes of 0x00. */
  function Zeros(n: nat): (z: seq<byte>)
    ensures |z| == n && forall i | 0 <= i < n :: z[i] == 0
  {
    seq(n, _ => 0)
  }
}
