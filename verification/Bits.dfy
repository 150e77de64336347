/** Bits of two's complement numbers, and what a bitwise operation does to each of them. */
module Bits {
  import opened Prelude

  /** Bit k of a number: halve it k times. */
  function Bit(a: int, k: nat): int
    decreases k
  {
    if k == 0 then a % 2 else Bit(a / 2, k - 1)
  }

  /** The low n bits of r are those of a and b, combined by f. */
  ghost predicate Bitwise(f: (bool, bool) -> bool, a: int, b: int, r: int, n: nat) {
    forall k | 0 <= k < n :: Bit(r, k) == 1 <==> f(Bit(a, k) == 1, Bit(b, k) == 1)
  }

  lemma {:induction false} BitRange(a: int, k: nat)
    ensures 0 <= Bit(a, k) <= 1
    decreases k
  {
    if k > 0 {
      BitRange(a / 2, k - 1);
    }
  }

  lemma {:induction false} LowBitsRange(f: BitFn, a: int, b: int, n: nat)
    ensures 0 <= LowBits(f, a, b, n) < Pow2(n)
    decreases n
  {
    if n > 0 {
      LowBitsRange(f, a / 2, b / 2, n - 1);
    }
  }

  lemma {:induction false} LowBitsAt(f: BitFn, a: int, b: int, n: nat, k: nat)
    requires k < n
    ensures Bit(LowBits(f, a, b, n), k) == BitOf(f, Bit(a, k), Bit(b, k))
    decreases n
  {
    var rest := LowBits(f, a / 2, b / 2, n - 1);
    assert LowBits(f, a, b, n) == BitOf(f, a, b) + 2 * rest;
    ModuloIs(LowBits(f, a, b, n), 2, rest, BitOf(f, a, b));
    if k > 0 {
      LowBitsAt(f, a / 2, b / 2, n - 1, k - 1);
    }
  }

  /** The bitwise operations work bit by bit. */
  lemma AndOrXor(a: int, b: int, n: nat)
    ensures Bitwise((x, y) => x && y, a, b, LowBits(AndFn, a, b, n), n)
    ensures Bitwise((x, y) => x || y, a, b, LowBits(OrFn, a, b, n), n)
    ensures Bitwise((x, y) => x != y, a, b, LowBits(XorFn, a, b, n), n)
  {
    forall k | 0 <= k < n
      ensures Bit(LowBits(AndFn, a, b, n), k) == 1 <==> Bit(a, k) == 1 && Bit(b, k) == 1
      ensures Bit(LowBits(OrFn, a, b, n), k) == 1 <==> Bit(a, k) == 1 || Bit(b, k) == 1
      ensures Bit(LowBits(XorFn, a, b, n), k) == 1 <==> (Bit(a, k) == 1) != (Bit(b, k) == 1)
    {
      LowBitsAt(AndFn, a, b, n, k);
      LowBitsAt(OrFn, a, b, n, k);
      LowBitsAt(XorFn, a, b, n, k);
      BitRange(a, k);
      BitRange(b, k);
    }
  }

  /** A number of n bits is determined by them. */
  lemma {:induction false} SameBits(a: int, b: int, n: nat)
    requires 0 <= a < Pow2(n) && 0 <= b < Pow2(n) && forall k | 0 <= k < n :: Bit(a, k) == Bit(b, k)
    ensures a == b
    decreases n
  {
    if n > 0 {
      assert Bit(a, 0) == Bit(b, 0);
      forall k | 0 <= k < n - 1
        ensures Bit(a / 2, k) == Bit(b / 2, k)
      {
        assert Bit(a, k + 1) == Bit(b, k + 1);
      }
      SameBits(a / 2, b / 2, n - 1);
    }
  }

  lemma BitwiseIsUnique(f: (bool, bool) -> bool, a: int, b: int, r: int, s: int, n: nat)
    requires 0 <= r < Pow2(n) && 0 <= s < Pow2(n) && Bitwise(f, a, b, r, n) && Bitwise(f, a, b, s, n)
    ensures r == s
  {
    forall k | 0 <= k < n
      ensures Bit(r, k) == Bit(s, k)
    {
      BitRange(r, k);
      BitRange(s, k);
    }
    SameBits(r, s, n);
  }

  // ---- powers of two

  lemma {:induction false} Pow2Adds(a: nat, b: nat)
    ensures Pow2(a + b) == Pow2(a) * Pow2(b)
  {
    if a > 0 {
      Pow2Adds(a - 1, b);
    }
  }

  lemma ByteIsPow2()
    ensures Pow2(8) == 256
  {
    Pow2Adds(4, 4);
    assert Pow2(4) == 16;
  }

  lemma LongIsPow2()
    ensures Pow2(64) == 0x1_0000_0000_0000_0000
  {
    ByteIsPow2();
    Pow2Adds(8, 8);
    Pow2Adds(16, 16);
    Pow2Adds(32, 32);
  }
}
