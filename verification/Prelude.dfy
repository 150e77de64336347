/** Definitions shared by the models of the assembler and the linker. */
module Prelude {
  datatype Option<+T> = None | Some(value: T)
  {
    predicate IsFailure() { None? }
    function PropagateFailure<U>(): Option<U>
      requires None?
    {
      None
    }
    function Extract(): T
      requires Some?
    {
      value
    }
  }

  type pos = x: int | 0 < x witness 1

  newtype byte = x: int | 0 <= x < 256

  /** Segments, or location counters, of a module. */
  const NSEG := 16

  /** What a zero-initialised table holds at a key. */
  function At<K>(m: map<K, int>, k: K): int {
    if k in m then m[k] else 0
  }

  // ---- bits

  datatype BitFn = AndFn | OrFn | XorFn

  function BitOf(f: BitFn, a: int, b: int): int {
    match f
    case AndFn => if a % 2 == 1 && b % 2 == 1 then 1 else 0
    case OrFn => if a % 2 == 1 || b % 2 == 1 then 1 else 0
    case XorFn => if a % 2 != b % 2 then 1 else 0
  }

  /** The low n bits of a two's complement bitwise operation. */
  function LowBits(f: BitFn, a: int, b: int, n: nat): int
    decreases n
  {
    if n == 0 then 0 else BitOf(f, a, b) + 2 * LowBits(f, a / 2, b / 2, n - 1)
  }

  function Pow2(n: nat): pos {
    if n == 0 then 1 else 2 * Pow2(n - 1)
  }

  // ---- arithmetic

  lemma Product(a: int, b: int)
    requires 0 <= a && 0 <= b
    ensures 0 <= a * b
  {
  }

  /** The quotient and the remainder are unique. */
  lemma ModuloIs(n: int, d: pos, k: int, m: int)
    requires n == d * k + m && 0 <= m < d
    ensures n % d == m && n / d == k
  {
    DivisionIsUnique(d, n / d, n % d, k, m);
  }

  lemma DivisionIsUnique(d: pos, q: int, r: int, k: int, m: int)
    requires d * q + r == d * k + m && 0 <= r < d && 0 <= m < d
    ensures q == k && r == m
  {
    assert d * (q - k) == m - r;
    if q > k {
      Product(d, q - k - 1);
      assert false;
    } else if q < k {
      Product(d, k - q - 1);
      assert false;
    }
  }

  // ---- sequences

  lemma Assoc<T>(a: seq<T>, b: seq<T>, c: seq<T>)
    ensures a + b + c == a + (b + c)
  {
  }

  lemma SliceOfSlice<T>(s: seq<T>, lo: nat, hi: nat, i: nat, j: nat)
    requires lo <= hi <= |s| && i <= j <= hi - lo
    ensures s[lo..hi][i..j] == s[lo + i..lo + j]
  {
    var a, b := s[lo..hi][i..j], s[lo + i..lo + j];
    assert |a| == |b| && forall k | 0 <= k < |a| :: a[k] == b[k];
  }

  function Decimal(n: nat): string {
    if n < 10 then [('0' as int + n) as char] else Decimal(n / 10) + [('0' as int + n % 10) as char]
  }
}
