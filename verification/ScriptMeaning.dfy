/** What script expressions mean: a relation that does not use the linker's arithmetic, and the
    proof that evaluation gives exactly the values that it allows. */
module ScriptMeaning {
  import opened Prelude
  import opened Bits
  import opened ScriptSyntax
  import opened Layout

  function Abs(n: int): int {
    if n < 0 then -n else n
  }

  // ---- alignment

  ghost predicate IsPowerOfTwo(n: int) {
    exists k: nat :: n == Pow2(k)
  }

  lemma {:induction false} PowerIsPower(k: nat)
    ensures PowerOfTwo(Pow2(k))
  {
    if k > 0 {
      PowerIsPower(k - 1);
      assert Pow2(k) / 2 == Pow2(k - 1);
    }
  }

  lemma {:induction false} PowerHasExponent(n: int) returns (k: nat)
    requires PowerOfTwo(n)
    ensures n == Pow2(k)
    decreases n
  {
    if n == 1 {
      k := 0;
    } else {
      k := PowerHasExponent(n / 2);
      k := k + 1;
    }
  }

  lemma PowersAreRecognised(n: int)
    ensures PowerOfTwo(n) <==> IsPowerOfTwo(n)
  {
    if PowerOfTwo(n) {
      var k := PowerHasExponent(n);
    }
    if k: nat :| n == Pow2(k) {
      PowerIsPower(k);
    }
  }

  /** r is the least multiple of n, a power of two, that is not below v. */
  ghost predicate Aligns(v: int, n: int, r: int) {
    IsPowerOfTwo(n) && v <= r < v + n && r % n == 0
  }

  lemma RoundsUp(v: int, n: pos)
    ensures v <= (v + n - 1) / n * n < v + n && (v + n - 1) / n * n % n == 0
  {
    var q, m := (v + n - 1) / n, (v + n - 1) % n;
    assert n * q == q * n;
    assert v + n - 1 == n * q + m;
    ModuloIs(q * n, n, q, 0);
  }

  lemma NoSmallMultiple(k: int, b: int, n: int)
    requires k != 0 && b != 0 && k * b == n
    ensures Abs(n) >= Abs(b)
  {
    if k > 0 {
      Product(k - 1, Abs(b));
    } else {
      Product(-k - 1, Abs(b));
    }
  }

  lemma MultiplesApart(n: pos, r: int, s: int, v: int)
    requires v <= r < v + n && v <= s < v + n && r % n == 0 && s % n == 0
    ensures r == s
  {
    var i, j := r / n, s / n;
    assert r == n * i && s == n * j;
    assert (i - j) * n == r - s;
    if i != j {
      NoSmallMultiple(i - j, n, r - s);
    }
  }

  /** ALIGN accepts exactly powers of two, and rounds up to a multiple. */
  lemma AlignUpAligns(v: int, n: int, r: int)
    ensures AlignUp(v, n) == Some(r) <==> Aligns(v, n, r)
  {
    PowersAreRecognised(n);
    if IsPowerOfTwo(n) {
      RoundsUp(v, n);
      if Aligns(v, n, r) {
        MultiplesApart(n, r, AlignUp(v, n).value, v);
      }
    }
  }

  // ---- operators

  predicate Signed(r: int) {
    -0x8000_0000_0000_0000 <= r < 0x8000_0000_0000_0000
  }

  function Flag(b: bool): int {
    if b then 1 else 0
  }

  /** a == q * b + r as C divides: the quotient is truncated, the remainder has the sign of a. */
  predicate Divides(a: int, b: int, q: int, r: int) {
    a == q * b + r && -Abs(b) < r < Abs(b) && (if a >= 0 then r >= 0 else r <= 0)
  }

  /** r is the result of the operator. */
  ghost predicate Computes(op: BinaryOp, a: int, b: int, r: int) {
    match op
    case LOr => r == Flag(a != 0 || b != 0)
    case LAnd => r == Flag(a != 0 && b != 0)
    case BitOr => Signed(r) && Bitwise((x, y) => x || y, a, b, r, 64)
    case BitXor => Signed(r) && Bitwise((x, y) => x != y, a, b, r, 64)
    case BitAnd => Signed(r) && Bitwise((x, y) => x && y, a, b, r, 64)
    case Eq => r == Flag(a == b)
    case Ne => r == Flag(a != b)
    case Lt => r == Flag(a < b)
    case Le => r == Flag(a <= b)
    case Gt => r == Flag(a > b)
    case Ge => r == Flag(a >= b)
    case Shl => 0 <= b < 64 && r == a * Pow2(b)
    case Shr => 0 <= b < 64 && r * Pow2(b) <= a < (r + 1) * Pow2(b)
    case Add => r == a + b
    case Sub => r + b == a
    case Mul => r == a * b
    case Div => b != 0 && exists m :: Divides(a, b, r, m)
    case Mod => b != 0 && exists q :: Divides(a, b, q, r)
  }

  /** Bits below n do not see a multiple of 2 to the n. */
  lemma {:induction false} BitShifts(u: int, n: nat, k: nat)
    requires k < n
    ensures Bit(u - Pow2(n), k) == Bit(u, k)
    decreases k
  {
    assert Pow2(n) == 2 * Pow2(n - 1);
    ModuloIs(u - Pow2(n), 2, u / 2 - Pow2(n - 1), u % 2);
    if k > 0 {
      BitShifts(u / 2, n - 1, k - 1);
    }
  }

  lemma SignedIsBitwise(f: (bool, bool) -> bool, a: int, b: int, u: int, r: int)
    requires 0 <= u < Pow2(64) && Bitwise(f, a, b, u, 64)
    ensures Signed(r) && Bitwise(f, a, b, r, 64) <==> r == Signed64(u)
  {
    LongIsPow2();
    var s := Signed64(u);
    forall k: nat | k < 64
      ensures Bit(s, k) == Bit(u, k)
    {
      BitShifts(u, 64, k);
    }
    if Signed(r) && Bitwise(f, a, b, r, 64) {
      var v := if r < 0 then r + Pow2(64) else r;
      forall k: nat | k < 64
        ensures Bit(v, k) == Bit(r, k)
      {
        BitShifts(v, 64, k);
      }
      BitwiseIsUnique(f, a, b, u, v, 64);
    }
  }

  lemma BitsCompute(a: int, b: int, r: int)
    ensures Computes(BitOr, a, b, r) <==> ApplyBinary(BitOr, a, b) == Some(r)
    ensures Computes(BitXor, a, b, r) <==> ApplyBinary(BitXor, a, b) == Some(r)
    ensures Computes(BitAnd, a, b, r) <==> ApplyBinary(BitAnd, a, b) == Some(r)
  {
    AndOrXor(a, b, 64);
    LowBitsRange(OrFn, a, b, 64);
    LowBitsRange(XorFn, a, b, 64);
    LowBitsRange(AndFn, a, b, 64);
    SignedIsBitwise((x, y) => x || y, a, b, LowBits(OrFn, a, b, 64), r);
    SignedIsBitwise((x, y) => x != y, a, b, LowBits(XorFn, a, b, 64), r);
    SignedIsBitwise((x, y) => x && y, a, b, LowBits(AndFn, a, b, 64), r);
  }

  lemma QuotientIs(x: int, d: pos, r: int)
    ensures r * d <= x < (r + 1) * d <==> r == x / d
  {
    assert (r + 1) * d == r * d + d;
    if r * d <= x < (r + 1) * d {
      ModuloIs(x, d, r, x - r * d);
    }
  }

  lemma TruncDivides(a: int, b: int)
    requires b != 0
    ensures Divides(a, b, TruncDiv(a, b), a - b * TruncDiv(a, b))
  {
    if a < 0 {
      assert -a == b * ((-a) / b) + (-a) % b;
    }
  }

  lemma DivisionIsExact(a: int, b: int, q: int, r: int)
    requires b != 0 && Divides(a, b, q, r)
    ensures q == TruncDiv(a, b) && r == a - b * TruncDiv(a, b)
  {
    TruncDivides(a, b);
    var p, m := TruncDiv(a, b), a - b * TruncDiv(a, b);
    var d := Abs(b);
    assert (q - p) * b == m - r;
    if q != p {
      NoSmallMultiple(q - p, b, m - r);
    }
  }

  lemma DivisionComputes(a: int, b: int, r: int)
    ensures Computes(Div, a, b, r) <==> ApplyBinary(Div, a, b) == Some(r)
    ensures Computes(Mod, a, b, r) <==> ApplyBinary(Mod, a, b) == Some(r)
  {
    if b != 0 {
      TruncDivides(a, b);
      if m :| Divides(a, b, r, m) {
        DivisionIsExact(a, b, r, m);
      }
      if q :| Divides(a, b, q, r) {
        DivisionIsExact(a, b, q, r);
      }
    }
  }

  /** The operators compute exactly what they stand for. */
  lemma BinaryComputes(op: BinaryOp, a: int, b: int, r: int)
    ensures Computes(op, a, b, r) <==> ApplyBinary(op, a, b) == Some(r)
  {
    if op in {BitOr, BitXor, BitAnd} {
      BitsCompute(a, b, r);
    } else if op == Div || op == Mod {
      DivisionComputes(a, b, r);
    } else if op == Shr && 0 <= b < 64 {
      QuotientIs(a, Pow2(b), r);
    }
  }

  predicate Negates(op: UnaryOp, a: int, r: int) {
    match op
    case Neg => r + a == 0
    case Compl => 0 <= r < 0x10000 && (r + a + 1) % 0x10000 == 0
    case Not => r == Flag(a == 0)
  }

  lemma UnaryComputes(op: UnaryOp, a: int, r: int)
    ensures Negates(op, a, r) <==> ApplyUnary(op, a) == r
  {
    if op == Compl {
      if 0 <= r < 0x10000 && (r + a + 1) % 0x10000 == 0 {
        ModuloIs(-1 - a, 0x10000, -((r + a + 1) / 0x10000), r);
      }
      if r == (-1 - a) % 0x10000 {
        ModuloIs(r + a + 1, 0x10000, -((-1 - a) / 0x10000), 0);
      }
    }
  }

  ghost predicate Chooses(f: PairFn, a: int, b: int, r: int) {
    match f
    case ALIGN => Aligns(a, b, r)
    case MAX => r >= a && r >= b && (r == a || r == b)
    case MIN => r <= a && r <= b && (r == a || r == b)
  }

  lemma PairComputes(f: PairFn, a: int, b: int, r: int)
    ensures Chooses(f, a, b, r) <==> ApplyPair(f, a, b) == Some(r)
  {
    AlignUpAligns(a, b, r);
  }

  // ---- expressions

  /** v is a value of the expression. && and || look at their second operand only when they must. */
  ghost predicate Evaluates(e: Expr, prog: Program, st: State, v: int) {
    match e
    case Num(n) => v == n
    case Dot => v == st.dot
    case Sym(name) => SymbolRef(name, prog, st) == Some(v)
    case OfName(f, arg) => NameRef(f, arg, prog, st) == Some(v)
    case AlignDot(a) => exists n :: Evaluates(a, prog, st, n) && Aligns(st.dot, n, v)
    case OfPair(f, a, b) => exists x, y :: Evaluates(a, prog, st, x) && Evaluates(b, prog, st, y) && Chooses(f, x, y, v)
    case Cond(a, b, c) =>
      exists x :: Evaluates(a, prog, st, x) && (if x != 0 then Evaluates(b, prog, st, v) else Evaluates(c, prog, st, v))
    case Unary(op, a) => exists x :: Evaluates(a, prog, st, x) && Negates(op, x, v)
    case Binary(op, a, b) =>
      exists x :: Evaluates(a, prog, st, x)
                  && (if (op == LAnd && x == 0) || (op == LOr && x != 0) then v == Flag(op == LOr)
                      else exists y :: Evaluates(b, prog, st, y) && Computes(op, x, y, v))
  }

  /** Evaluation gives exactly the values that the expression has; so it has at most one. */
  lemma {:induction false} EvalEvaluates(e: Expr, prog: Program, st: State, v: int)
    ensures Evaluates(e, prog, st, v) <==> Eval(e, prog, st) == Some(v)
    decreases e, 2
  {
    match e
    case Num(_) =>
    case Dot =>
    case Sym(_) =>
    case OfName(_, _) =>
    case AlignDot(a) => AlignDotEvaluates(e, prog, st, v);
    case OfPair(_, _, _) => PairEvaluates(e, prog, st, v);
    case Cond(_, _, _) => CondEvaluates(e, prog, st, v);
    case Unary(_, _) => UnaryEvaluates(e, prog, st, v);
    case Binary(_, _, _) => BinaryEvaluates(e, prog, st, v);
  }

  /** An expression and its only value. */
  lemma {:induction false} Valued(e: Expr, prog: Program, st: State)
    ensures Eval(e, prog, st).Some? ==> Evaluates(e, prog, st, Eval(e, prog, st).value)
    ensures forall x | Evaluates(e, prog, st, x) :: Eval(e, prog, st) == Some(x)
    decreases e, 3
  {
    if Eval(e, prog, st).Some? {
      EvalEvaluates(e, prog, st, Eval(e, prog, st).value);
    }
    forall x | Evaluates(e, prog, st, x)
      ensures Eval(e, prog, st) == Some(x)
    {
      EvalEvaluates(e, prog, st, x);
    }
  }

  lemma {:induction false} AlignDotEvaluates(e: Expr, prog: Program, st: State, v: int)
    requires e.AlignDot?
    ensures Evaluates(e, prog, st, v) <==> Eval(e, prog, st) == Some(v)
    decreases e, 1
  {
    Valued(e.a, prog, st);
    if Eval(e.a, prog, st).Some? {
      AlignUpAligns(st.dot, Eval(e.a, prog, st).value, v);
    }
  }

  lemma {:induction false} PairEvaluates(e: Expr, prog: Program, st: State, v: int)
    requires e.OfPair?
    ensures Evaluates(e, prog, st, v) <==> Eval(e, prog, st) == Some(v)
    decreases e, 1
  {
    Valued(e.a, prog, st);
    Valued(e.b, prog, st);
    if Eval(e.a, prog, st).Some? && Eval(e.b, prog, st).Some? {
      PairComputes(e.pf, Eval(e.a, prog, st).value, Eval(e.b, prog, st).value, v);
    }
  }

  lemma {:induction false} CondEvaluates(e: Expr, prog: Program, st: State, v: int)
    requires e.Cond?
    ensures Evaluates(e, prog, st, v) <==> Eval(e, prog, st) == Some(v)
    decreases e, 1
  {
    Valued(e.a, prog, st);
    EvalEvaluates(e.b, prog, st, v);
    EvalEvaluates(e.c, prog, st, v);
  }

  lemma {:induction false} UnaryEvaluates(e: Expr, prog: Program, st: State, v: int)
    requires e.Unary?
    ensures Evaluates(e, prog, st, v) <==> Eval(e, prog, st) == Some(v)
    decreases e, 1
  {
    Valued(e.a, prog, st);
    if Eval(e.a, prog, st).Some? {
      UnaryComputes(e.uop, Eval(e.a, prog, st).value, v);
    }
  }

  lemma {:induction false} BinaryEvaluates(e: Expr, prog: Program, st: State, v: int)
    requires e.Binary?
    ensures Evaluates(e, prog, st, v) <==> Eval(e, prog, st) == Some(v)
    decreases e, 1
  {
    Valued(e.a, prog, st);
    Valued(e.b, prog, st);
    if Eval(e.a, prog, st).Some? && Eval(e.b, prog, st).Some? {
      BinaryComputes(e.bop, Eval(e.a, prog, st).value, Eval(e.b, prog, st).value, v);
    }
  }

  // ---- values that are stored

  /** The number u, below n, stands for v without or with a sign. */
  predicate StandsFor(u: int, v: int, n: int) {
    0 <= u < n && (v == u || (2 * u >= n && v == u - n))
  }

  /** A fill byte stands for its value. */
  lemma FillByteFits(e: Expr, prog: Program, st: State, b: int)
    ensures FillByte(e, prog, st) == Some(b) <==> exists v :: Evaluates(e, prog, st, v) && StandsFor(b, v, 256)
  {
    Valued(e, prog, st);
    if Eval(e, prog, st).Some? {
      FillByteStands(Eval(e, prog, st).value, b);
    }
  }

  lemma FillByteStands(v: int, b: int)
    ensures -128 <= v <= 255 && b == v % 256 <==> StandsFor(b, v, 256)
  {
  }

  /** The number of different contents of so many bytes. */
  function Codes(width: nat): nat {
    if width == 1 then 256 else 65536
  }

  /** BYTE and WORD accept exactly what their bytes can stand for. */
  lemma WidthFits(v: int, width: nat)
    requires width == 1 || width == 2
    ensures FitsWidth(v, width) <==> exists u :: StandsFor(u, v, Codes(width))
  {
    var n := Codes(width);
    if FitsWidth(v, width) {
      assert StandsFor(if v < 0 then v + n else v, v, n);
    }
  }
}
